/** The bit-level side of renormalize: an IEEE 754 single-precision value as
    its 32-bit pattern (1 sign bit, 8 exponent bits, 23 fraction bits), the
    NaN test renormalize performs on that pattern, and the product renormalize
    forms with the test's outcome (1.0 or 0.0). */
module FloatBits {
  const SignBit: bv32 := 0x8000_0000
  const FractionMask: bv32 := 0x007F_FFFF
  /** The most significant fraction bit: set in a quiet NaN. */
  const QuietBit: bv32 := 0x0040_0000

  function ExponentField(bits: bv32): bv8
  {
    ((bits >> 23) & 0xFF) as bv8
  }

  function FractionField(bits: bv32): bv32
  {
    bits & FractionMask
  }

  function IsNegative(bits: bv32): bool
  {
    bits & SignBit != 0
  }

  /** The pattern with the given sign, biased exponent and 23-bit fraction. */
  function Pack(negative: bool, exponent: bv8, fraction: bv32): (bits: bv32)
    requires fraction <= FractionMask
    ensures IsNegative(bits) == negative
    ensures ExponentField(bits) == exponent
    ensures FractionField(bits) == fraction
  {
    (if negative then SignBit else 0) | ((exponent as bv32) << 23) | fraction
  }

  /** The test renormalize applies to the bits of *x: all exponent bits set
      and a non-zero fraction. */
  predicate IsNaNPattern(bits: bv32)
  {
    (bits >> 23) & 0xFF == 0xFF && bits & FractionMask != 0
  }

  /** The test accepts exactly the NaNs of IEEE 754: exponent all ones with a
      non-zero fraction. Infinities (fraction 0) and every finite value are
      rejected, whatever the sign. */
  lemma {:induction false} NaNPatternExact(negative: bool, exponent: bv8, fraction: bv32)
    requires fraction <= FractionMask
    ensures IsNaNPattern(Pack(negative, exponent, fraction)) <==> exponent == 0xFF && fraction != 0
  {
    var bits := Pack(negative, exponent, fraction);
    assert (bits >> 23) & 0xFF == ExponentField(bits) as bv32;
  }

  /** The IEEE 754 single-precision product of x with 1.0 (one) or with +0.0
      (not one): a NaN operand gives a quiet NaN carrying its payload,
      infinity times zero is the default quiet NaN, a finite value times zero
      is a zero of the value's sign, and x times 1.0 is x. */
  function MultiplyByFlag(x: bv32, one: bool): (r: bv32)
    ensures IsNaNPattern(x) ==> IsNaNPattern(r)
    ensures !IsNaNPattern(x) && one ==> r == x
    ensures !IsNaNPattern(x) && !one && ExponentField(x) == 0xFF ==> IsNaNPattern(r)
    ensures !IsNaNPattern(x) && !one && ExponentField(x) != 0xFF ==>
              ExponentField(r) == 0 && FractionField(r) == 0 && IsNegative(r) == IsNegative(x)
  {
    if IsNaNPattern(x) then x | QuietBit
    else if one then x
    else if ExponentField(x) == 0xFF then 0x7FC0_0000
    else x & SignBit
  }

  /** renormalize: *x is multiplied by the outcome of "not a NaN" converted
      to float (1.0 or 0.0). */
  function Renormalize(x: bv32): (r: bv32)
    ensures !IsNaNPattern(x) ==> r == x
  {
    MultiplyByFlag(x, !IsNaNPattern(x))
  }

  /** The quiet NaN 0x7FC00000 comes back from renormalize unchanged. */
  lemma {:induction false} RenormalizeQuietNaN()
    ensures Renormalize(0x7FC0_0000) == 0x7FC0_0000
  {
    assert IsNaNPattern(0x7FC0_0000);
  }

  /** renormalize changes no value: a value that is not a NaN comes back
      bit for bit, and a NaN comes back a NaN (the only case where it
      multiplies by zero is a NaN operand, and a NaN times zero is a NaN).
      So over the reals, where the filter model works, it is the identity. */
  lemma {:induction false} RenormalizeChangesNothing(x: bv32)
    ensures IsNaNPattern(Renormalize(x)) <==> IsNaNPattern(x)
    ensures !IsNaNPattern(x) ==> Renormalize(x) == x
  {
  }
}
