/** IIR_filter and updateStateLine: the recursive filter as it runs, over
    arrays updated in place. The caller's coefficient arrays are normalised
    in place, a zero-filled delay line of max(|numerator|, |denominator|)
    slots is allocated, and one of three loop variants (equal lengths,
    numerator longer, denominator longer) filters the samples. Each variant
    is proved to produce IirResponse.Response of the normalised
    coefficients. */
module IirFilter {
  import opened IirResponse
  import opened DelayLine

  /** updateStateLine: for k in 1..size-1, slot k-1 takes
      numerator[k]*sample - denominator[k]*out plus the old slot k. Slots from
      size-1 on are not touched. */
  method UpdateStateLine(state: array<real>, size: nat, denominator: array<real>, numerator: array<real>,
                         sample: real, out: real)
    requires 1 <= size <= state.Length && size <= denominator.Length && size <= numerator.Length
    requires state != denominator && state != numerator
    modifies state
    ensures forall j {:trigger state[j]} :: 0 <= j < size - 1 ==>
              state[j] == numerator[j + 1] * sample - denominator[j + 1] * out + old(state[j + 1])
    ensures forall j {:trigger state[j]} :: 0 <= j < state.Length && size - 1 <= j ==> state[j] == old(state[j])
  {
    var k := 1;
    while k < size
      invariant 1 <= k <= size
      invariant forall j :: 0 <= j < k - 1 ==>
                  state[j] == numerator[j + 1] * sample - denominator[j + 1] * out + old(state[j + 1])
      invariant forall j :: k - 1 <= j < state.Length ==> state[j] == old(state[j])
    {
      state[k - 1] := (numerator[k] * sample - denominator[k] * out) + state[k];
      k := k + 1;
    }
  }

  /** The tail of the numerator-longer variant: for k from the denominator
      size up to the last slot, slot k-1 takes numerator[k]*sample plus the
      old slot k. The last slot is not touched. */
  method NumeratorTail(state: array<real>, from: nat, numerator: array<real>, sample: real)
    requires 1 <= from <= state.Length <= numerator.Length
    requires state != numerator
    modifies state
    ensures forall j {:trigger state[j]} :: from - 1 <= j < state.Length - 1 ==> state[j] == numerator[j + 1] * sample + old(state[j + 1])
    ensures forall j {:trigger state[j]} :: 0 <= j < state.Length && (j < from - 1 || j == state.Length - 1) ==> state[j] == old(state[j])
  {
    var k := from;
    while k < state.Length
      invariant from <= k <= state.Length
      invariant forall j :: from - 1 <= j < k - 1 ==> state[j] == numerator[j + 1] * sample + old(state[j + 1])
      invariant forall j :: 0 <= j < state.Length && (j < from - 1 || k - 1 <= j) ==> state[j] == old(state[j])
    {
      state[k - 1] := numerator[k] * sample + state[k];
      k := k + 1;
    }
  }

  /** The tail of the denominator-longer variant: for k from the numerator
      size up to the last slot, slot k-1 takes -denominator[k]*out plus the
      old slot k. The last slot is not touched. */
  method DenominatorTail(state: array<real>, from: nat, denominator: array<real>, out: real)
    requires 1 <= from <= state.Length <= denominator.Length
    requires state != denominator
    modifies state
    ensures forall j {:trigger state[j]} :: from - 1 <= j < state.Length - 1 ==> state[j] == -denominator[j + 1] * out + old(state[j + 1])
    ensures forall j {:trigger state[j]} :: 0 <= j < state.Length && (j < from - 1 || j == state.Length - 1) ==> state[j] == old(state[j])
  {
    var k := from;
    while k < state.Length
      invariant from <= k <= state.Length
      invariant forall j :: from - 1 <= j < k - 1 ==> state[j] == -denominator[j + 1] * out + old(state[j + 1])
      invariant forall j :: 0 <= j < state.Length && (j < from - 1 || k - 1 <= j) ==> state[j] == old(state[j])
    {
      state[k - 1] := (-denominator[k] * out) + state[k];
      k := k + 1;
    }
  }

  /** One of the scaling loops of IIR_filter: c[i] *= factor for every i
      from `from` on. */
  method ScaleFrom(c: array<real>, from: nat, factor: real)
    requires from <= c.Length
    modifies c
    ensures c[..] == old(c[..from]) + Scaled(old(c[from..]), factor)
  {
    ghost var c0 := c[..];
    for i := from to c.Length
      invariant forall k :: 0 <= k < from ==> c[k] == c0[k]
      invariant forall k :: from <= k < i ==> c[k] == c0[k] * factor
      invariant forall k :: i <= k < c.Length ==> c[k] == c0[k]
    {
      c[i] := c[i] * factor;
    }
    ghost var r := c0[..from] + Scaled(c0[from..], factor);
    forall k | 0 <= k < c.Length
      ensures c[k] == r[k]
    {
      if k >= from {
        assert r[k] == Scaled(c0[from..], factor)[k - from] == c0[from..][k - from] * factor;
      }
    }
    assert c[..] == r;
  }

  /** The delay-line update of one sample in the equal-lengths variant, once
      the output out has been taken: updateStateLine over the whole line. */
  method StepEqualLengths(state: array<real>, denominator: array<real>, numerator: array<real>, sample: real, out: real)
    requires 1 <= state.Length == numerator.Length == denominator.Length
    requires state != numerator && state != denominator
    modifies state
    ensures Shifted(old(state[..]), state[..], numerator[..], denominator[..], sample, out)
  {
    ghost var s0 := state[..];
    UpdateStateLine(state, state.Length, denominator, numerator, sample, out);
    ShiftedEqualLengths(s0, state[..], numerator[..], denominator[..], sample, out);
  }

  /** The delay-line update of one sample in the numerator-longer variant:
      updateStateLine over the denominator's length, then the numerator alone
      feeds the remaining slots. */
  method StepNumeratorLonger(state: array<real>, denominator: array<real>, numerator: array<real>, sample: real, out: real)
    requires 1 <= denominator.Length < numerator.Length == state.Length
    requires state != numerator && state != denominator
    modifies state
    ensures Shifted(old(state[..]), state[..], numerator[..], denominator[..], sample, out)
  {
    ghost var s0, b, a := state[..], numerator[..], denominator[..];
    UpdateStateLine(state, denominator.Length, denominator, numerator, sample, out);
    ghost var s1 := state[..];
    assert forall j :: 0 <= j < |a| - 1 ==> s1[j] == b[j + 1] * sample - a[j + 1] * out + s0[j + 1];
    assert forall j :: 0 <= j < |s1| && |a| - 1 <= j ==> s1[j] == s0[j];
    NumeratorTail(state, denominator.Length, numerator, sample);
    ghost var s2 := state[..];
    assert forall j :: |a| - 1 <= j < |s2| - 1 ==> s2[j] == b[j + 1] * sample + s1[j + 1];
    assert forall j :: 0 <= j < |s2| && (j < |a| - 1 || j == |s2| - 1) ==> s2[j] == s1[j];
    ShiftedNumeratorLonger(s0, s1, s2, b, a, sample, out);
  }

  /** The delay-line update of one sample in the denominator-longer variant:
      updateStateLine over the numerator's length, then the denominator alone
      feeds the remaining slots. */
  method StepDenominatorLonger(state: array<real>, denominator: array<real>, numerator: array<real>, sample: real, out: real)
    requires 1 <= numerator.Length < denominator.Length == state.Length
    requires state != numerator && state != denominator
    modifies state
    ensures Shifted(old(state[..]), state[..], numerator[..], denominator[..], sample, out)
  {
    ghost var s0, b, a := state[..], numerator[..], denominator[..];
    UpdateStateLine(state, numerator.Length, denominator, numerator, sample, out);
    ghost var s1 := state[..];
    assert forall j :: 0 <= j < |b| - 1 ==> s1[j] == b[j + 1] * sample - a[j + 1] * out + s0[j + 1];
    assert forall j :: 0 <= j < |s1| && |b| - 1 <= j ==> s1[j] == s0[j];
    DenominatorTail(state, numerator.Length, denominator, out);
    ghost var s2 := state[..];
    assert forall j :: |b| - 1 <= j < |s2| - 1 ==> s2[j] == -a[j + 1] * out + s1[j + 1];
    assert forall j :: 0 <= j < |s2| && (j < |b| - 1 || j == |s2| - 1) ==> s2[j] == s1[j];
    ShiftedDenominatorLonger(s0, s1, s2, b, a, sample, out);
  }

  /** The normalisation at the head of IIR_filter: with norm = 1/denominator[0],
      when norm is not 1 every denominator coefficient after the first is
      multiplied by norm, and so is every numerator coefficient unless the
      denominator has a single coefficient; then denominator[0] becomes 1. */
  method NormalizeCoefficients(denominator: array<real>, numerator: array<real>)
    requires denominator.Length >= 1 && denominator[0] != 0.0 && denominator != numerator
    modifies denominator, numerator
    ensures denominator[..] == NormalizedDenominator(old(denominator[..]))
    ensures numerator[..] == NormalizedNumerator(old(numerator[..]), old(denominator[..]))
  {
    ghost var den, num := denominator[..], numerator[..];
    var norm := 1.0 / denominator[0];
    if norm != 1.0 {
      ScaleFrom(denominator, 1, norm);
      if denominator.Length != 1 {
        assert numerator[..] == num;
        ScaleFrom(numerator, 0, norm);
        assert numerator[..] == Scaled(num, norm) by { assert num[..0] == [] && num[0..] == num; }
      }
    }
    ghost var scaled := denominator[1..];
    assert scaled == if norm != 1.0 then Scaled(den[1..], norm) else den[1..];
    denominator[0] := 1.0;
    assert denominator[..] == [1.0] + scaled;
  }

  /** IIR_filter. Returns without writing anything when a pointer is null or
      denominator[0] is 0. Otherwise it leaves the coefficient arrays
      normalised and output[0..sampleCount) holding the filter's response to
      input[0..sampleCount); input and output may be the same array. */
  method IirFilter(input: array?<real>, output: array?<real>, sampleCount: nat,
                   denominator: array?<real>, numerator: array?<real>)
    requires input != null ==> sampleCount <= input.Length
    requires output != null ==> sampleCount <= output.Length
    requires denominator != null ==> 1 <= denominator.Length
    requires numerator != null ==> 1 <= numerator.Length
    requires denominator != null ==> denominator != numerator && denominator != input && denominator != output
    requires numerator != null ==> numerator != input && numerator != output
    modifies output, denominator, numerator
    ensures input == null || output == null || denominator == null || numerator == null || old(denominator[0]) == 0.0 ==>
              (output != null ==> output[..] == old(output[..]))
              && (denominator != null ==> denominator[..] == old(denominator[..]))
              && (numerator != null ==> numerator[..] == old(numerator[..]))
    ensures input != null && output != null && denominator != null && numerator != null && old(denominator[0]) != 0.0 ==>
              && denominator[..] == NormalizedDenominator(old(denominator[..]))
              && numerator[..] == NormalizedNumerator(old(numerator[..]), old(denominator[..]))
              && output[..sampleCount] == Response(numerator[..], denominator[..], old(input[..sampleCount]))
              && output[sampleCount..] == old(output[sampleCount..])
  {
    if numerator == null || denominator == null || output == null || input == null || denominator[0] == 0.0 {
      return;
    }
    var numeratorSize, denominatorSize := numerator.Length, denominator.Length;
    var wantedSize := Max(numeratorSize, denominatorSize);
    var state := new real[wantedSize](_ => 0.0);
    NormalizeCoefficients(denominator, numerator);
    if numeratorSize == denominatorSize {
      FilterEqualLengths(input, output, sampleCount, denominator, numerator, state);
    } else if numeratorSize > denominatorSize {
      FilterNumeratorLonger(input, output, sampleCount, denominator, numerator, state);
    } else {
      FilterDenominatorLonger(input, output, sampleCount, denominator, numerator, state);
    }
  }

  /** The per-sample loop of the equal-lengths variant of IIR_filter:
      updateStateLine over the whole delay line. Each step reads input[n] before it writes
      output[n], so input and output may be the same array. The last slot of
      the delay line is never written and stays 0. */
  method FilterEqualLengths(input: array<real>, output: array<real>, sampleCount: nat,
                  denominator: array<real>, numerator: array<real>, state: array<real>)
    requires sampleCount <= input.Length && sampleCount <= output.Length
    requires 1 <= denominator.Length && 1 <= numerator.Length && numerator.Length == denominator.Length
    requires state.Length == Max(numerator.Length, denominator.Length)
    requires forall j :: 0 <= j < state.Length ==> state[j] == 0.0
    requires state != input && state != output && state != numerator && state != denominator
    requires numerator != input && numerator != output && denominator != input && denominator != output
    modifies output, state
    ensures output[..sampleCount] == Response(numerator[..], denominator[..], old(input[..sampleCount]))
    ensures output[sampleCount..] == old(output[sampleCount..])
    ensures state[state.Length - 1] == 0.0
  {
    ghost var b, a, x := numerator[..], denominator[..], input[..sampleCount];
    ghost var y: seq<real> := [];
    InitialState(b, a, x, state[..]);
    var n := 0;
    while n < sampleCount
      invariant 0 <= n <= sampleCount && |y| == n
      invariant y == Response(b, a, x[..n]) && output[..n] == y
      invariant forall i :: n <= i < output.Length ==> output[i] == old(output[i])
      invariant forall i :: n <= i < sampleCount ==> input[i] == x[i]
      invariant StateMatches(state[..], b, a, x, y)
    {
      ghost var s0 := state[..];
      var out := numerator[0] * input[n] + state[0];
      assert out == b[0] * x[n] + s0[0];
      StepEqualLengths(state, denominator, numerator, input[n], out);
      assert numerator[..] == b && denominator[..] == a;
      StepAdvances(b, a, x, y, s0, state[..], out);
      output[n] := out;
      assert output[..n + 1] == y + [out];
      y := y + [out];
      n := n + 1;
    }
    assert x[..sampleCount] == x;
  }

  /** The per-sample loop of the numerator-longer variant: updateStateLine over the denominator's
      length, then the numerator tail. Each step reads input[n] before it writes
      output[n], so input and output may be the same array. The last slot of
      the delay line is never written and stays 0. */
  method FilterNumeratorLonger(input: array<real>, output: array<real>, sampleCount: nat,
                  denominator: array<real>, numerator: array<real>, state: array<real>)
    requires sampleCount <= input.Length && sampleCount <= output.Length
    requires 1 <= denominator.Length && 1 <= numerator.Length && numerator.Length > denominator.Length
    requires state.Length == Max(numerator.Length, denominator.Length)
    requires forall j :: 0 <= j < state.Length ==> state[j] == 0.0
    requires state != input && state != output && state != numerator && state != denominator
    requires numerator != input && numerator != output && denominator != input && denominator != output
    modifies output, state
    ensures output[..sampleCount] == Response(numerator[..], denominator[..], old(input[..sampleCount]))
    ensures output[sampleCount..] == old(output[sampleCount..])
    ensures state[state.Length - 1] == 0.0
  {
    ghost var b, a, x := numerator[..], denominator[..], input[..sampleCount];
    ghost var y: seq<real> := [];
    InitialState(b, a, x, state[..]);
    var n := 0;
    while n < sampleCount
      invariant 0 <= n <= sampleCount && |y| == n
      invariant y == Response(b, a, x[..n]) && output[..n] == y
      invariant forall i :: n <= i < output.Length ==> output[i] == old(output[i])
      invariant forall i :: n <= i < sampleCount ==> input[i] == x[i]
      invariant StateMatches(state[..], b, a, x, y)
    {
      ghost var s0 := state[..];
      var out := numerator[0] * input[n] + state[0];
      assert out == b[0] * x[n] + s0[0];
      StepNumeratorLonger(state, denominator, numerator, input[n], out);
      assert numerator[..] == b && denominator[..] == a;
      StepAdvances(b, a, x, y, s0, state[..], out);
      output[n] := out;
      assert output[..n + 1] == y + [out];
      y := y + [out];
      n := n + 1;
    }
    assert x[..sampleCount] == x;
  }

  /** The per-sample loop of the denominator-longer variant: updateStateLine over the numerator's
      length, then the denominator tail. Each step reads input[n] before it writes
      output[n], so input and output may be the same array. The last slot of
      the delay line is never written and stays 0. */
  method FilterDenominatorLonger(input: array<real>, output: array<real>, sampleCount: nat,
                  denominator: array<real>, numerator: array<real>, state: array<real>)
    requires sampleCount <= input.Length && sampleCount <= output.Length
    requires 1 <= denominator.Length && 1 <= numerator.Length && numerator.Length < denominator.Length
    requires state.Length == Max(numerator.Length, denominator.Length)
    requires forall j :: 0 <= j < state.Length ==> state[j] == 0.0
    requires state != input && state != output && state != numerator && state != denominator
    requires numerator != input && numerator != output && denominator != input && denominator != output
    modifies output, state
    ensures output[..sampleCount] == Response(numerator[..], denominator[..], old(input[..sampleCount]))
    ensures output[sampleCount..] == old(output[sampleCount..])
    ensures state[state.Length - 1] == 0.0
  {
    ghost var b, a, x := numerator[..], denominator[..], input[..sampleCount];
    ghost var y: seq<real> := [];
    InitialState(b, a, x, state[..]);
    var n := 0;
    while n < sampleCount
      invariant 0 <= n <= sampleCount && |y| == n
      invariant y == Response(b, a, x[..n]) && output[..n] == y
      invariant forall i :: n <= i < output.Length ==> output[i] == old(output[i])
      invariant forall i :: n <= i < sampleCount ==> input[i] == x[i]
      invariant StateMatches(state[..], b, a, x, y)
    {
      ghost var s0 := state[..];
      var out := numerator[0] * input[n] + state[0];
      assert out == b[0] * x[n] + s0[0];
      StepDenominatorLonger(state, denominator, numerator, input[n], out);
      assert numerator[..] == b && denominator[..] == a;
      StepAdvances(b, a, x, y, s0, state[..], out);
      output[n] := out;
      assert output[..n + 1] == y + [out];
      y := y + [out];
      n := n + 1;
    }
    assert x[..sampleCount] == x;
  }

  /** The equal-lengths update, slot by slot, is the shared step. */
  lemma {:induction false} ShiftedEqualLengths(s0: seq<real>, s1: seq<real>, b: seq<real>, a: seq<real>, sample: real, out: real)
    requires 1 <= |s0| == |s1| == |b| == |a|
    requires forall j :: 0 <= j < |s1| - 1 ==> s1[j] == b[j + 1] * sample - a[j + 1] * out + s0[j + 1]
    requires s1[|s1| - 1] == s0[|s0| - 1]
    ensures Shifted(s0, s1, b, a, sample, out)
  {
    forall j | 0 <= j < |s1| - 1
      ensures s1[j] == Coef(b, j + 1) * sample - Coef(a, j + 1) * out + s0[j + 1]
    {
      assert Coef(b, j + 1) == b[j + 1] && Coef(a, j + 1) == a[j + 1];
    }
  }

  /** The numerator-longer update (s0 to s1 by updateStateLine, s1 to s2 by
      the numerator tail) is the shared step: past the denominator the
      zero-padded denominator contributes nothing. */
  lemma {:induction false} ShiftedNumeratorLonger(s0: seq<real>, s1: seq<real>, s2: seq<real>, b: seq<real>, a: seq<real>,
                                                  sample: real, out: real)
    requires 1 <= |a| < |b| == |s0| == |s1| == |s2|
    requires forall j :: 0 <= j < |a| - 1 ==> s1[j] == b[j + 1] * sample - a[j + 1] * out + s0[j + 1]
    requires forall j :: 0 <= j < |s1| && |a| - 1 <= j ==> s1[j] == s0[j]
    requires forall j :: |a| - 1 <= j < |s2| - 1 ==> s2[j] == b[j + 1] * sample + s1[j + 1]
    requires forall j :: 0 <= j < |s2| && (j < |a| - 1 || j == |s2| - 1) ==> s2[j] == s1[j]
    ensures Shifted(s0, s2, b, a, sample, out)
  {
    forall j | 0 <= j < |s2| - 1
      ensures s2[j] == Coef(b, j + 1) * sample - Coef(a, j + 1) * out + s0[j + 1]
    {
      if j < |a| - 1 {
        assert s2[j] == s1[j];
        assert Coef(b, j + 1) == b[j + 1] && Coef(a, j + 1) == a[j + 1];
      } else {
        assert s2[j] == b[j + 1] * sample + s1[j + 1];
        assert s1[j + 1] == s0[j + 1];
        assert Coef(b, j + 1) == b[j + 1] && Coef(a, j + 1) == 0.0;
      }
    }
  }

  /** The denominator-longer update (s0 to s1 by updateStateLine, s1 to s2 by
      the denominator tail) is the shared step: past the numerator the
      zero-padded numerator contributes nothing. */
  lemma {:induction false} ShiftedDenominatorLonger(s0: seq<real>, s1: seq<real>, s2: seq<real>, b: seq<real>, a: seq<real>,
                                                    sample: real, out: real)
    requires 1 <= |b| < |a| == |s0| == |s1| == |s2|
    requires forall j :: 0 <= j < |b| - 1 ==> s1[j] == b[j + 1] * sample - a[j + 1] * out + s0[j + 1]
    requires forall j :: 0 <= j < |s1| && |b| - 1 <= j ==> s1[j] == s0[j]
    requires forall j :: |b| - 1 <= j < |s2| - 1 ==> s2[j] == -a[j + 1] * out + s1[j + 1]
    requires forall j :: 0 <= j < |s2| && (j < |b| - 1 || j == |s2| - 1) ==> s2[j] == s1[j]
    ensures Shifted(s0, s2, b, a, sample, out)
  {
    forall j | 0 <= j < |s2| - 1
      ensures s2[j] == Coef(b, j + 1) * sample - Coef(a, j + 1) * out + s0[j + 1]
    {
      if j < |b| - 1 {
        assert s2[j] == s1[j];
        assert Coef(b, j + 1) == b[j + 1] && Coef(a, j + 1) == a[j + 1];
      } else {
        assert s2[j] == -a[j + 1] * out + s1[j + 1];
        assert s1[j + 1] == s0[j + 1];
        assert Coef(b, j + 1) == 0.0 && Coef(a, j + 1) == a[j + 1];
      }
    }
  }
}
