/** The response a recursive (IIR) filter defines, stated as its linear
    difference equation over exact arithmetic, together with the coefficient
    normalisation that IIR_filter applies before filtering. */
module IirResponse {

  function Max(x: nat, y: nat): nat
  {
    if x >= y then x else y
  }

  /** Length of the delay line: the longer of the two coefficient arrays. */
  function Order(b: seq<real>, a: seq<real>): nat
  {
    Max(|b|, |a|)
  }

  /** Coefficient k, the shorter array being padded with zeros. */
  function Coef(c: seq<real>, k: int): real
  {
    if 0 <= k < |c| then c[k] else 0.0
  }

  /** Sample i of a signal; samples before the start (or past the end) are zero. */
  function At(s: seq<real>, i: int): real
  {
    if 0 <= i < |s| then s[i] else 0.0
  }

  /** The partial convolution sum  c[lo]*s[t-lo] + ... + c[hi-1]*s[t-hi+1]. */
  function Conv(c: seq<real>, s: seq<real>, t: int, lo: nat, hi: nat): real
    decreases hi - lo
  {
    if lo >= hi then 0.0 else Coef(c, lo) * At(s, t - lo) + Conv(c, s, t, lo + 1, hi)
  }

  /** The output of the filter with numerator b and denominator a (with a[0]
      taken as 1) on input x, from an all-zero delay line:
        y[n] = sum_{0 <= k < L} b[k]*x[n-k] - sum_{1 <= k < L} a[k]*y[n-k],
      L = max(|b|, |a|). */
  function Response(b: seq<real>, a: seq<real>, x: seq<real>): (y: seq<real>)
    ensures |y| == |x|
    decreases |x|
  {
    if |x| == 0 then []
    else
      var prev := Response(b, a, x[..|x| - 1]);
      prev + [Conv(b, x, |x| - 1, 0, Order(b, a)) - Conv(a, prev, |x| - 1, 1, Order(b, a))]
  }

  /** Every coefficient scaled by f. */
  function Scaled(c: seq<real>, f: real): (r: seq<real>)
    ensures |r| == |c|
    ensures forall i :: 0 <= i < |c| ==> r[i] == c[i] * f
  {
    seq(|c|, i requires 0 <= i < |c| => c[i] * f)
  }

  /** The denominator as IIR_filter leaves it: divided by its leading
      coefficient (skipped when that is already 1), then led by exactly 1. */
  function NormalizedDenominator(den: seq<real>): (r: seq<real>)
    requires |den| >= 1 && den[0] != 0.0
    ensures |r| == |den| && r[0] == 1.0
    ensures forall i :: 1 <= i < |den| ==> r[i] * den[0] == den[i]
  {
    var norm := 1.0 / den[0];
    [1.0] + (if norm != 1.0 then Scaled(den[1..], norm) else den[1..])
  }

  /** The numerator as IIR_filter leaves it: divided by the leading
      denominator coefficient, except when the denominator has a single
      coefficient (or that coefficient is already 1). */
  function NormalizedNumerator(num: seq<real>, den: seq<real>): (r: seq<real>)
    requires |den| >= 1 && den[0] != 0.0
    ensures |r| == |num|
    ensures |den| != 1 ==> forall i :: 0 <= i < |num| ==> r[i] * den[0] == num[i]
    ensures |den| == 1 ==> r == num
  {
    var norm := 1.0 / den[0];
    if norm != 1.0 && |den| != 1 then Scaled(num, norm) else num
  }

  lemma {:induction false} NormalizationKeepsLeadingOne(num: seq<real>, den: seq<real>)
    requires |den| >= 1 && den[0] == 1.0
    ensures NormalizedDenominator(den) == den
    ensures NormalizedNumerator(num, den) == num
  {
    assert den == [1.0] + den[1..];
  }

  // ---------------------------------------------------------------------
  // Facts about Conv

  lemma {:induction false} ConvAgree(c: seq<real>, s1: seq<real>, s2: seq<real>, t: int, lo: nat, hi: nat)
    requires forall i :: 0 <= i <= t - lo ==> At(s1, i) == At(s2, i)
    ensures Conv(c, s1, t, lo, hi) == Conv(c, s2, t, lo, hi)
    decreases hi - lo
  {
    if lo < hi {
      ConvAgree(c, s1, s2, t, lo + 1, hi);
      if 0 <= t - lo {
        assert At(s1, t - lo) == At(s2, t - lo);
      }
    }
  }

  lemma {:induction false} ConvVanishes(c: seq<real>, s: seq<real>, t: int, lo: nat, hi: nat)
    requires forall k :: lo <= k < hi ==> Coef(c, k) == 0.0 || At(s, t - k) == 0.0
    ensures Conv(c, s, t, lo, hi) == 0.0
    decreases hi - lo
  {
    if lo < hi {
      ConvVanishes(c, s, t, lo + 1, hi);
      assert Coef(c, lo) == 0.0 || At(s, t - lo) == 0.0;
    }
  }

  lemma {:induction false} ConvScaled(c1: seq<real>, c2: seq<real>, f: real, s: seq<real>, t: int, lo: nat, hi: nat)
    requires forall k :: lo <= k < hi ==> Coef(c2, k) == f * Coef(c1, k)
    ensures Conv(c2, s, t, lo, hi) == f * Conv(c1, s, t, lo, hi)
    decreases hi - lo
  {
    if lo < hi {
      ConvScaled(c1, c2, f, s, t, lo + 1, hi);
      assert Coef(c2, lo) * At(s, t - lo) == f * (Coef(c1, lo) * At(s, t - lo));
    }
  }

  /** A unit impulse at time 0 picks out coefficient t. */
  lemma {:induction false} ConvImpulse(c: seq<real>, s: seq<real>, t: int, lo: nat, hi: nat)
    requires |s| >= 1 && s[0] == 1.0 && forall i :: 1 <= i < |s| ==> s[i] == 0.0
    ensures Conv(c, s, t, lo, hi) == if lo <= t < hi then Coef(c, t) else 0.0
    decreases hi - lo
  {
    if lo < hi {
      ConvImpulse(c, s, t, lo + 1, hi);
      assert At(s, t - lo) == if t == lo then 1.0 else 0.0;
    }
  }

  // ---------------------------------------------------------------------
  // Properties of Response

  /** Causality: the first m outputs depend on the first m inputs only. */
  lemma {:induction false} ResponseCausal(b: seq<real>, a: seq<real>, x: seq<real>, m: nat)
    requires m <= |x|
    ensures Response(b, a, x[..m]) == Response(b, a, x)[..m]
    decreases |x|
  {
    if m < |x| {
      var init := x[..|x| - 1];
      ResponseCausal(b, a, init, m);
      assert init[..m] == x[..m];
    } else {
      assert x[..m] == x;
    }
  }

  /** The output satisfies the difference equation at every sample. */
  lemma {:induction false} ResponseDifferenceEquation(b: seq<real>, a: seq<real>, x: seq<real>, n: nat)
    requires n < |x|
    ensures var y := Response(b, a, x);
            y[n] == Conv(b, x, n, 0, Order(b, a)) - Conv(a, y, n, 1, Order(b, a))
  {
    var y := Response(b, a, x);
    var p := x[..n + 1];
    ResponseCausal(b, a, x, n + 1);
    ResponseCausal(b, a, x, n);
    assert p[..n] == x[..n];
    assert Response(b, a, p)[n] == y[n];
    ConvAgree(b, p, x, n, 0, Order(b, a));
    ConvAgree(a, y[..n], y, n, 1, Order(b, a));
  }

  /** numerator = [1], denominator = [1] passes the signal through. */
  lemma {:induction false} IdentityFilter(x: seq<real>)
    ensures Response([1.0], [1.0], x) == x
    decreases |x|
  {
    if |x| > 0 {
      IdentityFilter(x[..|x| - 1]);
      assert x == x[..|x| - 1] + [x[|x| - 1]];
    }
  }

  /** Silence in, silence out. */
  lemma {:induction false} ZeroInZeroOut(b: seq<real>, a: seq<real>, x: seq<real>)
    requires forall i :: 0 <= i < |x| ==> x[i] == 0.0
    ensures forall i :: 0 <= i < |x| ==> Response(b, a, x)[i] == 0.0
    decreases |x|
  {
    if |x| > 0 {
      var n := |x| - 1;
      var prev := Response(b, a, x[..n]);
      ZeroInZeroOut(b, a, x[..n]);
      ConvVanishes(b, x, n, 0, Order(b, a));
      ConvVanishes(a, prev, n, 1, Order(b, a));
    }
  }

  /** The response to a unit impulse: y[n] = b[n] - sum_{1 <= k < L} a[k]*y[n-k]. */
  lemma {:induction false} ImpulseResponse(b: seq<real>, a: seq<real>, x: seq<real>, n: nat)
    requires n < |x| && x[0] == 1.0 && forall i :: 1 <= i < |x| ==> x[i] == 0.0
    ensures var y := Response(b, a, x);
            y[n] == Coef(b, n) - Conv(a, y, n, 1, Order(b, a))
  {
    ResponseDifferenceEquation(b, a, x, n);
    ConvImpulse(b, x, n, 0, Order(b, a));
  }

  /** Normalised coefficients are the caller's divided by den[0] (the
      numerator only when the denominator has more than one coefficient). */
  lemma {:induction false} NormalizedScale(num: seq<real>, den: seq<real>, k: nat)
    requires |den| >= 1 && den[0] != 0.0
    requires |den| != 1 || den[0] == 1.0
    ensures Coef(NormalizedNumerator(num, den), k) == (1.0 / den[0]) * Coef(num, k)
    ensures k >= 1 ==> Coef(NormalizedDenominator(den), k) == (1.0 / den[0]) * Coef(den, k)
  {
    var f := 1.0 / den[0];
    var b, a := NormalizedNumerator(num, den), NormalizedDenominator(den);
    assert den[0] * f == 1.0;
    if k < |num| && |den| != 1 {
      assert b[k] * den[0] == num[k];
      assert b[k] == b[k] * (den[0] * f) == (b[k] * den[0]) * f;
    }
    if 1 <= k < |den| {
      assert a[k] * den[0] == den[k];
      assert a[k] == a[k] * (den[0] * f) == (a[k] * den[0]) * f;
    }
  }

  /** Normalisation keeps the design's transfer function: the filtered output
      y satisfies  sum_k den[k]*y[n-k] == sum_k num[k]*x[n-k]  with the
      caller's original coefficients, provided the denominator has more than
      one coefficient (or already leads with 1). */
  lemma {:induction false} NormalizedDesignEquation(num: seq<real>, den: seq<real>, x: seq<real>, n: nat)
    requires |num| >= 1 && |den| >= 1 && den[0] != 0.0
    requires |den| != 1 || den[0] == 1.0
    requires n < |x|
    ensures var y := Response(NormalizedNumerator(num, den), NormalizedDenominator(den), x);
            Conv(den, y, n, 0, Order(num, den)) == Conv(num, x, n, 0, Order(num, den))
  {
    var b, a := NormalizedNumerator(num, den), NormalizedDenominator(den);
    var f := 1.0 / den[0];
    forall k: nat
      ensures Coef(b, k) == f * Coef(num, k)
      ensures k >= 1 ==> Coef(a, k) == f * Coef(den, k)
    {
      NormalizedScale(num, den, k);
    }
    ScaledDesignEquation(num, den, f, b, a, x, n);
  }

  /** A filter whose coefficients are the design's scaled by f = 1/den[0]
      solves the design's difference equation. */
  lemma {:induction false} ScaledDesignEquation(num: seq<real>, den: seq<real>, f: real, b: seq<real>, a: seq<real>, x: seq<real>, n: nat)
    requires |num| >= 1 && |den| >= 1 && den[0] * f == 1.0
    requires |b| == |num| && |a| == |den|
    requires forall k: nat :: Coef(b, k) == f * Coef(num, k)
    requires forall k: nat :: k >= 1 ==> Coef(a, k) == f * Coef(den, k)
    requires n < |x|
    ensures Conv(den, Response(b, a, x), n, 0, Order(num, den)) == Conv(num, x, n, 0, Order(num, den))
  {
    var y, L := Response(b, a, x), Order(num, den);
    ScaledOutput(num, den, f, b, a, x, n);
    Unscaled(den, f, y, n, L, Conv(num, x, n, 0, L));
  }

  /** Undoing the scaling by f = 1/den[0] on one output sample. */
  lemma {:induction false} Unscaled(den: seq<real>, f: real, y: seq<real>, n: nat, L: nat, cb: real)
    requires |den| >= 1 && den[0] * f == 1.0 && n < |y| && L >= 1
    requires y[n] == f * cb - f * Conv(den, y, n, 1, L)
    ensures Conv(den, y, n, 0, L) == cb
  {
    assert Conv(den, y, n, 0, L) == den[0] * y[n] + Conv(den, y, n, 1, L);
    Unscale(den[0], f, y[n], cb, Conv(den, y, n, 1, L));
  }

  /** The output of the scaled filter, in terms of the design's sums. */
  lemma {:induction false} ScaledOutput(num: seq<real>, den: seq<real>, f: real, b: seq<real>, a: seq<real>, x: seq<real>, n: nat)
    requires |b| == |num| && |a| == |den|
    requires forall k: nat :: Coef(b, k) == f * Coef(num, k)
    requires forall k: nat :: k >= 1 ==> Coef(a, k) == f * Coef(den, k)
    requires n < |x|
    ensures var y, L := Response(b, a, x), Order(num, den);
            y[n] == f * Conv(num, x, n, 0, L) - f * Conv(den, y, n, 1, L)
  {
    var y, L := Response(b, a, x), Order(num, den);
    ConvScaled(num, b, f, x, n, 0, L);
    ConvScaled(den, a, f, y, n, 1, L);
    ResponseDifferenceEquation(b, a, x, n);
  }

  /** The algebra behind NormalizedDesignEquation. */
  lemma {:induction false} Unscale(d: real, f: real, y: real, cb: real, ca: real)
    requires d * f == 1.0 && y == f * cb - f * ca
    ensures d * y + ca == cb
  {
    calc {
      d * y + ca;
      d * (f * cb - f * ca) + ca;
      (d * f) * cb - (d * f) * ca + ca;
    }
  }

  /** With a single denominator coefficient the numerator is left unscaled,
      so the output is the plain convolution with the caller's numerator,
      whatever the denominator coefficient is. */
  lemma {:induction false} SingleDenominatorIgnoresGain(num: seq<real>, den: seq<real>, x: seq<real>, n: nat)
    requires |num| >= 1 && |den| == 1 && den[0] != 0.0 && n < |x|
    ensures Response(NormalizedNumerator(num, den), NormalizedDenominator(den), x)[n]
            == Conv(num, x, n, 0, |num|)
  {
    var a := NormalizedDenominator(den);
    assert a == [1.0];
    var y := Response(num, a, x);
    ResponseDifferenceEquation(num, a, x, n);
    ConvVanishes(a, y, n, 1, |num|);
  }
}
