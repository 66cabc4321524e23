/** What the delay line of IIR_filter holds between samples, and the proof
    that one sample step (whichever of the three loop variants performs it)
    produces the next output of IirResponse.Response. */
module DelayLine {
  import opened IirResponse

  /** Slot j of the delay line once the samples before n have been
      processed (x the input, y the outputs so far):
        sum_{j < i < L} b[i]*x[n+j-i] - a[i]*y[n+j-i].
      It is defined the way the filter builds it: a slot receives the
      current sample's terms plus the slot above it as it was. */
  ghost function Pending(b: seq<real>, a: seq<real>, x: seq<real>, y: seq<real>, n: int, j: nat): real
    decreases Order(b, a) - j
  {
    if j + 1 >= Order(b, a) then 0.0
    else Coef(b, j + 1) * At(x, n - 1) - Coef(a, j + 1) * At(y, n - 1) + Pending(b, a, x, y, n - 1, j + 1)
  }

  /** The delay line is exactly what the samples so far leave pending. */
  ghost predicate StateMatches(s: seq<real>, b: seq<real>, a: seq<real>, x: seq<real>, y: seq<real>)
  {
    |s| == Order(b, a) && forall j :: 0 <= j < |s| ==> s[j] == Pending(b, a, x, y, |y|, j)
  }

  /** One sample's update of the delay line, with zero-padded coefficients:
      every slot but the last takes the current sample's terms plus the old
      value of the slot above it; the last slot is left alone. */
  ghost predicate Shifted(s0: seq<real>, s1: seq<real>, b: seq<real>, a: seq<real>, sample: real, out: real)
  {
    && |s1| == |s0| >= 1
    && s1[|s1| - 1] == s0[|s0| - 1]
    && forall j :: 0 <= j < |s1| - 1 ==> s1[j] == Coef(b, j + 1) * sample - Coef(a, j + 1) * out + s0[j + 1]
  }

  /** The pending sum in closed form. */
  lemma {:induction false} PendingIsConv(b: seq<real>, a: seq<real>, x: seq<real>, y: seq<real>, n: int, j: nat)
    requires j < Order(b, a)
    ensures Pending(b, a, x, y, n, j)
            == Conv(b, x, n + j, j + 1, Order(b, a)) - Conv(a, y, n + j, j + 1, Order(b, a))
    decreases Order(b, a) - j
  {
    if j + 1 < Order(b, a) {
      PendingIsConv(b, a, x, y, n - 1, j + 1);
    }
  }

  /** Before the first sample nothing is pending (the calloc'ed delay line). */
  lemma {:induction false} PendingAtStart(b: seq<real>, a: seq<real>, x: seq<real>, y: seq<real>, n: int, j: nat)
    requires n <= 0
    ensures Pending(b, a, x, y, n, j) == 0.0
    decreases Order(b, a) - j
  {
    if j + 1 < Order(b, a) {
      PendingAtStart(b, a, x, y, n - 1, j + 1);
    }
  }

  /** Appending a later output does not change what is pending at time n. */
  lemma {:induction false} PendingExtend(b: seq<real>, a: seq<real>, x: seq<real>, y: seq<real>, o: real, n: int, j: nat)
    requires n <= |y|
    ensures Pending(b, a, x, y + [o], n, j) == Pending(b, a, x, y, n, j)
    decreases Order(b, a) - j
  {
    if j + 1 < Order(b, a) {
      PendingExtend(b, a, x, y, o, n - 1, j + 1);
      assert At(y + [o], n - 1) == At(y, n - 1);
    }
  }

  /** The zero-filled delay line matches before the first sample. */
  lemma {:induction false} InitialState(b: seq<real>, a: seq<real>, x: seq<real>, s: seq<real>)
    requires |s| == Order(b, a) && forall j :: 0 <= j < |s| ==> s[j] == 0.0
    ensures StateMatches(s, b, a, x, [])
  {
    forall j | 0 <= j < |s|
      ensures s[j] == Pending(b, a, x, [], 0, j)
    {
      PendingAtStart(b, a, x, [], 0, j);
    }
  }

  /** One sample step: out = b[0]*x[n] + state[0] is the next output of the
      difference equation, and the shifted delay line matches again. */
  lemma {:induction false} StepAdvances(b: seq<real>, a: seq<real>, x: seq<real>, y: seq<real>, s0: seq<real>, s1: seq<real>, out: real)
    requires |b| >= 1 && |a| >= 1
    requires |y| < |x| && y == Response(b, a, x[..|y|])
    requires StateMatches(s0, b, a, x, y)
    requires out == b[0] * x[|y|] + s0[0]
    requires Shifted(s0, s1, b, a, x[|y|], out)
    ensures Response(b, a, x[..|y| + 1]) == y + [out]
    ensures StateMatches(s1, b, a, x, y + [out])
  {
    StepOutput(b, a, x, y, s0, out);
    StepState(b, a, x, y, s0, s1, out);
  }

  lemma {:induction false} StepOutput(b: seq<real>, a: seq<real>, x: seq<real>, y: seq<real>, s0: seq<real>, out: real)
    requires |b| >= 1 && |a| >= 1
    requires |y| < |x| && y == Response(b, a, x[..|y|])
    requires StateMatches(s0, b, a, x, y)
    requires out == b[0] * x[|y|] + s0[0]
    ensures Response(b, a, x[..|y| + 1]) == y + [out]
  {
    var n, L := |y|, Order(b, a);
    var p := x[..n + 1];
    assert p[..n] == x[..n];
    ConvAgree(b, p, x, n, 1, L);
    PendingIsConv(b, a, x, y, n, 0);
    assert out == Conv(b, p, n, 0, L) - Conv(a, y, n, 1, L);
  }

  lemma {:induction false} StepState(b: seq<real>, a: seq<real>, x: seq<real>, y: seq<real>, s0: seq<real>, s1: seq<real>, out: real)
    requires |y| < |x|
    requires StateMatches(s0, b, a, x, y)
    requires Shifted(s0, s1, b, a, x[|y|], out)
    ensures StateMatches(s1, b, a, x, y + [out])
  {
    var n, L := |y|, Order(b, a);
    forall j | 0 <= j < L
      ensures s1[j] == Pending(b, a, x, y + [out], n + 1, j)
    {
      if j + 1 < L {
        PendingExtend(b, a, x, y, out, n, j + 1);
        assert At(y + [out], n) == out;
      }
    }
  }
}
