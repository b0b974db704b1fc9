/** The streaming downsampler (sidecar/resample.js): an FIR filter with linear interpolation, over real
    numbers and for arbitrary taps. */
module Resampler {

  type Sample = s: int | -32768 <= s <= 32767

  // ---------- one output sample ----------

  /** The first `n` terms of the convolution at `x`. */
  function Terms(h: seq<real>, buf: seq<real>, x: int, n: nat): real
    requires n <= |h| <= x + 1 && x < |buf|
  {
    if n == 0 then 0.0 else Terms(h, buf, x, n - 1) + h[n - 1] * buf[x - (n - 1)]
  }

  function Convolve(h: seq<real>, buf: seq<real>, x: int): real
    requires |h| <= x + 1 && x < |buf|
  {
    Terms(h, buf, x, |h|)
  }

  /** Math.round, then saturation to 16 bits. */
  function Quantise(v: real): Sample {
    var rounded := (v + 0.5).Floor;
    if rounded < -32768 then -32768 else if rounded > 32767 then 32767 else rounded
  }

  function Interpolate(y0: real, y1: real, frac: real): real {
    y0 + (y1 - y0) * frac
  }

  /** The value at position `at` of the filtered signal; past the last sample it is held. */
  function ValueAt(h: seq<real>, buf: seq<real>, at: real): real
    requires h != [] && 0.0 <= at && at.Floor + |h| - 1 < |buf|
  {
    var x := at.Floor + |h| - 1;
    var frac := at - at.Floor as real;
    var y0 := Convolve(h, buf, x);
    var y1 := if x + 1 < |buf| then Convolve(h, buf, x + 1) else y0;
    Interpolate(y0, y1, frac)
  }

  function Reals(mono: seq<Sample>): seq<real> {
    seq(|mono|, i requires 0 <= i < |mono| => mono[i] as real)
  }

  /** How many outputs a frame of this length has. */
  function OutLen(len: nat, ratio: real): nat
    requires ratio > 1.0
  {
    FloorIsNatural(len, ratio);
    (len as real / ratio).Floor
  }

  lemma FloorIsNatural(len: nat, ratio: real)
    requires ratio > 1.0
    ensures len as real / ratio >= 0.0
  {
  }

  lemma PositionIsInside(len: nat, ratio: real, i: nat)
    requires ratio > 1.0 && i < OutLen(len, ratio)
    ensures 0.0 <= i as real * ratio <= len as real - ratio
    ensures (i as real * ratio).Floor + 1 < len
  {
    var q := len as real / ratio;
    assert q * ratio == len as real;
    assert (i + 1) as real <= q;
    Scale((i + 1) as real, q, ratio);
    assert (i + 1) as real * ratio == i as real * ratio + ratio;
    assert i as real * ratio >= 0.0;
  }

  lemma QuotientIs(x: real, factor: real, q: real)
    requires factor > 0.0 && x == q * factor
    ensures x / factor == q
  {
    var p := x / factor;
    assert p * factor == x;
    if p < q { ScaleStrictly(p, q, factor); } else if q < p { ScaleStrictly(q, p, factor); }
  }

  lemma Scale(a: real, b: real, factor: real)
    requires a <= b && factor > 0.0
    ensures a * factor <= b * factor
  {
  }

  /** `process`: all outputs of one frame, given the history of N - 1 samples before it. */
  function Process(h: seq<real>, ratio: real, hist: seq<real>, mono: seq<Sample>): (out: seq<Sample>)
    requires h != [] && |hist| == |h| - 1 && ratio > 1.0
    ensures |out| == OutLen(|mono|, ratio)
  {
    var buf := hist + Reals(mono);
    seq(OutLen(|mono|, ratio), i requires 0 <= i < OutLen(|mono|, ratio) => Output(h, ratio, buf, |mono|, i))
  }

  function Output(h: seq<real>, ratio: real, buf: seq<real>, len: nat, i: nat): Sample
    requires h != [] && ratio > 1.0 && |buf| == |h| - 1 + len && i < OutLen(len, ratio)
  {
    PositionIsInside(len, ratio, i);
    Quantise(ValueAt(h, buf, i as real * ratio))
  }

  /** The history `process` leaves behind: the last N - 1 samples seen. */
  function HistAfter(hist: seq<real>, mono: seq<Sample>): (after: seq<real>)
    ensures |after| == |hist|
  {
    (hist + Reals(mono))[|mono|..]
  }

  // ---------- frames and the whole signal ----------

  function ProcessAll(h: seq<real>, ratio: real, hist: seq<real>, frames: seq<seq<Sample>>): seq<Sample>
    requires h != [] && |hist| == |h| - 1 && ratio > 1.0
    decreases |frames|
  {
    if frames == [] then []
    else Process(h, ratio, hist, frames[0]) + ProcessAll(h, ratio, HistAfter(hist, frames[0]), frames[1..])
  }

  function Signal(frames: seq<seq<Sample>>): seq<Sample> {
    if frames == [] then [] else frames[0] + Signal(frames[1..])
  }

  /** The length is a whole number of output periods. */
  predicate Whole(len: nat, ratio: real)
    requires ratio > 1.0
  {
    OutLen(len, ratio) as real * ratio == len as real
  }

  lemma {:induction false} TermsAgree(h: seq<real>, b1: seq<real>, x1: int, b2: seq<real>, x2: int, n: nat)
    requires n <= |h| && |h| <= x1 + 1 && |h| <= x2 + 1 && x1 < |b1| && x2 < |b2|
    requires b1[x1 + 1 - |h|..x1 + 1] == b2[x2 + 1 - |h|..x2 + 1]
    ensures Terms(h, b1, x1, n) == Terms(h, b2, x2, n)
  {
    if n > 0 {
      TermsAgree(h, b1, x1, b2, x2, n - 1);
      assert b1[x1 - (n - 1)] == b1[x1 + 1 - |h|..x1 + 1][|h| - n];
      assert b2[x2 - (n - 1)] == b2[x2 + 1 - |h|..x2 + 1][|h| - n];
    }
  }

  /** Positions inside a buffer see the same values in any longer one. */
  lemma ValueInPrefix(h: seq<real>, b1: seq<real>, b2: seq<real>, at: real)
    requires h != [] && 0.0 <= at && at.Floor + |h| < |b1| && b1 <= b2
    ensures ValueAt(h, b1, at) == ValueAt(h, b2, at)
  {
    var x := at.Floor + |h| - 1;
    TermsAgree(h, b1, x, b2, x, |h|);
    TermsAgree(h, b1, x + 1, b2, x + 1, |h|);
  }

  /** Dropping `d` samples moves every position by `d`. */
  lemma ValueShifted(h: seq<real>, b: seq<real>, d: nat, at: real)
    requires h != [] && 0.0 <= at && d <= |b| && at.Floor + |h| - 1 < |b| - d
    ensures (at + d as real).Floor == at.Floor + d
    ensures ValueAt(h, b[d..], at) == ValueAt(h, b, at + d as real)
  {
    hide Interpolate, Terms;
    var x := at.Floor + |h| - 1;
    assert (at + d as real).Floor == at.Floor + d;
    TermsAgree(h, b[d..], x, b, x + d, |h|);
    if x + 1 < |b| - d {
      TermsAgree(h, b[d..], x + 1, b, x + 1 + d, |h|);
    }
  }

  lemma OutLenOfSum(a: nat, b: nat, ratio: real)
    requires ratio > 1.0 && Whole(a, ratio)
    ensures OutLen(a + b, ratio) == OutLen(a, ratio) + OutLen(b, ratio)
  {
    var m := OutLen(a, ratio);
    var q := b as real / ratio;
    assert (a + b) as real == (m as real + q) * ratio;
    QuotientIs((a + b) as real, ratio, m as real + q);
  }

  /** Outputs of the first frame are the first outputs of the whole signal: the interpolation never
      reaches past the frame. No condition on the length is needed for this half. */
  lemma FirstOutputsAgree(h: seq<real>, ratio: real, hist: seq<real>, a: seq<Sample>, b: seq<Sample>, i: nat)
    requires h != [] && |hist| == |h| - 1 && ratio > 1.0 && i < OutLen(|a|, ratio)
    ensures i < OutLen(|a| + |b|, ratio)
    ensures Process(h, ratio, hist, a)[i] == Process(h, ratio, hist, a + b)[i]
  {
    PositionIsInside(|a|, ratio, i);
    LongerHasMore(|a|, |b|, ratio);
    var b1, b2 := hist + Reals(a), hist + Reals(a + b);
    assert b1 <= b2 by {
      assert Reals(a + b) == Reals(a) + Reals(b);
      assert b2 == b1 + Reals(b);
    }
    ValueInPrefix(h, b1, b2, i as real * ratio);
  }

  lemma LongerHasMore(a: nat, b: nat, ratio: real)
    requires ratio > 1.0
    ensures OutLen(a, ratio) <= OutLen(a + b, ratio)
  {
    var p, q := a as real / ratio, (a + b) as real / ratio;
    if p > q {
      ScaleStrictly(q, p, ratio);
    }
  }

  lemma ScaleStrictly(a: real, b: real, factor: real)
    requires a < b && factor > 0.0
    ensures a * factor < b * factor
  {
  }

  /** Outputs of the second frame continue those of a whole first frame. */
  lemma NextOutputsAgree(h: seq<real>, ratio: real, hist: seq<real>, a: seq<Sample>, b: seq<Sample>, i: nat)
    requires h != [] && |hist| == |h| - 1 && ratio > 1.0 && Whole(|a|, ratio) && i < OutLen(|b|, ratio)
    ensures OutLen(|a|, ratio) + i < OutLen(|a| + |b|, ratio)
    ensures Process(h, ratio, HistAfter(hist, a), b)[i] == Process(h, ratio, hist, a + b)[OutLen(|a|, ratio) + i]
  {
    var m := OutLen(|a|, ratio);
    OutLenOfSum(|a|, |b|, ratio);
    PositionIsInside(|b|, ratio, i);
    SecondBuffer(hist, a, b);
    Distribute(m, i, ratio);
    OutputShifted(h, ratio, hist + Reals(a + b), |a|, |b|, m, i);
  }

  lemma Distribute(m: nat, i: nat, ratio: real)
    ensures (m + i) as real * ratio == m as real * ratio + i as real * ratio
  {
  }

  lemma OutputShifted(h: seq<real>, ratio: real, whole: seq<real>, la: nat, lb: nat, m: nat, i: nat)
    requires h != [] && ratio > 1.0 && |whole| == |h| - 1 + la + lb
    requires i < OutLen(lb, ratio) && m + i < OutLen(la + lb, ratio)
    requires (m + i) as real * ratio == la as real + i as real * ratio
    ensures Output(h, ratio, whole[la..], lb, i) == Output(h, ratio, whole, la + lb, m + i)
  {
    PositionIsInside(lb, ratio, i);
    ValueShifted(h, whole, la, i as real * ratio);
  }

  lemma SecondBuffer(hist: seq<real>, a: seq<Sample>, b: seq<Sample>)
    ensures HistAfter(hist, a) + Reals(b) == (hist + Reals(a + b))[|a|..]
  {
    assert Reals(a + b) == Reals(a) + Reals(b);
    assert hist + Reals(a + b) == (hist + Reals(a)) + Reals(b);
  }

  lemma SplitAfterWhole(h: seq<real>, ratio: real, hist: seq<real>, a: seq<Sample>, b: seq<Sample>)
    requires h != [] && |hist| == |h| - 1 && ratio > 1.0 && Whole(|a|, ratio)
    ensures Process(h, ratio, hist, a) + Process(h, ratio, HistAfter(hist, a), b) == Process(h, ratio, hist, a + b)
  {
    var m := OutLen(|a|, ratio);
    OutLenOfSum(|a|, |b|, ratio);
    var streamed := Process(h, ratio, hist, a) + Process(h, ratio, HistAfter(hist, a), b);
    var batch := Process(h, ratio, hist, a + b);
    forall i | 0 <= i < |batch| ensures streamed[i] == batch[i] {
      if i < m { FirstOutputsAgree(h, ratio, hist, a, b, i); } else { NextOutputsAgree(h, ratio, hist, a, b, i - m); }
    }
  }

  lemma HistoryOfSplit(hist: seq<real>, a: seq<Sample>, b: seq<Sample>)
    ensures HistAfter(HistAfter(hist, a), b) == HistAfter(hist, a + b)
  {
    SecondBuffer(hist, a, b);
    assert (hist + Reals(a + b))[|a|..][|b|..] == (hist + Reals(a + b))[|a| + |b|..];
  }

  /** Streaming equals batch. If every frame but the last holds a whole number of output periods, the
      concatenated outputs are those of the whole signal, however short the frames are. */
  lemma {:induction false} StreamingEqualsBatch(h: seq<real>, ratio: real, hist: seq<real>, frames: seq<seq<Sample>>)
    requires h != [] && |hist| == |h| - 1 && ratio > 1.0
    requires forall i :: 0 <= i < |frames| - 1 ==> Whole(|frames[i]|, ratio)
    ensures ProcessAll(h, ratio, hist, frames) == Process(h, ratio, hist, Signal(frames))
    decreases |frames|
  {
    if frames == [] {
      assert OutLen(0, ratio) == 0;
    } else if |frames| == 1 {
      assert frames[0] + [] == frames[0];
      assert ProcessAll(h, ratio, HistAfter(hist, frames[0]), frames[1..]) == [];
      assert Signal(frames[1..]) == [];
    } else {
      StreamingEqualsBatch(h, ratio, HistAfter(hist, frames[0]), frames[1..]);
      SplitAfterWhole(h, ratio, hist, frames[0], Signal(frames[1..]));
    }
  }

  /** The history invariant: after any frames it is the end of (initial history, all samples). */
  lemma {:induction false} HistoryIsTheLastSamples(hist: seq<real>, frames: seq<seq<Sample>>, k: nat)
    requires k <= |frames|
    ensures HistAfter(hist, Signal(frames[..k])) == HistFold(hist, frames[..k])
    decreases k
  {
    if k == 0 {
      assert frames[..0] == [] && hist + Reals([]) == hist;
    } else {
      var first, rest := frames[0], frames[1..];
      HistoryIsTheLastSamples(HistAfter(hist, first), rest, k - 1);
      assert frames[..k][1..] == rest[..k - 1];
      HistoryOfSplit(hist, first, Signal(rest[..k - 1]));
    }
  }

  function HistFold(hist: seq<real>, frames: seq<seq<Sample>>): seq<real>
    decreases |frames|
  {
    if frames == [] then hist else HistFold(HistAfter(hist, frames[0]), frames[1..])
  }
}
