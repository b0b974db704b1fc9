/** Exactly which frame lengths keep streaming equal to the whole-signal filter, and what the filter
    does to a constant signal. */
module ResamplerLimits {
  import opened Resampler

  /** Splitting a signal after `la` samples is invisible, whatever the taps, history and samples. */
  ghost predicate SplitIsInvisible(taps: nat, ratio: real, la: nat, lb: nat)
    requires taps > 0 && ratio > 1.0
  {
    forall h, hist, a: seq<Sample>, b: seq<Sample> | Shapes(taps, la, lb, h, hist, a, b) ::
      SplitAgrees(taps, ratio, la, lb, h, hist, a, b)
  }

  predicate Shapes(taps: nat, la: nat, lb: nat, h: seq<real>, hist: seq<real>, a: seq<Sample>, b: seq<Sample>) {
    |h| == taps && |hist| == taps - 1 && |a| == la && |b| == lb
  }

  ghost predicate SplitAgrees(taps: nat, ratio: real, la: nat, lb: nat, h: seq<real>, hist: seq<real>,
        a: seq<Sample>, b: seq<Sample>)
    requires taps > 0 && ratio > 1.0 && Shapes(taps, la, lb, h, hist, a, b)
  {
    Process(h, ratio, hist, a) + Process(h, ratio, HistAfter(hist, a), b) == Process(h, ratio, hist, a + b)
  }

  lemma NothingLeft(la: nat, lb: nat, ratio: real)
    requires ratio > 1.0 && OutLen(la + lb, ratio) == OutLen(la, ratio)
    ensures OutLen(lb, ratio) == 0
  {
    var p, q := la as real / ratio, lb as real / ratio;
    assert p * ratio == la as real && q * ratio == lb as real;
    assert (la + lb) as real == (p + q) * ratio;
    QuotientIs((la + lb) as real, ratio, p + q);
  }

  lemma SplitWithoutTail(h: seq<real>, ratio: real, hist: seq<real>, a: seq<Sample>, b: seq<Sample>)
    requires h != [] && |hist| == |h| - 1 && ratio > 1.0 && OutLen(|a| + |b|, ratio) == OutLen(|a|, ratio)
    ensures Process(h, ratio, hist, a) + Process(h, ratio, HistAfter(hist, a), b) == Process(h, ratio, hist, a + b)
  {
    NothingLeft(|a|, |b|, ratio);
    var first := Process(h, ratio, hist, a);
    forall i | 0 <= i < |first| ensures first[i] == Process(h, ratio, hist, a + b)[i] {
      FirstOutputsAgree(h, ratio, hist, a, b, i);
    }
  }

  // ---------- the witness: one tap, ones then zeros ----------

  function OneTap(gain: real, taps: nat): seq<real>
    requires taps > 0
  {
    [gain] + seq(taps - 1, _ => 0.0)
  }

  lemma {:induction false} OneTapTerms(gain: real, taps: nat, buf: seq<real>, x: int, n: nat)
    requires 1 <= n <= taps <= x + 1 && x < |buf|
    ensures Terms(OneTap(gain, taps), buf, x, n) == gain * buf[x]
  {
    if n > 1 { OneTapTerms(gain, taps, buf, x, n - 1); }
  }

  function Ones(n: nat): seq<Sample> { seq(n, _ => 1) }

  function Zeros(n: nat): seq<Sample> { seq(n, _ => 0) }

  function Silence(n: nat): seq<real> { seq(n, _ => 0.0) }

  /** The second frame starts with silence and so does its output. */
  lemma SecondIsSilent(gain: real, taps: nat, ratio: real, la: nat, lb: nat)
    requires taps > 0 && ratio > 1.0 && OutLen(lb, ratio) > 0
    ensures Process(OneTap(gain, taps), ratio, HistAfter(Silence(taps - 1), Ones(la)), Zeros(lb))[0] == 0
  {
    var h, hist := OneTap(gain, taps), HistAfter(Silence(taps - 1), Ones(la));
    var buf := hist + Reals(Zeros(lb));
    PositionIsInside(lb, ratio, 0);
    OneTapTerms(gain, taps, buf, taps - 1, taps);
    assert ValueAt(h, buf, 0.0) == 0.0;
  }

  /** The whole signal still has a sample of ones at that output. */
  lemma WholeIsLoud(gain: real, taps: nat, ratio: real, la: nat, lb: nat, at: real)
    requires taps > 0 && ratio > 1.0 && OutLen(la + lb, ratio) > OutLen(la, ratio)
    requires at == OutLen(la, ratio) as real * ratio && at < la as real
    requires gain >= 1.0 && gain * (la as real - at) >= 1.0
    ensures Process(OneTap(gain, taps), ratio, Silence(taps - 1), Ones(la) + Zeros(lb))[OutLen(la, ratio)] >= 1
  {
    var m := OutLen(la, ratio);
    var h, buf := OneTap(gain, taps), Silence(taps - 1) + Reals(Ones(la) + Zeros(lb));
    PositionIsInside(la + lb, ratio, m);
    ValueIsLoud(gain, taps, la, lb, at);
    OutputIs(h, ratio, buf, la + lb, m, at);
  }

  lemma OutputIs(h: seq<real>, ratio: real, buf: seq<real>, len: nat, i: nat, at: real)
    requires h != [] && ratio > 1.0 && |buf| == |h| - 1 + len && i < OutLen(len, ratio) && at == i as real * ratio
    ensures 0.0 <= at && at.Floor + |h| - 1 < |buf| && Output(h, ratio, buf, len, i) == Quantise(ValueAt(h, buf, at))
  {
    PositionIsInside(len, ratio, i);
  }

  lemma ValueIsLoud(gain: real, taps: nat, la: nat, lb: nat, at: real)
    requires taps > 0 && 0.0 <= at < la as real && at.Floor + 1 < la + lb
    requires gain >= 1.0 && gain * (la as real - at) >= 1.0
    ensures at.Floor + taps - 1 < taps - 1 + la + lb
    ensures ValueAt(OneTap(gain, taps), Silence(taps - 1) + Reals(Ones(la) + Zeros(lb)), at) >= 1.0
  {
    var h, buf := OneTap(gain, taps), Silence(taps - 1) + Reals(Ones(la) + Zeros(lb));
    var k := at.Floor;
    var x := k + taps - 1;
    OneTapTerms(gain, taps, buf, x, taps);
    OneTapTerms(gain, taps, buf, x + 1, taps);
    assert buf[x] == 1.0;
    assert Convolve(h, buf, x) == gain;
    assert buf[x + 1] == if k + 1 < la then 1.0 else 0.0;
    Interpolation(gain, at, la);
  }

  lemma Interpolation(gain: real, at: real, la: nat)
    requires 0.0 <= at < la as real && gain >= 1.0 && gain * (la as real - at) >= 1.0
    ensures var y1 := gain * (if at.Floor + 1 < la then 1.0 else 0.0);
            gain + (y1 - gain) * (at - at.Floor as real) >= 1.0
  {
    var frac := at - at.Floor as real;
    if at.Floor + 1 < la {
      assert (gain * 1.0 - gain) * frac == 0.0;
    } else {
      assert at.Floor + 1 == la;
      assert 1.0 - frac == la as real - at;
      assert gain + (gain * 0.0 - gain) * frac == gain * (1.0 - frac);
    }
  }

  lemma RemainderIsPositive(la: nat, ratio: real)
    requires ratio > 1.0 && !Whole(la, ratio)
    ensures la as real - OutLen(la, ratio) as real * ratio > 0.0
  {
    var q := la as real / ratio;
    assert q * ratio == la as real;
    Scale(OutLen(la, ratio) as real, q, ratio);
  }

  lemma GainFor(delta: real) returns (gain: real)
    requires delta > 0.0
    ensures gain >= 1.0 && gain * delta >= 1.0
  {
    gain := 1.0 / delta + 1.0;
    assert 1.0 / delta * delta == 1.0;
  }

  lemma VisibleSplit(taps: nat, ratio: real, la: nat, lb: nat)
    requires taps > 0 && ratio > 1.0 && !Whole(la, ratio) && OutLen(la + lb, ratio) != OutLen(la, ratio)
    ensures !SplitIsInvisible(taps, ratio, la, lb)
  {
    var at := OutLen(la, ratio) as real * ratio;
    RemainderIsPositive(la, ratio);
    LongerHasMore(la, lb, ratio);
    var gain := GainFor(la as real - at);
    OutputsDiffer(gain, taps, ratio, la, lb, at);
    assert Shapes(taps, la, lb, OneTap(gain, taps), Silence(taps - 1), Ones(la), Zeros(lb));
  }

  lemma OutputsDiffer(gain: real, taps: nat, ratio: real, la: nat, lb: nat, at: real)
    requires taps > 0 && ratio > 1.0 && OutLen(la + lb, ratio) > OutLen(la, ratio)
    requires at == OutLen(la, ratio) as real * ratio && at < la as real
    requires gain >= 1.0 && gain * (la as real - at) >= 1.0
    ensures !SplitAgrees(taps, ratio, la, lb, OneTap(gain, taps), Silence(taps - 1), Ones(la), Zeros(lb))
  {
    var m := OutLen(la, ratio);
    var h, hist := OneTap(gain, taps), Silence(taps - 1);
    WholeIsLoud(gain, taps, ratio, la, lb, at);
    var first, second := Process(h, ratio, hist, Ones(la)), Process(h, ratio, HistAfter(hist, Ones(la)), Zeros(lb));
    if OutLen(lb, ratio) > 0 {
      SecondIsSilent(gain, taps, ratio, la, lb);
      assert (first + second)[m] == second[0] == 0;
    } else {
      assert |first + second| == m;
    }
  }

  /** The exact condition for a continuation of one length: the first frame is a whole number of output
      periods, or what follows adds no output at all. */
  lemma SplitIsInvisibleIff(taps: nat, ratio: real, la: nat, lb: nat)
    requires taps > 0 && ratio > 1.0
    ensures SplitIsInvisible(taps, ratio, la, lb) <==> Whole(la, ratio) || OutLen(la + lb, ratio) == OutLen(la, ratio)
  {
    if Whole(la, ratio) || OutLen(la + lb, ratio) == OutLen(la, ratio) {
      forall h, hist, a: seq<Sample>, b: seq<Sample> | Shapes(taps, la, lb, h, hist, a, b)
        ensures SplitAgrees(taps, ratio, la, lb, h, hist, a, b)
      {
        if Whole(la, ratio) { SplitAfterWhole(h, ratio, hist, a, b); } else { SplitWithoutTail(h, ratio, hist, a, b); }
      }
    } else {
      VisibleSplit(taps, ratio, la, lb);
    }
  }

  lemma LongEnoughAddsOutput(la: nat, lb: nat, ratio: real)
    requires ratio > 1.0 && lb as real >= ratio
    ensures OutLen(la + lb, ratio) > OutLen(la, ratio)
  {
    var p, q := la as real / ratio, lb as real / ratio;
    assert p * ratio == la as real && q * ratio == lb as real;
    assert (la + lb) as real == (p + q) * ratio;
    QuotientIs((la + lb) as real, ratio, p + q);
    AtLeastOne(lb as real, ratio);
  }

  lemma AtLeastOne(a: real, ratio: real)
    requires ratio > 1.0 && a >= ratio
    ensures a / ratio >= 1.0
  {
  }

  /** The exact condition: a split after `la` samples is invisible for all taps, histories, samples and
      continuations if and only if `la` is a whole number of output periods. */
  lemma SplitIsInvisibleIffWhole(taps: nat, ratio: real, la: nat)
    requires taps > 0 && ratio > 1.0
    ensures (forall lb: nat :: SplitIsInvisible(taps, ratio, la, lb)) <==> Whole(la, ratio)
  {
    hide SplitIsInvisible;
    forall lb: nat ensures SplitIsInvisible(taps, ratio, la, lb)
        <==> Whole(la, ratio) || OutLen(la + lb, ratio) == OutLen(la, ratio) {
      SplitIsInvisibleIff(taps, ratio, la, lb);
    }
    var lb := ratio.Floor + 1;
    LongEnoughAddsOutput(la, lb, ratio);
    assert SplitIsInvisible(taps, ratio, la, lb) <==> Whole(la, ratio);
  }

  // ---------- unit gain ----------

  function Sum(h: seq<real>): real {
    if h == [] then 0.0 else Sum(h[..|h| - 1]) + h[|h| - 1]
  }

  /** The last loop of designLowpass. */
  function Normalised(h: seq<real>): (taps: seq<real>)
    requires Sum(h) != 0.0
    ensures |taps| == |h|
  {
    Scaled(h, Sum(h))
  }

  function Scaled(h: seq<real>, total: real): (taps: seq<real>)
    requires total != 0.0
    ensures |taps| == |h|
  {
    seq(|h|, i requires 0 <= i < |h| => h[i] / total)
  }

  lemma {:induction false} ScaledSum(h: seq<real>, total: real)
    requires total != 0.0
    ensures Sum(Scaled(h, total)) == Sum(h) / total
  {
    if h != [] {
      ScaledSum(h[..|h| - 1], total);
      assert Scaled(h, total)[..|h| - 1] == Scaled(h[..|h| - 1], total);
    }
  }

  lemma NormalisedHasUnitGain(h: seq<real>)
    requires Sum(h) != 0.0
    ensures Sum(Normalised(h)) == 1.0
  {
    ScaledSum(h, Sum(h));
    SelfQuotient(Sum(h));
  }

  lemma SelfQuotient(x: real)
    requires x != 0.0
    ensures x / x == 1.0
  {
  }

  lemma {:induction false} ConstantTerms(h: seq<real>, buf: seq<real>, x: int, c: real, n: nat)
    requires n <= |h| <= x + 1 && x < |buf| && forall i :: 0 <= i < |buf| ==> buf[i] == c
    ensures Terms(h, buf, x, n) == Sum(h[..n]) * c
  {
    if n > 0 {
      ConstantTerms(h, buf, x, c, n - 1);
      assert h[..n][..n - 1] == h[..n - 1];
      assert Sum(h[..n]) == Sum(h[..n - 1]) + h[n - 1];
      assert (Sum(h[..n - 1]) + h[n - 1]) * c == Sum(h[..n - 1]) * c + h[n - 1] * c;
    } else {
      assert h[..0] == [];
    }
  }

  /** Normalised taps do not change the volume: a constant signal comes out as it went in. */
  lemma ConstantIsPreserved(h: seq<real>, ratio: real, hist: seq<real>, mono: seq<Sample>, c: Sample, i: nat)
    requires h != [] && |hist| == |h| - 1 && ratio > 1.0 && Sum(h) == 1.0 && i < OutLen(|mono|, ratio)
    requires (forall k :: 0 <= k < |hist| ==> hist[k] == c as real) && (forall k :: 0 <= k < |mono| ==> mono[k] == c)
    ensures Process(h, ratio, hist, mono)[i] == c
  {
    var buf := hist + Reals(mono);
    PositionIsInside(|mono|, ratio, i);
    var at := i as real * ratio;
    var x := at.Floor + |h| - 1;
    assert h[..|h|] == h;
    assert forall k :: 0 <= k < |buf| ==> buf[k] == c as real;
    ConstantTerms(h, buf, x, c as real, |h|);
    ConstantTerms(h, buf, x + 1, c as real, |h|);
    hide Convolve, Sum;
    Between(c as real, c as real, at - at.Floor as real);
    assert ValueAt(h, buf, at) == c as real;
  }

  /** Interpolating between equal values. */
  lemma Between(y0: real, y1: real, part: real)
    requires y0 == y1
    ensures y0 + (y1 - y0) * part == y0
  {
  }
}
