/** The downsampler object (sidecar/resample.js): its history is shifted in place, frame by frame. */
module Downsampler {
  import opened Outcomes
  import opened Resampler

  class Downsampler {
    const inputRate: real
    const targetRate: real
    /** The taps, or none when the input rate is not above the target rate. */
    const h: Option<seq<real>>
    const hist: array<real>

    ghost predicate Valid()
      reads this
    {
      && targetRate > 0.0
      && (h.Some? ==> h.value != [] && hist.Length == |h.value| - 1 && inputRate / targetRate > 1.0)
    }

    constructor (inputRate: real, targetRate: real, taps: seq<real>)
      requires inputRate > 0.0 && targetRate > 0.0 && taps != []
      ensures Valid() && fresh(hist) && this.inputRate == inputRate && this.targetRate == targetRate
      ensures h == if inputRate > targetRate then Some(taps) else None
      ensures hist[..] == seq(|taps| - 1, _ => 0.0)
    {
      this.inputRate, this.targetRate := inputRate, targetRate;
      h := if inputRate > targetRate then Some(taps) else None;
      hist := new real[|taps| - 1](_ => 0.0);
      if inputRate > targetRate { RatioAboveOne(inputRate, targetRate); }
    }

    method Reset()
      modifies hist
      ensures hist[..] == seq(hist.Length, _ => 0.0)
    {
      for k := 0 to hist.Length
        invariant forall j :: 0 <= j < k ==> hist[j] == 0.0
      {
        hist[k] := 0.0;
      }
    }

    method Convolve(taps: seq<real>, buf: seq<real>, x: int) returns (acc: real)
      requires |taps| <= x + 1 && x < |buf|
      ensures acc == Resampler.Convolve(taps, buf, x)
    {
      acc := 0.0;
      for j := 0 to |taps|
        invariant acc == Terms(taps, buf, x, j)
      {
        acc := acc + taps[j] * buf[x - j];
      }
    }

    method OutputAt(taps: seq<real>, ratio: real, buf: seq<real>, len: nat, i: nat) returns (v: Sample)
      requires taps != [] && ratio > 1.0 && |buf| == |taps| - 1 + len && i < OutLen(len, ratio)
      ensures v == Output(taps, ratio, buf, len, i)
    {
      hide Interpolate, Quantise, Terms;
      PositionIsInside(len, ratio, i);
      var idx := i as real * ratio;
      var x := idx.Floor + |taps| - 1;
      var frac := idx - idx.Floor as real;
      var y0 := Convolve(taps, buf, x);
      var y1 := y0;
      if x + 1 < |buf| { y1 := Convolve(taps, buf, x + 1); }
      v := Quantise(Interpolate(y0, y1, frac));
    }

    method Process(mono: seq<Sample>) returns (out: seq<Sample>)
      requires Valid()
      modifies hist
      ensures Valid()
      ensures h == None ==> out == mono && hist[..] == old(hist[..])
      ensures h.Some? ==>
                && out == Resampler.Process(h.value, inputRate / targetRate, old(hist[..]), mono)
                && hist[..] == HistAfter(old(hist[..]), mono)
    {
      if h == None { return mono; }
      var taps, ratio := h.value, inputRate / targetRate;
      var buf := hist[..] + Reals(mono);
      FloorIsNatural(|mono|, ratio);
      var outLen := (|mono| as real / ratio).Floor;
      out := [];
      for i := 0 to outLen
        invariant |out| == i && hist[..] == old(hist[..])
        invariant forall j :: 0 <= j < i ==> out[j] == Output(taps, ratio, buf, |mono|, j)
      {
        var v := OutputAt(taps, ratio, buf, |mono|, i);
        out := out + [v];
      }
      UpdateHistory(mono);
    }

    /** Keep the last samples: copied from a long frame, or shifted left to make room for a short one. */
    method UpdateHistory(mono: seq<Sample>)
      modifies hist
      ensures hist[..] == HistAfter(old(hist[..]), mono)
    {
      if |mono| >= hist.Length { CopyTail(mono); } else { ShiftIn(mono); }
    }

    method CopyTail(mono: seq<Sample>)
      requires |mono| >= hist.Length
      modifies hist
      ensures hist[..] == HistAfter(old(hist[..]), mono)
    {
      var pad := hist.Length;
      for k := 0 to pad
        invariant forall j :: 0 <= j < k ==> hist[j] == mono[|mono| - pad + j] as real
      {
        hist[k] := mono[|mono| - pad + k] as real;
      }
    }

    method ShiftIn(mono: seq<Sample>)
      requires |mono| < hist.Length
      modifies hist
      ensures hist[..] == HistAfter(old(hist[..]), mono)
    {
      var pad := hist.Length;
      var keep := pad - |mono|;
      for k := 0 to keep
        invariant forall j :: 0 <= j < k ==> hist[j] == old(hist[j + |mono|])
        invariant forall j :: k <= j < pad ==> hist[j] == old(hist[j])
      {
        hist[k] := hist[k + |mono|];
      }
      for k := 0 to |mono|
        invariant forall j :: 0 <= j < keep ==> hist[j] == old(hist[j + |mono|])
        invariant forall j :: 0 <= j < k ==> hist[keep + j] == mono[j] as real
      {
        hist[keep + k] := mono[k] as real;
      }
    }
  }

  lemma RatioAboveOne(a: real, b: real)
    requires a > b > 0.0
    ensures a / b > 1.0
  {
  }
}
