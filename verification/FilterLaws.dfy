/** What the downsampling filter computes (sidecar/resample.js:70-111): tap j meets the sample j steps back, the
    outputs are the nearest integers to the filtered signal at multiples of the ratio. */
module FilterLaws {
  import opened Resampler

  // ---------- an independent convolution ----------

  function Dot(a: seq<real>, b: seq<real>): real
    requires |a| == |b|
  {
    if a == [] then 0.0 else a[0] * b[0] + Dot(a[1..], b[1..])
  }

  /** The samples up to `x`, latest first: the one j steps back is number j. */
  function Backwards(buf: seq<real>, x: nat, n: nat): seq<real>
    requires n <= x + 1 && x < |buf|
  {
    seq(n, j requires 0 <= j < n => buf[x - j])
  }

  lemma {:induction false} DotAppend(a: seq<real>, b: seq<real>, u: real, v: real)
    requires |a| == |b|
    ensures Dot(a + [u], b + [v]) == Dot(a, b) + u * v
  {
    if a == [] {
      assert [] + [u] == [u] && [] + [v] == [v] && [u][1..] == [] && [v][1..] == [];
      assert Dot([u], [v]) == u * v + Dot([], []);
    } else {
      DotAppend(a[1..], b[1..], u, v);
      assert (a + [u])[1..] == a[1..] + [u] && (b + [v])[1..] == b[1..] + [v];
    }
  }

  lemma {:induction false} TermsAreDot(h: seq<real>, buf: seq<real>, x: nat, n: nat)
    requires n <= |h| <= x + 1 && x < |buf|
    ensures Terms(h, buf, x, n) == Dot(h[..n], Backwards(buf, x, n))
  {
    if n > 0 {
      TermsAreDot(h, buf, x, n - 1);
      DotAppend(h[..n - 1], Backwards(buf, x, n - 1), h[n - 1], buf[x - (n - 1)]);
      assert h[..n] == h[..n - 1] + [h[n - 1]];
      assert Backwards(buf, x, n) == Backwards(buf, x, n - 1) + [buf[x - (n - 1)]];
    } else {
      assert h[..0] == [] && Backwards(buf, x, 0) == [];
    }
  }

  /** The convolution is the dot product of the taps with the samples latest first. */
  lemma ConvolutionIsDot(h: seq<real>, buf: seq<real>, x: nat)
    requires |h| <= x + 1 && x < |buf|
    ensures Convolve(h, buf, x) == Dot(h, Backwards(buf, x, |h|))
  {
    TermsAreDot(h, buf, x, |h|);
    assert h[..|h|] == h;
  }

  // ---------- impulse response and linearity ----------

  function Impulse(len: nat, at: nat): seq<real> {
    seq(len, i => if i == at then 1.0 else 0.0)
  }

  lemma {:induction false} ImpulseTerms(h: seq<real>, len: nat, x: nat, k: nat, n: nat)
    requires n <= |h| <= x + 1 && x < len && k < |h|
    ensures Terms(h, Impulse(len, x - k), x, n) == if k < n then h[k] else 0.0
  {
    if n > 0 { ImpulseTerms(h, len, x, k, n - 1); }
  }

  /** The impulse response is the taps, in order: one sample of 1 that lies k steps back gives tap k. */
  lemma ImpulseResponseIsTheTaps(h: seq<real>, len: nat, x: nat, k: nat)
    requires |h| <= x + 1 && x < len && k < |h|
    ensures Convolve(h, Impulse(len, x - k), x) == h[k]
  {
    ImpulseTerms(h, len, x, k, |h|);
  }

  function Combine(a: real, u: seq<real>, b: real, v: seq<real>): seq<real>
    requires |u| == |v|
  {
    seq(|u|, i requires 0 <= i < |u| => a * u[i] + b * v[i])
  }

  lemma Distributes(h: real, a: real, u: real, b: real, v: real)
    ensures h * (a * u + b * v) == a * (h * u) + b * (h * v)
  {
  }

  lemma Gather(a: real, s: real, p: real, b: real, t: real, q: real)
    ensures a * s + b * t + (a * p + b * q) == a * (s + p) + b * (t + q)
  {
  }

  lemma {:induction false} TermsAreLinear(h: seq<real>, a: real, u: seq<real>, b: real, v: seq<real>, x: nat, n: nat)
    requires n <= |h| <= x + 1 && x < |u| == |v|
    ensures Terms(h, Combine(a, u, b, v), x, n) == a * Terms(h, u, x, n) + b * Terms(h, v, x, n)
  {
    if n > 0 {
      TermsAreLinear(h, a, u, b, v, x, n - 1);
      var j := x - (n - 1);
      Distributes(h[n - 1], a, u[j], b, v[j]);
      Gather(a, Terms(h, u, x, n - 1), h[n - 1] * u[j], b, Terms(h, v, x, n - 1), h[n - 1] * v[j]);
    }
  }

  /** The filter is linear in the signal. */
  lemma ConvolutionIsLinear(h: seq<real>, a: real, u: seq<real>, b: real, v: seq<real>, x: nat)
    requires |h| <= x + 1 && x < |u| == |v|
    ensures Convolve(h, Combine(a, u, b, v), x) == a * Convolve(h, u, x) + b * Convolve(h, v, x)
  {
    TermsAreLinear(h, a, u, b, v, x, |h|);
  }

  // ---------- rounding ----------

  /** A sample is the nearest one: halves are rounded up, and what lies outside 16 bits is clamped. */
  lemma QuantiseIsNearest(v: real)
    ensures -32768.0 <= v <= 32767.0 ==> v - 0.5 < Quantise(v) as real <= v + 0.5
    ensures v > 32767.0 ==> Quantise(v) == 32767
    ensures v < -32768.0 ==> Quantise(v) == -32768
  {
  }

  // ---------- the outputs of a frame ----------

  /** The sample j steps back from sample k of the frame; before its first lie those of the history. */
  function SampleBack(hist: seq<real>, mono: seq<Sample>, k: nat, j: nat): real
    requires k < |mono| && j <= k + |hist|
  {
    if j <= k then mono[k - j] as real else hist[|hist| - (j - k)]
  }

  /** The filtered signal at sample k of the frame. */
  function Filtered(h: seq<real>, hist: seq<real>, mono: seq<Sample>, k: nat): real
    requires |hist| + 1 == |h| && k < |mono|
  {
    Dot(h, seq(|h|, j requires 0 <= j < |h| => SampleBack(hist, mono, k, j)))
  }

  lemma FilteredIsConvolution(h: seq<real>, hist: seq<real>, mono: seq<Sample>, k: nat)
    requires |hist| + 1 == |h| && k < |mono|
    ensures Convolve(h, hist + Reals(mono), k + |h| - 1) == Filtered(h, hist, mono, k)
  {
    var buf, x := hist + Reals(mono), k + |h| - 1;
    ConvolutionIsDot(h, buf, x);
    var back := seq(|h|, j requires 0 <= j < |h| => SampleBack(hist, mono, k, j));
    forall j | 0 <= j < |h| ensures Backwards(buf, x, |h|)[j] == back[j] {}
    assert Backwards(buf, x, |h|) == back;
  }

  lemma Blend(y0: real, y1: real, frac: real)
    ensures Interpolate(y0, y1, frac) == (1.0 - frac) * y0 + frac * y1
  {
  }

  /** Output i is the nearest sample to the filtered signal at i * ratio: between two input samples, their
      filtered values in proportion, and at a whole position just the filtered value there. */
  lemma OutputIsTheFilteredSignal(h: seq<real>, ratio: real, hist: seq<real>, mono: seq<Sample>, i: nat)
    requires h != [] && |hist| == |h| - 1 && ratio > 1.0 && i < OutLen(|mono|, ratio)
    ensures var at := i as real * ratio;
      var k, frac := at.Floor, at - at.Floor as real;
      && 0 <= k && k + 1 < |mono|
      && Process(h, ratio, hist, mono)[i]
         == Quantise((1.0 - frac) * Filtered(h, hist, mono, k) + frac * Filtered(h, hist, mono, k + 1))
      && (frac == 0.0 ==> Process(h, ratio, hist, mono)[i] == Quantise(Filtered(h, hist, mono, k)))
  {
    PositionIsInside(|mono|, ratio, i);
    var at := i as real * ratio;
    var k, frac := at.Floor, at - at.Floor as real;
    FilteredIsConvolution(h, hist, mono, k);
    FilteredIsConvolution(h, hist, mono, k + 1);
    Blend(Filtered(h, hist, mono, k), Filtered(h, hist, mono, k + 1), frac);
    hide Filtered, Quantise, Interpolate, Convolve;
  }

  /** A frame has as many outputs as whole multiples of the ratio, after the first, lie inside it. */
  lemma OutputsFillTheFrame(len: nat, ratio: real)
    requires ratio > 1.0
    ensures OutLen(len, ratio) as real * ratio <= len as real < (OutLen(len, ratio) + 1) as real * ratio
  {
    FloorIsNatural(len, ratio);
    var q, m := len as real / ratio, OutLen(len, ratio);
    assert q * ratio == len as real;
    assert q < (m + 1) as real;
    Scale(m as real, q, ratio);
    ScaleStrictly(q, (m + 1) as real, ratio);
    assert len as real < (m + 1) as real * ratio;
  }

  /** An impulse in the frame comes out as the taps: at a whole position k, an isolated full sample j steps back
      shows as tap j times its value. */
  lemma ImpulseComesOutAsTaps(h: seq<real>, hist: seq<real>, mono: seq<Sample>, k: nat, j: nat)
    requires |hist| + 1 == |h| && k < |mono| && j < |h|
    requires forall i :: 0 <= i < |h| && i != j ==> SampleBack(hist, mono, k, i) == 0.0
    ensures Filtered(h, hist, mono, k) == h[j] * SampleBack(hist, mono, k, j)
  {
    OnlyOneTerm(h, seq(|h|, i requires 0 <= i < |h| => SampleBack(hist, mono, k, i)), j);
  }

  lemma {:induction false} OnlyOneTerm(a: seq<real>, b: seq<real>, j: nat)
    requires |a| == |b| && j < |a| && forall i :: 0 <= i < |a| && i != j ==> b[i] == 0.0
    ensures Dot(a, b) == a[j] * b[j]
  {
    if j == 0 {
      AllZero(a[1..], b[1..]);
    } else {
      OnlyOneTerm(a[1..], b[1..], j - 1);
    }
  }

  lemma {:induction false} AllZero(a: seq<real>, b: seq<real>)
    requires |a| == |b| && forall i :: 0 <= i < |b| ==> b[i] == 0.0
    ensures Dot(a, b) == 0.0
  {
    if a != [] { AllZero(a[1..], b[1..]); }
  }
}
