/** `makeSpectrogram`: the index and bookkeeping layer of the short-time
    Fourier transform of one channel. The transform itself, the cosine of the
    Hann window and the decimal logarithm are parameters: the model fixes
    which values reach them and where their results go, not what they compute. */
module Spectrogram {
  import opened Wrappers
  import opened JsNumbers
  import Arith
  import AudioDocument

  /** `Number.EPSILON`, 2^-52, the seed of the running maximum. */
  const EPSILON: real := 1.0 / 4503599627370496.0

  /** `Math.PI`, as the double it is. */
  const PI: real := 3.141592653589793

  /** A real-input FFT of one frame: its real and imaginary spectra. */
  type Transform = seq<JsNumber> -> (seq<JsNumber>, seq<JsNumber>)

  /** The settings the engine reads. `hopSize` is the stride between frame
      centres, in samples. */
  datatype Settings = Settings(
    windowSize: int,
    minFrequency: real,
    maxFrequency: real,
    minTime: real,
    maxTime: real,
    hopSize: int)

  /** What the engine relies on: an even window (the settings offer powers
      of two), a positive hop, and a non-negative lower frequency. */
  predicate Usable(s: Settings) {
    s.windowSize >= 2 && s.windowSize % 2 == 0 && s.hopSize > 0 && s.minFrequency >= 0.0
  }

  function Max(a: int, b: int): int {
    if a < b then b else a
  }

  // ---------------------------------------------------------------------------
  // Window and index bounds

  /** The Hann window `0.5 - 0.5*cos(2*pi*i/n)`: one weight per tap, and
      with a cosine that stays in [-1, 1] every weight is in [0, 1], 0 where
      the cosine is 1 and 1 where it is -1. */
  function HannWindow(n: nat, cos: real -> real): (w: seq<real>)
    requires n > 0
    ensures |w| == n
    ensures (forall x :: -1.0 <= cos(x) <= 1.0) ==> forall i :: 0 <= i < n ==> 0.0 <= w[i] <= 1.0
    ensures forall i :: 0 <= i < n ==>
      (cos(2.0 * PI * (i as real) / (n as real)) == 1.0 <==> w[i] == 0.0) &&
      (cos(2.0 * PI * (i as real) / (n as real)) == -1.0 <==> w[i] == 1.0)
  {
    seq(n, i => 0.5 - 0.5 * cos(2.0 * PI * (i as real) / (n as real)))
  }

  /** `Math.floor(time * sampleRate)`: the sample whose period contains the instant. */
  function SampleIndex(time: real, rate: int): (k: int)
    ensures k as real <= time * rate as real < k as real + 1.0
  {
    (time * rate as real).Floor
  }

  /** `Math.floor(f / df)` with `df = sampleRate / windowSize`: the FFT bin
      whose band `[k*df, (k+1)*df)` contains the frequency `f`. */
  function BinIndex(f: real, rate: int, n: int): (k: int)
    requires rate > 0 && n > 0
    ensures var df := rate as real / n as real;
      k as real * df <= f < (k + 1) as real * df
  {
    var df := rate as real / n as real;
    var x := f / df;
    Band(f, df, x, x.Floor as real);
    x.Floor
  }

  /** Scaling the band `k <= x < k + 1` by a positive `d`, where `x*d == f`. */
  lemma Band(f: real, d: real, x: real, k: real)
    requires d > 0.0 && x * d == f && k <= x < k + 1.0
    ensures k * d <= f < (k + 1.0) * d
  {
    var e := k + 1.0 - x;
    assert e > 0.0;
    assert e * d > 0.0;
    assert e * d == (k + 1.0) * d - x * d;
    assert (k + 1.0) * d - f > 0.0;
    assert (x - k) * d >= 0.0;
    assert (x - k) * d == x * d - k * d;
  }

  lemma NonPositiveScaled(a: real, d: real)
    requires a <= 0.0 && d > 0.0
    ensures a * d <= 0.0
  {
  }

  /** The bounds `makeSpectrogram` derives from the settings. */
  datatype Plan = Plan(window: seq<real>, start: int, end: int, minBin: int, maxBin: int)

  function PlanFor(s: Settings, rate: int, cos: real -> real): (p: Plan)
    requires Usable(s) && rate > 0
    ensures |p.window| == s.windowSize
    ensures p.start == SampleIndex(s.minTime, rate) && p.end == SampleIndex(s.maxTime, rate)
    ensures p.minBin == BinIndex(s.minFrequency, rate, s.windowSize)
    ensures p.maxBin == BinIndex(s.maxFrequency, rate, s.windowSize)
    ensures p.minBin >= 0
  {
    var lo := BinIndex(s.minFrequency, rate, s.windowSize);
    var df := rate as real / s.windowSize as real;
    assert lo >= 0 by {
      if lo < 0 {
        NonPositiveScaled((lo + 1) as real, df);
      }
    }
    Plan(HannWindow(s.windowSize, cos),
         SampleIndex(s.minTime, rate), SampleIndex(s.maxTime, rate),
         lo, BinIndex(s.maxFrequency, rate, s.windowSize))
  }

  // ---------------------------------------------------------------------------
  // Frame centres

  /** The centre of frame `k`. */
  function FrameCentre(start: int, hop: int, k: int): int {
    start + k * hop
  }

  /** The centres the frame loop visits: from `start`, by `hop`, while below `end`. */
  function Centres(start: int, end: int, hop: int): (cs: seq<int>)
    requires hop > 0
    decreases end - start
    ensures forall k :: 0 <= k < |cs| ==> cs[k] == FrameCentre(start, hop, k) && cs[k] < end
  {
    if start < end then [start] + Centres(start + hop, end, hop) else []
  }

  /** The closed form of the frame count: `ceil((end - start) / hop)`, or
      none when the range is empty. */
  function FrameCount(start: int, end: int, hop: int): nat
    requires hop > 0
  {
    if end > start then (end - start + hop - 1) / hop else 0
  }

  /** Frame `k` exists exactly when its centre lies below `end`. */
  lemma {:induction false} CentreExists(start: int, end: int, hop: int, k: nat)
    requires hop > 0
    ensures k < |Centres(start, end, hop)| <==> FrameCentre(start, hop, k) < end
    decreases end - start
  {
    if start < end && k > 0 {
      CentreExists(start + hop, end, hop, k - 1);
      assert FrameCentre(start + hop, hop, k - 1) == FrameCentre(start, hop, k);
    } else if k > 0 {
      assert k * hop > 0 by { Arith.MulAtLeast(k, hop); }
    }
  }

  /** The number of frames is `ceil((end - start) / hop)` when `end > start`. */
  lemma {:induction false} CentresCount(start: int, end: int, hop: int)
    requires hop > 0
    ensures |Centres(start, end, hop)| == FrameCount(start, end, hop)
    decreases end - start
  {
    if start < end {
      CentresCount(start + hop, end, hop);
      if start + hop < end {
        Arith.DivModUnique(end - start + hop - 1, hop,
          (end - start - 1) / hop + 1, (end - start - 1) % hop);
      } else {
        Arith.DivModUnique(end - start + hop - 1, hop, 1, end - start - 1);
      }
    }
  }

  // ---------------------------------------------------------------------------
  // Taps

  /** Tap `j` of the length-`n` window centred at `i` is filled exactly when
      its sample index lies in `[0, len]`: the signal itself, plus the
      position one past its end, which the inclusive clip test also admits. */
  predicate Filled(i: int, n: int, len: int, j: int) {
    0 <= i - n / 2 + j <= len
  }

  /** A read `data[k]` of the decoded signal used in arithmetic: off the end
      it is `undefined`, so NaN, the rule of `JsNumbers.At` for an array of
      samples rather than of numbers. */
  function Read(data: seq<real>, k: int): JsNumber {
    if 0 <= k < |data| then Finite(data[k]) else NaN
  }

  /** The reference frame: explicitly zero-padded, weighted by the window. */
  function ZeroPadded(data: seq<real>, window: seq<real>, i: int): (d: seq<JsNumber>)
    ensures |d| == |window|
  {
    var n := |window|;
    seq(n, j requires 0 <= j < n =>
      if Filled(i, n, |data|, j) then Mul(Read(data, i - n / 2 + j), Finite(window[j]))
      else Finite(0.0))
  }

  /** The tap loop of `makeSpectrogram`: from a zeroed buffer, tap `j` is
      written unless `s + j < max(s, 0)` or `min(t, len) < s + j`. It builds
      exactly the zero-padded reference frame. */
  method BuildTaps(data: seq<real>, window: seq<real>, i: int) returns (d: seq<JsNumber>)
    requires |window| % 2 == 0
    ensures d == ZeroPadded(data, window, i)
  {
    var n := |window|;
    var s, t := i - n / 2, i + n / 2;
    var ss := if s > 0 then s else 0;
    var tt := if t < |data| then t else |data|;
    d := seq(n, _ => Finite(0.0));
    var j := 0;
    while j < n
      invariant 0 <= j <= n && |d| == n
      invariant forall k :: 0 <= k < j ==> d[k] == ZeroPadded(data, window, i)[k]
      invariant forall k :: j <= k < n ==> d[k] == Finite(0.0)
    {
      if s + j < ss {
      } else if tt < s + j {
      } else {
        d := d[j := Mul(Read(data, s + j), Finite(window[j]))];
      }
      j := j + 1;
    }
  }

  /** Every filled tap reads inside the signal exactly when the window does
      not run past its end; otherwise the one bad read is of index `len`,
      and that tap, alone, is NaN. */
  lemma OverrunRead(data: seq<real>, window: seq<real>, i: int)
    requires |window| >= 2 && |window| % 2 == 0
    requires i - |window| / 2 <= |data|
    ensures (forall j :: 0 <= j < |window| && Filled(i, |window|, |data|, j) ==> i - |window| / 2 + j < |data|)
            <==> i + |window| / 2 <= |data|
    ensures forall j :: 0 <= j < |window| ==>
      (ZeroPadded(data, window, i)[j].NaN? <==> i - |window| / 2 + j == |data|)
  {
    var n, len := |window|, |data|;
    var s := i - n / 2;
    if i + n / 2 > len {
      var j := len - s;
      assert 0 <= j < n && Filled(i, n, len, j);
      assert !(s + j < len);
    }
  }

  // ---------------------------------------------------------------------------
  // Powers and the running maximum

  /** The powers of bins `[lo, hi)`, one entry per bin. */
  function BinPowers(re: seq<JsNumber>, im: seq<JsNumber>, lo: int, hi: int): (ps: seq<JsNumber>)
    ensures |ps| == Max(hi - lo, 0)
    ensures forall k :: 0 <= k < |ps| ==> ps[k] == Power(At(re, lo + k), At(im, lo + k))
  {
    seq(Max(hi - lo, 0), k => Power(At(re, lo + k), At(im, lo + k)))
  }

  /** The raw power list of the frame centred at `i`. */
  function RawFrame(data: seq<real>, window: seq<real>, i: int, lo: int, hi: int, fft: Transform): (ps: seq<JsNumber>)
    ensures |ps| == Max(hi - lo, 0)
    ensures forall k :: 0 <= k < |ps| ==> !ps[k].NegInf? && (ps[k].Finite? ==> ps[k].v >= 0.0)
  {
    var spectrum := fft(ZeroPadded(data, window, i));
    BinPowers(spectrum.0, spectrum.1, lo, hi)
  }

  /** The running maximum has not fallen below `Number.EPSILON`. */
  predicate AtLeastEpsilon(m: JsNumber) {
    m.PosInf? || (m.Finite? && m.v >= EPSILON)
  }

  /** The bin loop: push each bin's power and raise `m` whenever `m < v`.
      The result dominates every pushed power (NaN is never compared
      higher), never decreases, and is either the old maximum or one of the
      pushed powers. */
  method PushPowers(re: seq<JsNumber>, im: seq<JsNumber>, lo: int, hi: int, m: JsNumber)
    returns (ps: seq<JsNumber>, m': JsNumber)
    requires !m.NaN?
    ensures ps == BinPowers(re, im, lo, hi)
    ensures forall k :: 0 <= k < |ps| ==> NotBelow(m', ps[k])
    ensures m' == m || (Less(m, m') && m' in ps)
  {
    ps := [];
    m' := m;
    var j := lo;
    while j < hi
      invariant |ps| == Max(j - lo, 0) && (j > lo ==> j <= hi) && j >= lo
      invariant forall k :: 0 <= k < |ps| ==> ps[k] == Power(At(re, lo + k), At(im, lo + k))
      invariant forall k :: 0 <= k < |ps| ==> NotBelow(m', ps[k])
      invariant m' == m || (Less(m, m') && m' in ps)
    {
      var v := Power(At(re, j), At(im, j));
      ps := ps + [v];
      if Less(m', v) {
        forall k | 0 <= k < |ps| - 1
          ensures NotBelow(v, ps[k])
        {
          NotBelowRaised(m', v, ps[k]);
        }
        if m' != m {
          LessTransitive(m, m', v);
        }
        m' := v;
      }
      j := j + 1;
    }
  }

  /** The running maximum is the seed or one of the powers seen. */
  predicate Attained(peak: JsNumber, frames: seq<seq<JsNumber>>) {
    peak == Finite(EPSILON) || exists k :: 0 <= k < |frames| && peak in frames[k]
  }

  /** One frame's update of the running maximum keeps it at least
      `Number.EPSILON`, dominating, and attained. */
  lemma PeakStep(frames: seq<seq<JsNumber>>, ps: seq<JsNumber>, peak: JsNumber, peak': JsNumber)
    requires AtLeastEpsilon(peak) && Attained(peak, frames)
    requires forall k, b :: 0 <= k < |frames| && 0 <= b < |frames[k]| ==> NotBelow(peak, frames[k][b])
    requires forall b :: 0 <= b < |ps| ==> NotBelow(peak', ps[b])
    requires peak' == peak || (Less(peak, peak') && peak' in ps)
    ensures AtLeastEpsilon(peak') && Attained(peak', frames + [ps])
    ensures var fs := frames + [ps];
      forall k, b :: 0 <= k < |fs| && 0 <= b < |fs[k]| ==> NotBelow(peak', fs[k][b])
  {
    var fs := frames + [ps];
    if peak' != peak {
      forall k, b | 0 <= k < |frames| && 0 <= b < |frames[k]|
        ensures NotBelow(peak', frames[k][b])
      {
        NotBelowRaised(peak, peak', frames[k][b]);
      }
      assert fs[|frames|] == ps;
    } else if peak != Finite(EPSILON) {
      var k :| 0 <= k < |frames| && peak in frames[k];
      assert fs[k] == frames[k];
    }
    assert forall k :: 0 <= k < |frames| ==> fs[k] == frames[k];
  }

  /** The frame loop: one raw frame per centre, and the running maximum
      over all of them, seeded at `Number.EPSILON`. */
  method PowerFrames(data: seq<real>, window: seq<real>, start: int, end: int, hop: int,
                     lo: int, hi: int, fft: Transform)
    returns (frames: seq<seq<JsNumber>>, peak: JsNumber)
    requires |window| % 2 == 0 && hop > 0
    ensures |frames| == |Centres(start, end, hop)|
    ensures forall k :: 0 <= k < |frames| ==>
      frames[k] == RawFrame(data, window, FrameCentre(start, hop, k), lo, hi, fft)
    ensures AtLeastEpsilon(peak)
    ensures forall k, b :: 0 <= k < |frames| && 0 <= b < |frames[k]| ==> NotBelow(peak, frames[k][b])
    ensures Attained(peak, frames)
  {
    frames := [];
    peak := Finite(EPSILON);
    ghost var cs := Centres(start, end, hop);
    var i := start;
    while i < end
      invariant i == FrameCentre(start, hop, |frames|) && |frames| <= |cs|
      invariant forall k :: 0 <= k < |frames| ==>
        frames[k] == RawFrame(data, window, FrameCentre(start, hop, k), lo, hi, fft)
      invariant AtLeastEpsilon(peak)
      invariant forall k, b :: 0 <= k < |frames| && 0 <= b < |frames[k]| ==> NotBelow(peak, frames[k][b])
      invariant Attained(peak, frames)
      decreases end - i
    {
      CentreExists(start, end, hop, |frames|);
      var d := BuildTaps(data, window, i);
      var spectrum := fft(d);
      var ps, peak' := PushPowers(spectrum.0, spectrum.1, lo, hi, peak);
      PeakStep(frames, ps, peak, peak');
      frames := frames + [ps];
      peak := peak';
      i := i + hop;
    }
    CentreExists(start, end, hop, |frames|);
  }

  // ---------------------------------------------------------------------------
  // Rescaling to decibels

  /** `10 * Math.log10(p / m)` against a positive finite maximum `m`: a
      missing entry (NaN) stays NaN, a zero power and only a zero power gives
      -Infinity, and a positive power is `10 * log10(p / m)` decibels. */
  function Db(p: JsNumber, m: JsNumber, log10: real -> real): (r: JsNumber)
    ensures p.NaN? || m.NaN? ==> r.NaN?
    ensures m.Finite? && m.v > 0.0 ==> (r == NegInf <==> p == Finite(0.0))
    ensures m.Finite? && m.v > 0.0 && p.Finite? && p.v > 0.0 ==> r == Finite(10.0 * log10(p.v / m.v))
    ensures m.Finite? && m.v > 0.0 && Negative(p) ==> r.NaN?
  {
    Mul(Finite(10.0), Log10(Div(p, m), log10))
  }

  /** A bin of zero power rescales to -Infinity, not to a finite floor. */
  lemma SilentBinIsMinusInfinity(m: real, log10: real -> real)
    requires m >= EPSILON
    ensures Db(Finite(0.0), Finite(m), log10) == NegInf
  {
  }

  /** Array element assignment `a[j] = v`: an index at or past the end grows
      the array to `j + 1`, leaving holes (`None`) in between. */
  function Store(a: seq<Option<JsNumber>>, j: nat, v: JsNumber): (r: seq<Option<JsNumber>>)
    ensures |r| == Max(|a|, j + 1)
    ensures r[j] == Some(v)
    ensures forall k :: 0 <= k < |a| && k != j ==> r[k] == a[k]
    ensures forall k :: |a| <= k < |r| && k != j ==> r[k] == None
  {
    if j < |a| then a[j := Some(v)] else a + seq(j - |a|, _ => None) + [Some(v)]
  }

  /** An element read `a[j]` used in arithmetic, the rule of `JsNumbers.At`
      for an array that may have holes: a hole reads as `undefined` too, so NaN. */
  function Load(a: seq<Option<JsNumber>>, j: int): JsNumber {
    if 0 <= j < |a| && a[j].Some? then a[j].value else NaN
  }

  /** What the rescale pass leaves in a frame whose powers were stored at
      `[0, |ps|)`: slots `[lo, hi)` hold the dB value of whatever stood there
      (NaN where nothing did), other stored slots keep their raw power, and
      the array has grown to `hi` with holes if `hi` lies past its end. */
  predicate RescaledFrom(r: seq<Option<JsNumber>>, ps: seq<JsNumber>, lo: int, hi: int,
                         m: JsNumber, log10: real -> real) {
    && |r| == (if lo < hi then Max(|ps|, hi) else |ps|)
    && forall k :: 0 <= k < |r| ==>
         r[k] == (if lo <= k < hi then Some(Db(At(ps, k), m, log10))
                  else if k < |ps| then Some(ps[k])
                  else None)
  }

  /** The rescale loop of one frame, over `j` in `[lo, hi)`. */
  method RescaleFrame(ps: seq<JsNumber>, lo: nat, hi: int, m: JsNumber, log10: real -> real)
    returns (r: seq<Option<JsNumber>>)
    ensures RescaledFrom(r, ps, lo, hi, m, log10)
  {
    r := seq(|ps|, k requires 0 <= k < |ps| => Some(ps[k]));
    var j := lo;
    while j < hi
      invariant j == lo || lo < j <= hi
      invariant |r| == (if lo < j then Max(|ps|, j) else |ps|)
      invariant forall k :: 0 <= k < |r| ==>
        r[k] == (if lo <= k < j then Some(Db(At(ps, k), m, log10))
                 else if k < |ps| then Some(ps[k])
                 else None)
    {
      assert Load(r, j) == At(ps, j);
      r := Store(r, j, Db(Load(r, j), m, log10));
      j := j + 1;
    }
  }

  /** The rescaled slots coincide with the stored powers, each in place and
      nothing added, exactly when the lowest bin is 0. */
  lemma RescaleAlignedIffMinBinZero(r: seq<Option<JsNumber>>, ps: seq<JsNumber>,
                                    lo: nat, hi: int, m: JsNumber, log10: real -> real)
    requires RescaledFrom(r, ps, lo, hi, m, log10) && |ps| == hi - lo > 0
    ensures (|r| == |ps| && forall k :: 0 <= k < |ps| ==> r[k] == Some(Db(ps[k], m, log10)))
            <==> lo == 0
  {
  }

  /** With a lowest bin above 0 the first stored power is left unscaled and
      the top slot is the dB value of a missing entry, NaN. */
  lemma MisalignedRescale(r: seq<Option<JsNumber>>, ps: seq<JsNumber>,
                          lo: nat, hi: int, m: JsNumber, log10: real -> real)
    requires RescaledFrom(r, ps, lo, hi, m, log10) && |ps| == hi - lo > 0 && lo > 0
    ensures |r| == hi
    ensures r[0] == Some(ps[0])
    ensures r[hi - 1] == Some(NaN)
  {
  }

  /** The rescale pass over every frame, against one maximum. */
  method RescaleFrames(raw: seq<seq<JsNumber>>, lo: nat, hi: int, m: JsNumber, log10: real -> real)
    returns (frames: seq<seq<Option<JsNumber>>>)
    ensures |frames| == |raw|
    ensures forall k :: 0 <= k < |raw| ==> RescaledFrom(frames[k], raw[k], lo, hi, m, log10)
  {
    frames := [];
    var i := 0;
    while i < |raw|
      invariant 0 <= i <= |raw| && |frames| == i
      invariant forall k :: 0 <= k < i ==> RescaledFrom(frames[k], raw[k], lo, hi, m, log10)
    {
      var r := RescaleFrame(raw[i], lo, hi, m, log10);
      frames := frames + [r];
      i := i + 1;
    }
  }

  // ---------------------------------------------------------------------------
  // The whole computation

  /** `makeSpectrogram(ch, settings)`: the frames of channel `ch` over the
      selected time range, each rescaled against the running maximum `peak`,
      which is the larger of `Number.EPSILON` and the largest power of the call; the result replaces that channel's entry and nothing
      else in the document changes. */
  method MakeSpectrogram(doc: AudioDocument.Document, ch: int, s: Settings,
                         fft: Transform, cos: real -> real, log10: real -> real)
    returns (doc': AudioDocument.Document, peak: JsNumber)
    requires doc.info.Some? && doc.info.value.sampleRate > 0
    requires doc.samples.Some? && 0 <= ch < |doc.samples.value|
    requires Usable(s)
    ensures ch in doc'.spectrogram
    ensures doc' == doc.(spectrogram := doc.spectrogram[ch := doc'.spectrogram[ch]])
    ensures var p := PlanFor(s, doc.info.value.sampleRate, cos);
      |doc'.spectrogram[ch]| == FrameCount(p.start, p.end, s.hopSize)
    ensures var p := PlanFor(s, doc.info.value.sampleRate, cos);
      var data := doc.samples.value[ch];
      forall k :: 0 <= k < |doc'.spectrogram[ch]| ==>
        RescaledFrom(doc'.spectrogram[ch][k],
          RawFrame(data, p.window, FrameCentre(p.start, s.hopSize, k), p.minBin, p.maxBin, fft),
          p.minBin, p.maxBin, peak, log10)
    ensures var p := PlanFor(s, doc.info.value.sampleRate, cos);
      var data := doc.samples.value[ch];
      AtLeastEpsilon(peak) &&
      forall k, b :: 0 <= k < |doc'.spectrogram[ch]| &&
                     0 <= b < |RawFrame(data, p.window, FrameCentre(p.start, s.hopSize, k), p.minBin, p.maxBin, fft)| ==>
        NotBelow(peak, RawFrame(data, p.window, FrameCentre(p.start, s.hopSize, k), p.minBin, p.maxBin, fft)[b])
    ensures var p := PlanFor(s, doc.info.value.sampleRate, cos);
      var data := doc.samples.value[ch];
      peak == Finite(EPSILON) ||
      exists k :: 0 <= k < |doc'.spectrogram[ch]| &&
        peak in RawFrame(data, p.window, FrameCentre(p.start, s.hopSize, k), p.minBin, p.maxBin, fft)
  {
    var p := PlanFor(s, doc.info.value.sampleRate, cos);
    var data := doc.samples.value[ch];
    var raw;
    raw, peak := PowerFrames(data, p.window, p.start, p.end, s.hopSize, p.minBin, p.maxBin, fft);
    CentresCount(p.start, p.end, s.hopSize);
    var frames := RescaleFrames(raw, p.minBin, p.maxBin, peak, log10);
    doc' := doc.(spectrogram := doc.spectrogram[ch := frames]);
    assert doc'.spectrogram[ch] == frames;
  }
}
