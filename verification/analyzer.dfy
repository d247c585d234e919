/** The webview side of an analysis: reading and repairing the settings
    form, stamping each request with a fresh id, bounding the first
    spectrogram block, the seekbar's two linear maps, and the guard that
    stops chunked waveform drawing for a superseded request. The form,
    canvases and scheduling are the caller's; here they are values. */
module Analyzer {
  import opened Wrappers
  import opened JsNumbers

  // ---------------------------------------------------------------------------
  // Settings recovery

  /** The relational `a <= b`: false whenever NaN is involved. */
  predicate LessEq(a: JsNumber, b: JsNumber) {
    !a.NaN? && !b.NaN? && !Less(b, a)
  }

  /** The value of a `parseInt` result: NaN when nothing parsed. */
  function FromInt(x: Option<int>): JsNumber {
    match x
    case Some(v) => Finite(v as real)
    case None => NaN
  }

  /** A validated range `[lo, hi]`. */
  datatype Range = Range(lo: real, hi: real)

  /** First step: a NaN or negative lower bound becomes 0. */
  function FloorAtZero(lo: JsNumber): (r: JsNumber)
    ensures r.Finite? || r.PosInf?
    ensures r.Finite? ==> r.v >= 0.0
    ensures LessEq(Finite(0.0), lo) ==> r == lo
    ensures !LessEq(Finite(0.0), lo) ==> r == Finite(0.0)
  {
    if lo.NaN? || Less(lo, Finite(0.0)) then Finite(0.0) else lo
  }

  /** Second step: a NaN upper bound, or one above `limit`, becomes `limit`. */
  function ClampToLimit(hi: JsNumber, limit: real): (r: JsNumber)
    ensures r.Finite? || r.NegInf?
    ensures r.Finite? ==> r.v <= limit
    ensures LessEq(hi, Finite(limit)) ==> r == hi
    ensures !LessEq(hi, Finite(limit)) ==> r == Finite(limit)
  {
    if hi.NaN? || Less(Finite(limit), hi) then Finite(limit) else hi
  }

  /** The recovery policy shared by the frequency and the time bounds: floor
      the lower bound, clamp the upper one, and fall back to the full range
      `[0, limit]` when the upper bound is not above the lower one. */
  function Recover(lo: JsNumber, hi: JsNumber, limit: real): (r: Range)
    ensures 0.0 <= r.lo && r.hi <= limit
    ensures limit > 0.0 ==> r.lo < r.hi
    ensures (exists a: real, b: real :: lo == Finite(a) && hi == Finite(b) && 0.0 <= a < b <= limit)
            ==> r == Range(lo.v, hi.v)
    // each side is repaired on its own: a bad lower bound alone becomes 0 ...
    ensures (lo.NaN? || Negative(lo)) && hi.Finite? && 0.0 < hi.v <= limit
            ==> r == Range(0.0, hi.v)
    // ... a bad upper bound alone becomes the limit ...
    ensures lo.Finite? && 0.0 <= lo.v < limit && (hi.NaN? || Less(Finite(limit), hi))
            ==> r == Range(lo.v, limit)
    // ... and two bad bounds give the full range
    ensures (lo.NaN? || Negative(lo)) && (hi.NaN? || Less(Finite(limit), hi))
            ==> r == Range(0.0, limit)
  {
    var lo', hi' := FloorAtZero(lo), ClampToLimit(hi, limit);
    if LessEq(hi', lo') then Range(0.0, limit) else Range(lo'.v, hi'.v)
  }

  /** The pair becomes exactly the full range when, after flooring and
      clamping, the upper bound is not above the lower one, or when flooring
      and clamping already produced the full range. */
  lemma RecoverResetIff(lo: JsNumber, hi: JsNumber, limit: real)
    requires limit > 0.0
    ensures var lo', hi' := FloorAtZero(lo), ClampToLimit(hi, limit);
      Recover(lo, hi, limit) == Range(0.0, limit)
      <==> (LessEq(hi', lo') || (lo' == Finite(0.0) && hi' == Finite(limit)))
  {
  }

  /** The values the form is given back are recovered unchanged: validating
      a validated range is the identity. */
  lemma RecoverIdempotent(lo: JsNumber, hi: JsNumber, limit: real)
    requires limit > 0.0
    ensures var r := Recover(lo, hi, limit);
      Recover(Finite(r.lo), Finite(r.hi), limit) == r
  {
  }

  /** The worked case: 5000..1000 Hz at 8000 Hz falls back to 0..4000 Hz. */
  lemma RecoverExample()
    ensures Recover(Finite(5000.0), Finite(1000.0), 8000.0 / 2.0) == Range(0.0, 4000.0)
  {
  }

  // ---------------------------------------------------------------------------
  // Settings and request ids

  /** What the settings form yields: `parseInt` for the window size and the
      frequencies, `parseFloat` (any number, infinities included) for the times. */
  datatype FormInputs = FormInputs(
    windowSize: Option<int>,
    minFrequency: Option<int>,
    maxFrequency: Option<int>,
    minTime: JsNumber,
    maxTime: JsNumber)

  datatype AnalyzeSettings = AnalyzeSettings(
    windowSize: Option<int>,
    minFrequency: real,
    maxFrequency: real,
    minTime: real,
    maxTime: real,
    analyzeID: int)

  /** The analyzer's own state: the id of the latest request. */
  datatype Session = Session(latestAnalyzeID: int)

  /** A new analyzer, before any request. */
  function NewSession(): Session {
    Session(0)
  }

  /** `analyzeSettings()`: the repaired settings, stamped with the
      incremented request id, and the session holding that id. */
  function AnalyzeSettingsOf(s: Session, form: FormInputs, sampleRate: real, duration: real)
    : (out: (AnalyzeSettings, Session))
    ensures out.0.analyzeID == out.1.latestAnalyzeID == s.latestAnalyzeID + 1
    ensures out.0.windowSize == form.windowSize
    ensures 0.0 <= out.0.minFrequency && out.0.maxFrequency <= sampleRate / 2.0
    ensures sampleRate > 0.0 ==> out.0.minFrequency < out.0.maxFrequency
    ensures 0.0 <= out.0.minTime && out.0.maxTime <= duration
    ensures duration > 0.0 ==> out.0.minTime < out.0.maxTime
    ensures (exists a: int, b: int :: form.minFrequency == Some(a) && form.maxFrequency == Some(b)
               && 0 <= a && a < b && b as real <= sampleRate / 2.0)
            ==> out.0.minFrequency == form.minFrequency.value as real
                && out.0.maxFrequency == form.maxFrequency.value as real
    ensures (exists a: real, b: real :: form.minTime == Finite(a) && form.maxTime == Finite(b)
               && 0.0 <= a < b <= duration)
            ==> out.0.minTime == form.minTime.v && out.0.maxTime == form.maxTime.v
    ensures Range(out.0.minFrequency, out.0.maxFrequency)
            == Recover(FromInt(form.minFrequency), FromInt(form.maxFrequency), sampleRate / 2.0)
    ensures Range(out.0.minTime, out.0.maxTime) == Recover(form.minTime, form.maxTime, duration)
  {
    var f := Recover(FromInt(form.minFrequency), FromInt(form.maxFrequency), sampleRate / 2.0);
    var t := Recover(form.minTime, form.maxTime, duration);
    var id := s.latestAnalyzeID + 1;
    (AnalyzeSettings(form.windowSize, f.lo, f.hi, t.lo, t.hi, id), Session(id))
  }

  /** A run of requests from one session: each call sees the session the
      previous call left. */
  function Requests(s: Session, forms: seq<FormInputs>, sampleRate: real, duration: real)
    : (out: (seq<AnalyzeSettings>, Session))
    ensures |out.0| == |forms|
    decreases |forms|
  {
    if |forms| == 0 then ([], s)
    else
      var (first, s') := AnalyzeSettingsOf(s, forms[0], sampleRate, duration);
      var (rest, s'') := Requests(s', forms[1..], sampleRate, duration);
      ([first] + rest, s'')
  }

  /** Ids of a run are strictly increasing, all above the starting id, and
      the last one is the session's latest id. */
  lemma {:induction false} RequestIdsIncrease(s: Session, forms: seq<FormInputs>, sampleRate: real, duration: real)
    ensures var (settings, s') := Requests(s, forms, sampleRate, duration);
      && (forall a, b :: 0 <= a < b < |settings| ==> settings[a].analyzeID < settings[b].analyzeID)
      && (forall a :: 0 <= a < |settings| ==> s.latestAnalyzeID < settings[a].analyzeID <= s'.latestAnalyzeID)
      && (|settings| > 0 ==> settings[|settings| - 1].analyzeID == s'.latestAnalyzeID)
    decreases |forms|
  {
    if |forms| > 0 {
      var (first, s1) := AnalyzeSettingsOf(s, forms[0], sampleRate, duration);
      RequestIdsIncrease(s1, forms[1..], sampleRate, duration);
      var (rest, s2) := Requests(s1, forms[1..], sampleRate, duration);
      var settings := [first] + rest;
      assert Requests(s, forms, sampleRate, duration) == (settings, s2);
      assert forall a :: 0 < a < |settings| ==> settings[a] == rest[a - 1];
    }
  }

  /** The ids of a run are consecutive: the `a`-th request of the run gets
      the starting id plus `a + 1`, and the session ends `|forms|` higher. */
  lemma {:induction false} RequestIdsConsecutive(s: Session, forms: seq<FormInputs>, sampleRate: real, duration: real)
    ensures var (settings, s') := Requests(s, forms, sampleRate, duration);
      && s'.latestAnalyzeID == s.latestAnalyzeID + |forms|
      && forall a :: 0 <= a < |settings| ==> settings[a].analyzeID == s.latestAnalyzeID + a + 1
    decreases |forms|
  {
    if |forms| > 0 {
      var (first, s1) := AnalyzeSettingsOf(s, forms[0], sampleRate, duration);
      RequestIdsConsecutive(s1, forms[1..], sampleRate, duration);
      var (rest, s2) := Requests(s1, forms[1..], sampleRate, duration);
      var settings := [first] + rest;
      assert Requests(s, forms, sampleRate, duration) == (settings, s2);
      assert forall a :: 0 < a < |settings| ==> settings[a] == rest[a - 1];
    }
  }

  /** A new analyzer numbers its requests 1, 2, 3, ... */
  lemma FreshSessionNumbersFromOne(forms: seq<FormInputs>, sampleRate: real, duration: real)
    ensures var (settings, s') := Requests(NewSession(), forms, sampleRate, duration);
      && s'.latestAnalyzeID == |forms|
      && forall a :: 0 <= a < |settings| ==> settings[a].analyzeID == a + 1
  {
    RequestIdsConsecutive(NewSession(), forms, sampleRate, duration);
  }

  // ---------------------------------------------------------------------------
  // The spectrogram request

  /** The largest block of samples one spectrogram request covers. */
  const BLOCK: int := 10000

  /** `Math.round`: the nearest integer, halves rounded up. */
  function JsRound(x: real): (k: int)
    ensures k as real - 0.5 <= x < k as real + 0.5
  {
    (x + 0.5).Floor
  }

  /** The rounding used here and the flooring of the engine's own bounds
      differ by at most one sample, and differ exactly when the fractional
      part is at least one half. */
  lemma RoundVersusFloor(x: real)
    ensures JsRound(x) == x.Floor || JsRound(x) == x.Floor + 1
    ensures JsRound(x) == x.Floor + 1 <==> x - x.Floor as real >= 0.5
  {
  }

  datatype SpectrogramRequest = SpectrogramRequest(channel: int, start: int, end: int)

  /** The message `showSpectrogram` posts: the first block of at most
      `BLOCK` samples of the selected range. */
  function RequestFor(ch: int, minTime: real, maxTime: real, sampleRate: real): (q: SpectrogramRequest)
    ensures q.channel == ch && q.start == JsRound(minTime * sampleRate)
    ensures q.end <= JsRound(maxTime * sampleRate) && q.end - q.start <= BLOCK
    ensures q.end == JsRound(maxTime * sampleRate) || q.end == q.start + BLOCK
  {
    var startIndex := JsRound(minTime * sampleRate);
    var endIndex := JsRound(maxTime * sampleRate);
    SpectrogramRequest(ch, startIndex, if startIndex + BLOCK < endIndex then startIndex + BLOCK else endIndex)
  }

  // ---------------------------------------------------------------------------
  // The seekbar

  /** The position, in percent of the analysed range, of a slider value
      given in percent of the whole recording (unclamped). */
  function RangePercent(value: real, duration: real, minTime: real, maxTime: real): real
    requires minTime < maxTime
  {
    ((value * duration / 100.0 - minTime) / (maxTime - minTime)) * 100.0
  }

  datatype SeekbarView = SeekbarView(width: real, pastEnd: bool)

  /** The forward map: the visible bar's width, clamped to [0, 100], and
      whether the slider has run past the analysed range. */
  function SeekbarForward(value: real, duration: real, minTime: real, maxTime: real): (r: SeekbarView)
    requires minTime < maxTime
    ensures 0.0 <= r.width <= 100.0
    ensures RangePercent(value, duration, minTime, maxTime) < 0.0 ==> r.width == 0.0
    ensures RangePercent(value, duration, minTime, maxTime) > 100.0 ==> r.width == 100.0
    ensures r.pastEnd <==> RangePercent(value, duration, minTime, maxTime) > 100.0
    ensures 0.0 <= RangePercent(value, duration, minTime, maxTime) <= 100.0
            ==> r.width == RangePercent(value, duration, minTime, maxTime)
  {
    var v := RangePercent(value, duration, minTime, maxTime);
    SeekbarView(if v < 0.0 then 0.0 else if 100.0 < v then 100.0 else v, 100.0 < v)
  }

  /** The inverse map: a position in percent of the analysed range, as a
      percent of the whole recording. */
  function SeekbarInverse(rv: real, duration: real, minTime: real, maxTime: real): (value: real)
    requires duration > 0.0
    ensures value * duration / 100.0 == minTime + rv * (maxTime - minTime) / 100.0
  {
    ((rv / 100.0 * (maxTime - minTime) + minTime) / duration) * 100.0
  }

  /** Inverse then forward gives back the position. */
  lemma SeekbarRoundTrip(rv: real, duration: real, minTime: real, maxTime: real)
    requires duration > 0.0 && minTime < maxTime
    ensures RangePercent(SeekbarInverse(rv, duration, minTime, maxTime), duration, minTime, maxTime) == rv
  {
  }

  /** Forward then inverse gives back the slider value. */
  lemma SeekbarRoundTripBack(value: real, duration: real, minTime: real, maxTime: real)
    requires duration > 0.0 && minTime < maxTime
    ensures SeekbarInverse(RangePercent(value, duration, minTime, maxTime), duration, minTime, maxTime) == value
  {
  }

  /** A position inside the analysed range shows as a bar of that width and
      is not past the end. */
  lemma SeekbarShowsPosition(rv: real, duration: real, minTime: real, maxTime: real)
    requires duration > 0.0 && minTime < maxTime && 0.0 <= rv <= 100.0
    ensures SeekbarForward(SeekbarInverse(rv, duration, minTime, maxTime), duration, minTime, maxTime)
            == SeekbarView(rv, false)
  {
    SeekbarRoundTrip(rv, duration, minTime, maxTime);
  }

  // ---------------------------------------------------------------------------
  // Chunked waveform drawing

  /** After drawing `count` points from `start`, another chunk is scheduled
      only if the recording has more samples and the request is still the
      latest one. */
  function ContinueDrawing(start: int, count: int, bufferLength: int, analyzeID: int, latestAnalyzeID: int)
    : (b: bool)
    ensures analyzeID != latestAnalyzeID ==> !b
    ensures analyzeID == latestAnalyzeID ==> (b <==> bufferLength - (start + count) > 0)
  {
    start + count < bufferLength && analyzeID == latestAnalyzeID
  }

  /** The starts of the chunks drawn for one request, where `latestAfter(x)`
      is the latest id when the chunk at `x` has been drawn. */
  function ChunkStarts(start: int, count: int, bufferLength: int, analyzeID: int, latestAfter: int -> int)
    : (cs: seq<int>)
    requires count > 0
    ensures |cs| >= 1 && cs[0] == start
    ensures forall k :: 0 < k < |cs| ==> cs[k] == cs[k - 1] + count
    ensures forall k :: 0 <= k < |cs| - 1 ==>
      ContinueDrawing(cs[k], count, bufferLength, analyzeID, latestAfter(cs[k]))
    ensures !ContinueDrawing(cs[|cs| - 1], count, bufferLength, analyzeID, latestAfter(cs[|cs| - 1]))
    decreases bufferLength - start
  {
    if ContinueDrawing(start, count, bufferLength, analyzeID, latestAfter(start)) then
      [start] + ChunkStarts(start + count, count, bufferLength, analyzeID, latestAfter)
    else
      [start]
  }

  /** A request found stale after some chunk draws nothing more; a request
      that stays the latest draws until the buffer's length is reached. */
  lemma StaleRequestStops(start: int, count: int, bufferLength: int, analyzeID: int,
                          latestAfter: int -> int, k: int)
    requires count > 0
    requires var cs := ChunkStarts(start, count, bufferLength, analyzeID, latestAfter);
      0 <= k < |cs| && latestAfter(cs[k]) != analyzeID
    ensures |ChunkStarts(start, count, bufferLength, analyzeID, latestAfter)| == k + 1
  {
  }

  lemma CurrentRequestCovers(start: int, count: int, bufferLength: int, analyzeID: int,
                             latestAfter: int -> int)
    requires count > 0
    requires forall x :: latestAfter(x) == analyzeID
    ensures var cs := ChunkStarts(start, count, bufferLength, analyzeID, latestAfter);
      cs[|cs| - 1] + count >= bufferLength
      && forall k :: 0 <= k < |cs| - 1 ==> cs[k] + count < bufferLength
  {
  }
}
