# Audio document, spectrogram engine and analysis settings — a Dafny model

This project models the index, bookkeeping and validation layer of an audio
preview's decode-and-spectrogram pipeline:

- **AudioDocument** (`document.dfy`, from `src/documentData.ts`): probing the
  stream's metadata (`readAudioInfo`), decoding the codec's interleaved sample
  vector into one buffer per channel (`decode`), recomputing `length` and
  `duration`, and releasing the codec's foreign vector exactly once on both
  the success and the failure path. The vector is a class whose `delete()`
  and `get(k)` refuse a deleted vector, and `delete()` frees its contents,
  so a second delete, or a read after the delete, does not verify.
- **Spectrogram** (`spectrogram.dfy`, from `makeSpectrogram`): sample and
  frequency-bin bounds, the frame-centre loop stepping by `hopSize`, the
  clip test deciding which window taps are filled, the powers of the retained
  bins, the running maximum seeded at `Number.EPSILON`, and the dB rescale
  pass. The FFT, the cosine of the Hann window and `log10` are function
  parameters: the model fixes which values reach them and where their
  results go.
- **Analyzer** (`analyzer.dfy`, from `src/webview/analyzer.ts`): the recovery
  policy applied to the settings form (floor, clamp, reset to the full
  range), the monotonically increasing request id, the bound on the first
  spectrogram block, the seekbar's forward and inverse maps, and the guard
  that stops chunked waveform drawing for a superseded request.
- **JsNumbers** (`js_number.dfy`): JavaScript numbers on the spectrogram path
  as `Finite | PosInf | NegInf | NaN`, with IEEE multiplication, addition,
  division, `<` and `log10`, so that reads of missing elements (`undefined`,
  NaN in arithmetic) and `log10(0) = -Infinity` are modelled as they happen.

Two behaviours of `makeSpectrogram` are modelled as written, not corrected:

- The tap test `tt < s + j` is inclusive at the top, so a window that runs
  past the end of the signal reads index `data.length` (`undefined`), and
  that tap alone becomes NaN (`Spectrogram.OverrunRead`).
- The rescale loop runs over `[minFreqIndex, maxFreqIndex)` while the powers
  were stored at `[0, maxFreqIndex - minFreqIndex)`. Writes past the end grow
  the array, leaving holes (`None` in the model). The two ranges coincide
  exactly when `minFreqIndex == 0` (`Spectrogram.RescaleAlignedIffMinBinZero`,
  `Spectrogram.MisalignedRescale`).

A further fact about the code, kept as it is: a bin of zero power rescales
to `-Infinity`; nothing clamps it to a finite floor (`Spectrogram.Db`,
`Spectrogram.SilentBinIsMinusInfinity`).

The engine floors its time bounds (`Math.floor`). The request in
`showSpectrogram` rounds them (`Math.round`). The two are kept separate;
`Analyzer.RoundVersusFloor` states how far apart they can be. The chunked
waveform guard compares against the whole buffer's length rather than the
sliced data's, and `Analyzer.ChunkStarts` keeps that.

## Model

| member | source | states |
|---|---|---|
| AudioDocument.ReadAudioInfo | src/documentData.ts:65-75 | a negative probe status throws `AudioInfoFailed` with the code and message and leaves the document unchanged; otherwise all five probed fields come from the result and nothing else changes |
| AudioDocument.Vector.Get | src/documentData.ts:100 | `samples.get(k)` yields value `k` of the codec's output and is allowed only on a live vector and in range |
| AudioDocument.Vector.Delete | src/documentData.ts:86-86 | `samples.delete()` (here and at line 104) is allowed only on a live vector and leaves it deleted and empty, so a second delete does not verify |
| AudioDocument.Decode | src/documentData.ts:83-105 | a negative status throws `DecodeFailed` with the document untouched and needs no probe; on success the document is the decoded one (`length = size / numChannels`, the de-interleaved buffers); the success clauses are stated over the vector's contents before the call; on both paths the vector ends deleted and empty, and since `Delete` and `Get` refuse a deleted vector it is deleted once and never read after |
| AudioDocument.ReadSamples | src/documentData.ts:90-102 | on a live vector, `length = size / numChannels`, `duration = length / sampleRate` replaces the probe's estimate, there are `numChannels` buffers of `length` values with `samples[c][i] == flat[i*numChannels + c]`, equal to the reference split, and nothing else changes |
| AudioDocument.SplitChannels | src/documentData.ts:93-102 | the copy loop yields `numChannels` equal-length buffers holding `flat[i*n + c]` at `[c][i]`, reading only a live vector within its bounds |
| AudioDocument.Deinterleave | src/documentData.ts:98-102 | the reference split: `n` buffers of `|flat| / n` values, channel `c` at frame `i` being `flat[i*n + c]` |
| AudioDocument.InterleaveDeinterleave | src/documentData.ts:98-102 | re-interleaving the decoded buffers reproduces the codec's vector |
| AudioDocument.DeinterleaveInterleave | src/documentData.ts:98-102 | splitting an interleaved vector gives back the channel buffers it was built from |
| JsNumbers.Power | src/documentData.ts:149 | `re*re + im*im` is never negative or -Infinity, and NaN in either part makes it NaN |
| JsNumbers.NotBelowRaised | src/documentData.ts:151 | raising the running maximum keeps every value it dominated dominated |
| Spectrogram.HannWindow | src/documentData.ts:114-117 | one weight per tap; with a cosine in [-1, 1] every weight lies in [0, 1], and a weight is 0 exactly where the cosine is 1 and 1 exactly where it is -1 |
| Spectrogram.SampleIndex | src/documentData.ts:119-120 | the sample bound is the index whose sample period contains `time * sampleRate` |
| Spectrogram.BinIndex | src/documentData.ts:122-124 | the bin bound `k` satisfies `k*df <= f < (k+1)*df` with `df = sampleRate / windowSize` |
| Spectrogram.PlanFor | src/documentData.ts:113-124 | the derived window has `windowSize` weights, the bounds are the sample and bin indices above, and the lowest bin is never negative |
| Spectrogram.Centres | src/documentData.ts:132 | frame `k` is centred at `startIndex + k*hopSize`, below `endIndex` |
| Spectrogram.CentreExists | src/documentData.ts:132 | frame `k` exists exactly when `startIndex + k*hopSize < endIndex` |
| Spectrogram.CentresCount | src/documentData.ts:132 | the number of frames is `ceil((endIndex - startIndex) / hopSize)` when the range is non-empty, else 0 |
| Spectrogram.BuildTaps | src/documentData.ts:134-141 | the clip-test loop builds exactly the explicitly zero-padded, window-weighted frame: tap `j` is filled iff its sample index lies in `[0, data.length]`, every other tap stays 0 |
| Spectrogram.OverrunRead | src/documentData.ts:134-141 | every filled tap reads inside the signal iff `t <= data.length`; the only NaN tap is the one reading index `data.length` |
| Spectrogram.RawFrame | src/documentData.ts:143-150 | a frame has `max(maxFreqIndex - minFreqIndex, 0)` powers, none negative or -Infinity |
| Spectrogram.PushPowers | src/documentData.ts:147-152 | the bin loop pushes the power of each bin in `[minFreqIndex, maxFreqIndex)`; the maximum dominates every pushed power, never decreases, and is the old maximum or a pushed power |
| Spectrogram.PeakStep | src/documentData.ts:151 | one frame's update keeps the maximum at least `Number.EPSILON`, dominating all earlier frames, and attained |
| Spectrogram.PowerFrames | src/documentData.ts:128-155 | one raw frame per frame centre, each the bin powers of the FFT of the zero-padded frame at that centre; the maximum is at least `Number.EPSILON`, dominates every power, and is `Number.EPSILON` or one of them |
| Spectrogram.Db | src/documentData.ts:159 | against a positive maximum, a missing entry (NaN) stays NaN, a power rescales to -Infinity exactly when it is 0, and a positive power `p` becomes `10 * log10(p / m)` |
| Spectrogram.SilentBinIsMinusInfinity | src/documentData.ts:159 | a zero power rescales to -Infinity |
| Spectrogram.Store | src/documentData.ts:159 | writing index `j` of an array grows it to `j + 1` with holes when `j` is past its end and leaves other elements alone |
| Spectrogram.RescaleFrame | src/documentData.ts:158-160 | slots `[minFreqIndex, maxFreqIndex)` hold the dB value of what stood there (NaN where nothing did), other stored powers are left raw, and the frame grows to `maxFreqIndex` |
| Spectrogram.RescaleFrames | src/documentData.ts:157-161 | every frame is rescaled against the same maximum |
| Spectrogram.RescaleAlignedIffMinBinZero | src/documentData.ts:148-159 | the rescaled slots coincide with the stored powers, in place and with nothing added, iff `minFreqIndex == 0` |
| Spectrogram.MisalignedRescale | src/documentData.ts:148-159 | with `minFreqIndex > 0` the first stored power stays raw and the top slot is NaN |
| Spectrogram.MakeSpectrogram | src/documentData.ts:112-162 | the channel's entry holds `ceil((endIndex - startIndex) / hopSize)` frames, frame `k` being the rescaled powers of the frame centred at `startIndex + k*hopSize`, against the running maximum, which is at least `Number.EPSILON`, dominates every power, and is `Number.EPSILON` or one of the powers (so the larger of the two); nothing else in the document changes |
| Analyzer.FloorAtZero | src/webview/analyzer.ts:68-69 | a non-negative lower bound is kept; a NaN or negative one becomes exactly 0 |
| Analyzer.ClampToLimit | src/webview/analyzer.ts:72-75 | an upper bound within the limit is kept; a NaN one or one above the limit becomes exactly the limit |
| Analyzer.Recover | src/webview/analyzer.ts:67-94 | the result lies in `[0, limit]`, is non-empty when `limit > 0`, leaves a valid pair unchanged, and repairs each side on its own: a bad lower bound alone gives `[0, hi]`, a bad upper bound alone gives `[lo, limit]`, both bad give `[0, limit]` |
| Analyzer.RecoverResetIff | src/webview/analyzer.ts:76-79 | the result is exactly `[0, limit]` iff the clamped upper bound is not above the floored lower one, or they already were `0` and `limit` |
| Analyzer.RecoverIdempotent | src/webview/analyzer.ts:80-96 | recovering the values written back to the form gives the same range |
| Analyzer.RecoverExample | src/webview/analyzer.ts:73-79 | 5000..1000 Hz at 8000 Hz falls back to 0..4000 Hz |
| Analyzer.AnalyzeSettingsOf | src/webview/analyzer.ts:62-106 | `0 <= minFrequency < maxFrequency <= sampleRate/2` and `0 <= minTime < maxTime <= duration` (for a positive rate and duration), valid inputs kept, each pair being the recovery of the parsed form values against `sampleRate / 2` and `duration`, window size passed through, and the returned id is the incremented latest id |
| Analyzer.RequestIdsConsecutive | src/webview/analyzer.ts:104 | the `a`-th request of a run gets the starting id plus `a + 1`, and the analyzer's latest id ends higher by the number of requests |
| Analyzer.FreshSessionNumbersFromOne | src/webview/analyzer.ts:17 | an analyzer starting from id 0, incremented before each request (line 104), numbers its requests 1, 2, 3, ... |
| Analyzer.RequestIdsIncrease | src/webview/analyzer.ts:104 | over any run of requests the ids strictly increase, exceed the starting id, and the last is the analyzer's latest id |
| Analyzer.JsRound | src/webview/analyzer.ts:255-256 | `Math.round` gives the integer within one half below and strictly less than one half above |
| Analyzer.RoundVersusFloor | src/webview/analyzer.ts:255-256 | rounding and flooring differ by at most one, exactly when the fractional part is at least one half |
| Analyzer.RequestFor | src/webview/analyzer.ts:255-258 | the request's `end` is `min(start + 10000, endIndex)`: not past `endIndex`, at most 10000 samples, and equal to one of the two |
| Analyzer.SeekbarForward | src/webview/analyzer.ts:133-139 | the bar width equals the position inside the range, is exactly 0 below it and exactly 100 above it; the past-end flag is set iff the position exceeds 100 |
| Analyzer.SeekbarInverse | src/webview/analyzer.ts:140-144 | the slider value returned points, on the whole recording, at the time lying `rv` percent into the analysed range |
| Analyzer.SeekbarRoundTrip | src/webview/analyzer.ts:134-142 | applying the inverse map and then the forward map returns the position |
| Analyzer.SeekbarRoundTripBack | src/webview/analyzer.ts:134-142 | applying the forward map and then the inverse map returns the slider value |
| Analyzer.SeekbarShowsPosition | src/webview/analyzer.ts:133-143 | a position in [0, 100], mapped back to the slider and forward again, shows as a bar of that width and is not past the end |
| Analyzer.ContinueDrawing | src/webview/analyzer.ts:210 | a request that is no longer the latest never continues; the latest one continues exactly while the next chunk starts before the buffer's end |
| Analyzer.ChunkStarts | src/webview/analyzer.ts:203-214 | chunks start `count` apart; every chunk but the last was followed by a continuation because samples remained and the id was still the latest; after the last, one of the two failed |
| Analyzer.StaleRequestStops | src/webview/analyzer.ts:210-213 | a request found stale after chunk `k` draws no chunk after `k` |
| Analyzer.CurrentRequestCovers | src/webview/analyzer.ts:210-213 | a request that stays the latest keeps drawing until the buffer's length is reached |

## Left out

- Module creation, the virtual file system's `writeFile` and `unlink`, and `dispose` (src/documentData.ts:44-48, 164-166) are foreign calls with no visible contract.
- The error message text (`failed to ...: code: message`): errors carry the code and the message, but the string is not built.
- Floating-point rounding: all arithmetic is on exact reals, including `Float32Array` storage, `minTime * sampleRate` before flooring, `df`, and the seekbar maps. Negative zero and overflow to infinity are not modelled in `JsNumbers`.
- AudioDocument.Decode: on the success path, requires a successful probe (`numChannels > 0`, `sampleRate > 0`). Without one the source computes with `undefined` and gets NaN. A probe that reports `numChannels == 0` is worse: with a non-empty vector `length = size / 0` is Infinity and the frame loop never ends, because its inner channel loop is empty; with an empty vector `0 / 0` is NaN and the loop does not run.
- AudioDocument.Decode: on the success path, requires the vector's size to be a multiple of `numChannels`. A fractional `length` (truncated by `Float32Array`, with reads past the vector) is not modelled.
- Spectrogram.MakeSpectrogram: requires an even `windowSize >= 2` (the form offers powers of two), `hopSize > 0`, a non-negative `minFrequency` and an existing channel. An odd window gives fractional indices, and a zero hop never ends the loop. `hopSize` is a parameter because the settings interface in src/webview/analyzer.ts:1-8 does not carry it; its source module is not part of this model.
- The FFT, `Math.cos` and `Math.log10` are parameters, so no spectral fact is proved (for example, that the peak bin is 0 dB).
- Analyzer.SeekbarForward: requires `minTime < maxTime`, which the validated settings guarantee. An empty range divides by zero in the source.
- Analyzer.RecoverIdempotent: is stated over numbers. Writing the values back as text and re-parsing a fractional `sampleRate / 2` with `parseInt` truncates it, and that is not modelled.
- The window size is passed through as parsed, without validation, as in the source.
- DOM and canvas work: button toggling, axes, the pixel loops of `showWaveForm`, `drawWaveForm` and `drawSpectrogram`, and the colour thresholds are rendering only.
- The waveform min/max normalisation (src/webview/analyzer.ts:190-197) is float division that is 0/0 on a constant signal.
- `requestAnimationFrame` and `postMessage` are scheduling and transport. `Analyzer.ChunkStarts` keeps only the continuation guard, and the id seen after each chunk is a parameter.
- The renderer's assumption that the hop is `windowSize / 2` (src/webview/analyzer.ts:273) is not modelled.
