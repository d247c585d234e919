/** The decoded-audio document: metadata probing, decoding of the interleaved
    sample vector handed back by the codec, and de-interleaving into one
    buffer per channel. The codec itself and its virtual file system are the
    caller's; here they are the values it returns. */
module AudioDocument {
  import opened Wrappers
  import Arith
  import opened JsNumbers

  /** The codec's status word: a negative `status` is a failure. */
  datatype Status = Status(status: int, error: string)

  /** What the probe reports about the stream. */
  datatype AudioInfo = AudioInfo(
    encoding: string,
    sampleRate: int,
    numChannels: int,
    duration: real,
    format: string)

  datatype AudioInfoResult = AudioInfoResult(status: Status, info: AudioInfo)

  /** The foreign sample vector the decoder allocates: `data` is what the
      codec wrote, and `deleted` is set by `delete()`, which also frees the
      contents. A deleted vector may be neither read nor deleted again, and
      it holds nothing any more. */
  class Vector {
    var data: seq<real>
    var deleted: bool

    constructor (data: seq<real>)
      ensures this.data == data && !deleted
    {
      this.data := data;
      deleted := false;
    }

    /** `get(k)`: value `k` of the codec's output, readable only while the
        vector is live and only in range. */
    function Get(k: int): (x: real)
      reads this
      requires !deleted && 0 <= k < |data|
      ensures x == data[k]
    {
      data[k]
    }

    /** `delete()`: frees a live vector and its contents. */
    method Delete()
      modifies this
      requires !deleted
      ensures deleted && data == []
    {
      deleted := true;
      data := [];
    }
  }

  datatype DecodeAudioResult = DecodeAudioResult(status: Status, samples: Vector)

  /** The two errors the document throws, carrying the codec's code and message. */
  datatype DecodeError =
    | AudioInfoFailed(code: int, message: string)
    | DecodeFailed(code: int, message: string)

  /** The document's fields. `info` is unset until a probe succeeds; `length`
      and `samples` are unset until a decode succeeds. `spectrogram` maps a
      channel to its last computed result (frames of slots; `None` is an
      array hole). */
  datatype Document = Document(
    fileSize: int,
    info: Option<AudioInfo>,
    length: Option<int>,
    samples: Option<seq<seq<real>>>,
    spectrogram: map<int, seq<seq<Option<JsNumber>>>>)

  /** The state after a call: the document and the error it threw, if any. */
  datatype Outcome = Outcome(doc: Document, thrown: Option<DecodeError>)

  /** A successful probe with a usable channel count and sample rate. */
  predicate Probed(d: Document) {
    d.info.Some? && d.info.value.numChannels > 0 && d.info.value.sampleRate > 0
  }

  /** The decoded-document invariant: one buffer per channel, all of the
      same length, and a duration that is that length in seconds. */
  predicate Decoded(d: Document) {
    && Probed(d)
    && d.length.Some? && d.samples.Some?
    && |d.samples.value| == d.info.value.numChannels
    && (forall c :: 0 <= c < |d.samples.value| ==> |d.samples.value[c]| == d.length.value)
    && d.info.value.duration == d.length.value as real / d.info.value.sampleRate as real
  }

  /** `readAudioInfo`: a negative status throws before anything is written;
      otherwise all five probed fields are taken from the result. */
  function ReadAudioInfo(d: Document, res: AudioInfoResult): (o: Outcome)
    ensures o.thrown.Some? <==> res.status.status < 0
    ensures o.thrown.Some? ==>
      o.doc == d && o.thrown.value == AudioInfoFailed(res.status.status, res.status.error)
    ensures o.thrown.None? ==>
      && o.doc.info == Some(res.info)
      && o.doc.fileSize == d.fileSize
      && o.doc.length == d.length
      && o.doc.samples == d.samples
      && o.doc.spectrogram == d.spectrogram
  {
    if res.status.status < 0 then
      Outcome(d, Some(AudioInfoFailed(res.status.status, res.status.error)))
    else
      Outcome(d.(info := Some(res.info)), None)
  }

  /** Where the codec stores channel `c` of frame `i` when there are `n` channels. */
  function FlatIndex(i: int, c: int, n: int): int {
    i * n + c
  }

  /** Every frame/channel pair of a `len`-frame vector lies inside it. */
  lemma FlatIndexInRange(n: int, len: int)
    ensures forall i, c :: 0 <= i < len && 0 <= c < n ==> 0 <= FlatIndex(i, c, n) < len * n
  {
    forall i, c | 0 <= i < len && 0 <= c < n
      ensures 0 <= FlatIndex(i, c, n) < len * n
    {
      Arith.RowMajorBound(i, c, n, len);
    }
  }

  /** The reference de-interleaving: channel `c` holds every `n`-th value of
      `flat` starting at `c`. */
  function Deinterleave(flat: seq<real>, n: int): (chs: seq<seq<real>>)
    requires n > 0 && |flat| % n == 0
    ensures |chs| == n
    ensures forall c :: 0 <= c < n ==> |chs[c]| == |flat| / n
    ensures (FlatIndexInRange(n, |flat| / n);
      forall c, i :: 0 <= c < n && 0 <= i < |flat| / n ==> chs[c][i] == flat[FlatIndex(i, c, n)])
  {
    var len := |flat| / n;
    assert |flat| == len * n;
    seq(n, c requires 0 <= c < n =>
      seq(len, i requires 0 <= i < len =>
        Arith.RowMajorBound(i, c, n, len);
        flat[FlatIndex(i, c, n)]))
  }

  /** Equal-length channel buffers. */
  predicate Rectangular(chs: seq<seq<real>>, len: int) {
    forall c :: 0 <= c < |chs| ==> |chs[c]| == len
  }

  /** The codec's layout: frame `i` stores its `n` channel values
      consecutively starting at `i*n`. */
  function Interleave(chs: seq<seq<real>>, len: nat): (flat: seq<real>)
    requires |chs| > 0 && Rectangular(chs, len)
    ensures |flat| == len * |chs|
  {
    var n := |chs|;
    seq(len * n, k requires 0 <= k < len * n =>
      Arith.RowBelow(k, n, len);
      chs[k % n][k / n])
  }

  /** Interleaving the de-interleaved channels gives back the codec's vector. */
  lemma InterleaveDeinterleave(flat: seq<real>, n: int)
    requires n > 0 && |flat| % n == 0
    ensures Interleave(Deinterleave(flat, n), |flat| / n) == flat
  {
    var len := |flat| / n;
    var back := Interleave(Deinterleave(flat, n), len);
    forall k | 0 <= k < |flat|
      ensures back[k] == flat[k]
    {
      Arith.RowBelow(k, n, len);
      assert k == (k / n) * n + k % n;
    }
  }

  /** De-interleaving an interleaved vector gives back the channels. */
  lemma DeinterleaveInterleave(chs: seq<seq<real>>, len: nat)
    requires |chs| > 0 && Rectangular(chs, len)
    ensures |Interleave(chs, len)| % |chs| == 0
    ensures Deinterleave(Interleave(chs, len), |chs|) == chs
  {
    var n := |chs|;
    var flat := Interleave(chs, len);
    Arith.DivModUnique(|flat|, n, len, 0);
    var back := Deinterleave(flat, n);
    forall c | 0 <= c < n
      ensures back[c] == chs[c]
    {
      forall i | 0 <= i < len
        ensures back[c][i] == chs[c][i]
      {
        Arith.RowMajorBound(i, c, n, len);
        Arith.DivModUnique(i * n + c, n, i, c);
      }
    }
  }

  /** `decode`: on a negative status the vector is deleted and an error is
      thrown with the document untouched; otherwise the vector is read into
      the document and then deleted. Either way the vector is deleted once
      (`Delete` refuses a deleted vector) and never read after that: `Get`
      refuses a deleted vector, and the contents are gone, so the success
      clauses, stated over the contents before the call, cannot be met from
      a read after the delete. */
  method Decode(d: Document, res: DecodeAudioResult) returns (d': Document, thrown: Option<DecodeError>)
    modifies res.samples
    requires !res.samples.deleted
    requires res.status.status >= 0 ==>
      Probed(d) && |res.samples.data| % d.info.value.numChannels == 0
    ensures res.samples.deleted && res.samples.data == []
    ensures thrown.Some? <==> res.status.status < 0
    ensures thrown.Some? ==>
      d' == d && thrown.value == DecodeFailed(res.status.status, res.status.error)
    ensures thrown.None? ==>
      && Decoded(d')
      && d'.length == Some(|old(res.samples.data)| / d.info.value.numChannels)
      && d'.samples == Some(Deinterleave(old(res.samples.data), d.info.value.numChannels))
      && d'.info == Some(d.info.value.(duration := d'.info.value.duration))
      && d'.fileSize == d.fileSize && d'.spectrogram == d.spectrogram
  {
    var vec := res.samples;
    if res.status.status < 0 {
      vec.Delete();
      thrown := Some(DecodeFailed(res.status.status, res.status.error));
      d' := d;
      return;
    }
    d' := ReadSamples(d, vec);
    vec.Delete();
    thrown := None;
  }

  /** The success path of `decode`, on a live vector: `length` and
      `duration` are recomputed from the vector's size and the vector is
      split into one buffer per channel. */
  method ReadSamples(d: Document, vec: Vector) returns (d': Document)
    requires !vec.deleted
    requires Probed(d) && |vec.data| % d.info.value.numChannels == 0
    ensures Decoded(d')
    ensures d'.length == Some(|vec.data| / d.info.value.numChannels)
    ensures d'.info == Some(d.info.value.(duration := d'.info.value.duration))
    ensures d'.fileSize == d.fileSize && d'.spectrogram == d.spectrogram
    ensures var n := d.info.value.numChannels;
      (FlatIndexInRange(n, d'.length.value);
       forall c, i :: 0 <= c < n && 0 <= i < d'.length.value ==>
         d'.samples.value[c][i] == vec.data[FlatIndex(i, c, n)])
    ensures d'.samples == Some(Deinterleave(vec.data, d.info.value.numChannels))
  {
    var info := d.info.value;
    var n := info.numChannels;
    var len := |vec.data| / n;
    assert |vec.data| == len * n;
    var duration := len as real / info.sampleRate as real;

    var samples := SplitChannels(vec, n, len);
    var reference := Deinterleave(vec.data, n);
    forall c | 0 <= c < n
      ensures samples[c] == reference[c]
    {
    }
    assert samples == reference;
    d' := d.(info := Some(info.(duration := duration)), length := Some(len), samples := Some(samples));
  }

  /** The copy loop of `decode`: frame by frame, channel by channel, value
      `i*n + c` of the live vector goes to position `i` of buffer `c`. */
  method SplitChannels(vec: Vector, n: int, len: int) returns (samples: seq<seq<real>>)
    requires !vec.deleted && n > 0 && len >= 0 && |vec.data| == len * n
    ensures |samples| == n && Rectangular(samples, len)
    ensures (FlatIndexInRange(n, len);
      forall c, i :: 0 <= c < n && 0 <= i < len ==> samples[c][i] == vec.data[FlatIndex(i, c, n)])
  {
    FlatIndexInRange(n, len);
    samples := seq(n, _ => seq(len, _ => 0.0));
    var i := 0;
    while i < len
      invariant 0 <= i <= len
      invariant |samples| == n && Rectangular(samples, len)
      invariant forall c, i' :: 0 <= c < n && 0 <= i' < i ==> samples[c][i'] == vec.data[FlatIndex(i', c, n)]
      invariant forall c, i' :: 0 <= c < n && i <= i' < len ==> samples[c][i'] == 0.0
    {
      FlatIndexInRange(n, len);
      var j := 0;
      while j < n
        invariant 0 <= j <= n
        invariant |samples| == n && Rectangular(samples, len)
        invariant forall c, i' :: 0 <= c < n && 0 <= i' < i ==> samples[c][i'] == vec.data[FlatIndex(i', c, n)]
        invariant forall c :: 0 <= c < j ==> samples[c][i] == vec.data[FlatIndex(i, c, n)]
        invariant forall c :: j <= c < n ==> samples[c][i] == 0.0
        invariant forall c, i' :: 0 <= c < n && i < i' < len ==> samples[c][i'] == 0.0
      {
        Arith.RowMajorBound(i, j, n, len);
        var x := vec.Get(FlatIndex(i, j, n));
        samples := samples[j := samples[j][i := x]];
        j := j + 1;
      }
      i := i + 1;
    }
  }
}
