/**
 * The raw-PCM playback path (services/audioUtils.ts): base64 text to octets,
 * octets to little-endian 16-bit samples, samples split into channels, and the
 * guard that closes the audio context at most once.
 */
module AudioUtils {
  import opened Wrappers
  import opened Base64

  /** The failures playBase64Audio logs and rethrows. */
  datatype AudioError =
    | InvalidBase64        // atob threw InvalidCharacterError
    | OddByteLength        // new Int16Array(buffer) threw RangeError: the buffer is not a whole number of samples
    | BufferNotSupported   // createBuffer threw NotSupportedError: zero channels or zero frames

  /** decodeAudioData's defaults, which its only caller relies on. */
  const DefaultSampleRate: int := 24000
  const DefaultChannels: nat := 1

  /**
   * decode: atob, then one array element per character of the binary string.
   * The element is the character's code; atob only produces codes below 256,
   * so the Uint8Array store (which keeps a value modulo 256) loses nothing.
   */
  method Decode(base64: string) returns (res: Result<array<byte>, AudioError>)
    ensures res.Failure? <==> Atob(base64).Failure?
    ensures res.Failure? ==> res.error == InvalidBase64
    ensures res.Success? ==>
      fresh(res.value) &&
      res.value.Length == |Atob(base64).value| &&
      (forall k :: 0 <= k < res.value.Length ==> res.value[k] as int == Atob(base64).value[k] as int)
    ensures res.Success? ==> res.value[..] == ForgivingDecode(base64).value
  {
    var decoded := Atob(base64);
    if decoded.Failure? {
      return Failure(InvalidBase64);
    }
    var binaryString := decoded.value;
    var len := |binaryString|;
    var bytes := new byte[len];
    for i := 0 to len
      invariant forall k :: 0 <= k < i ==> bytes[k] as int == binaryString[k] as int
    {
      bytes[i] := (binaryString[i] as int % 256) as byte;
    }
    assert bytes[..] == ForgivingDecode(base64).value;
    return Success(bytes);
  }

  /** The signed 16-bit sample stored little-endian in two octets. */
  function Int16At(lo: byte, hi: byte): (s: int)
    ensures -32768 <= s < 32768
  {
    var u := lo as int + 256 * hi as int;
    if u >= 32768 then u - 65536 else u
  }

  /** The two octets, low first, that store a 16-bit sample in two's complement. */
  function Int16Octets(s: int): (o: (byte, byte))
    requires -32768 <= s < 32768
  {
    var u := if s < 0 then s + 65536 else s;
    ((u % 256) as byte, (u / 256) as byte)
  }

  /** Reading a sample back from its octets gives the sample, and the other way round. */
  lemma Int16RoundTrip(s: int, lo: byte, hi: byte)
    requires -32768 <= s < 32768
    ensures Int16At(Int16Octets(s).0, Int16Octets(s).1) == s
    ensures Int16Octets(Int16At(lo, hi)) == (lo, hi)
  {
  }

  /**
   * new Int16Array(data.buffer): the buffer is exactly the decoded octets, so it
   * holds |bytes| / 2 samples, and an odd length throws.
   */
  function Int16View(bytes: seq<byte>): (r: Result<seq<int>, AudioError>)
    ensures r.Success? <==> |bytes| % 2 == 0
    ensures r.Failure? ==> r.error == OddByteLength
    ensures r.Success? ==> |r.value| == |bytes| / 2
    ensures r.Success? ==> forall k :: 0 <= k < |r.value| ==> -32768 <= r.value[k] < 32768
  {
    if |bytes| % 2 != 0 then Failure(OddByteLength)
    else Success(seq(|bytes| / 2, k requires 0 <= k < |bytes| / 2 => Int16At(bytes[2 * k], bytes[2 * k + 1])))
  }

  /** Sample k of the view is stored in octets 2k (low) and 2k+1 (high). */
  lemma Int16ViewAt(bytes: seq<byte>, k: int)
    requires |bytes| % 2 == 0 && 0 <= k < |bytes| / 2
    ensures 2 * k + 1 < |bytes| && Int16View(bytes).value[k] == Int16At(bytes[2 * k], bytes[2 * k + 1])
  {
  }

  ghost predicate IsInt16Seq(s: seq<int>)
  {
    forall k :: 0 <= k < |s| ==> -32768 <= s[k] < 32768
  }

  /** The little-endian octets of a sample sequence: the writer's side of Int16View. */
  function SamplesToOctets(s: seq<int>): (b: seq<byte>)
    requires IsInt16Seq(s)
    ensures |b| == 2 * |s|
    ensures forall k :: 0 <= k < |s| ==> (b[2 * k], b[2 * k + 1]) == Int16Octets(s[k])
  {
    if s == [] then []
    else [Int16Octets(s[0]).0, Int16Octets(s[0]).1] + SamplesToOctets(s[1..])
  }

  /** Int16View reads back exactly the samples that were written. */
  lemma Int16ViewOfOctets(s: seq<int>)
    requires IsInt16Seq(s)
    ensures Int16View(SamplesToOctets(s)) == Success(s)
  {
    var b := SamplesToOctets(s);
    var v := Int16View(b).value;
    assert |b| % 2 == 0;
    assert |v| == |s|;
    forall k | 0 <= k < |s| ensures v[k] == s[k] {
      var lo, hi := b[2 * k], b[2 * k + 1];
      Int16ViewAt(b, k);
      assert (lo, hi) == Int16Octets(s[k]);
      Int16RoundTrip(s[k], 0, 0);
    }
    assert v == s;
  }

  /** Writing back what Int16View read gives the original octets. */
  lemma OctetsOfInt16View(b: seq<byte>)
    requires |b| % 2 == 0
    ensures IsInt16Seq(Int16View(b).value) && SamplesToOctets(Int16View(b).value) == b
  {
    var v := Int16View(b).value;
    var w := SamplesToOctets(v);
    forall j | 0 <= j < |b| ensures w[j] == b[j] {
      var k := j / 2;
      Int16ViewAt(b, k);
      Int16RoundTrip(0, b[2 * k], b[2 * k + 1]);
      assert (w[2 * k], w[2 * k + 1]) == (b[2 * k], b[2 * k + 1]);
    }
  }

  /** When frameCount = n / numChannels, every index the inner loop reads is below n. */
  lemma FrameIndexInBounds(i: int, c: int, n: nat, numChannels: nat)
    requires numChannels >= 1 && 0 <= i < n / numChannels && 0 <= c < numChannels
    ensures 0 <= i * numChannels + c < n
  {
    var f := n / numChannels;
    assert f * numChannels <= n;
    assert i * numChannels <= (f - 1) * numChannels;
    assert (f - 1) * numChannels == f * numChannels - numChannels;
  }

  /**
   * The channel arrays decodeAudioData fills: channel c has n / numChannels frames
   * and frame i of it is interleaved sample i * numChannels + c; samples past the
   * last whole frame are dropped.
   */
  function Deinterleave(samples: seq<int>, numChannels: nat): (channels: seq<seq<int>>)
    requires numChannels >= 1
    ensures |channels| == numChannels
    ensures forall c :: 0 <= c < numChannels ==> |channels[c]| == |samples| / numChannels
  {
    seq(numChannels, c requires 0 <= c < numChannels =>
      seq(|samples| / numChannels, i requires 0 <= i < |samples| / numChannels =>
        FrameIndexInBounds(i, c, |samples|, numChannels);
        samples[i * numChannels + c]))
  }

  /** Frame i of channel c is interleaved sample i * numChannels + c. */
  lemma DeinterleaveAt(samples: seq<int>, numChannels: nat, c: int, i: int)
    requires numChannels >= 1 && 0 <= c < numChannels && 0 <= i < |samples| / numChannels
    ensures i * numChannels + c < |samples|
    ensures Deinterleave(samples, numChannels)[c][i] == samples[i * numChannels + c]
  {
    FrameIndexInBounds(i, c, |samples|, numChannels);
  }

  /** Interleaving: the layout the synthesiser writes, frame by frame. */
  function Interleave(channels: seq<seq<int>>, frames: nat): (s: seq<int>)
    requires forall c :: 0 <= c < |channels| ==> |channels[c]| == frames
    ensures |s| == frames * |channels|
  {
    if |channels| == 0 then []
    else
      var n := |channels|;
      seq(frames * n, k requires 0 <= k < frames * n =>
        FrameOfIndexInBounds(k, frames, n);
        channels[k % n][k / n])
  }

  lemma FrameOfIndexInBounds(k: int, frames: nat, n: nat)
    requires n >= 1 && 0 <= k < frames * n
    ensures 0 <= k / n < frames
  {
  }

  /** Sample k of an interleaving is frame k / n of channel k % n. */
  lemma InterleaveAt(channels: seq<seq<int>>, frames: nat, k: int)
    requires |channels| >= 1
    requires forall c :: 0 <= c < |channels| ==> |channels[c]| == frames
    requires 0 <= k < frames * |channels|
    ensures 0 <= k / |channels| < frames
    ensures Interleave(channels, frames)[k] == channels[k % |channels|][k / |channels|]
  {
    FrameOfIndexInBounds(k, frames, |channels|);
  }

  /** Quotient and remainder rebuild the index. */
  lemma DivModRebuild(k: nat, n: nat)
    requires n >= 1
    ensures (k / n) * n + k % n == k
  {
  }

  /** One sample of the round trip below. */
  lemma InterleaveDeinterleaveAt(samples: seq<int>, numChannels: nat, k: int)
    requires numChannels >= 1
    requires 0 <= k < |samples| / numChannels * numChannels
    ensures Interleave(Deinterleave(samples, numChannels), |samples| / numChannels)[k] == samples[k]
  {
    var frames := |samples| / numChannels;
    var ch := Deinterleave(samples, numChannels);
    InterleaveAt(ch, frames, k);
    DeinterleaveAt(samples, numChannels, k % numChannels, k / numChannels);
    DivModRebuild(k, numChannels);
  }

  /** Interleaving the channels again gives the samples up to the last whole frame. */
  lemma InterleaveDeinterleave(samples: seq<int>, numChannels: nat)
    requires numChannels >= 1
    ensures Interleave(Deinterleave(samples, numChannels), |samples| / numChannels)
              == samples[..|samples| / numChannels * numChannels]
  {
    var frames := |samples| / numChannels;
    var s := Interleave(Deinterleave(samples, numChannels), frames);
    assert frames * numChannels <= |samples|;
    var prefix := samples[..frames * numChannels];
    assert |s| == |prefix|;
    forall k | 0 <= k < |s| ensures s[k] == prefix[k] {
      InterleaveDeinterleaveAt(samples, numChannels, k);
    }
  }

  /** With the default single channel the frames are the samples, unchanged. */
  lemma MonoDeinterleave(samples: seq<int>)
    ensures Deinterleave(samples, 1) == [samples]
  {
    var ch := Deinterleave(samples, 1);
    assert |ch| == 1 && |ch[0]| == |samples|;
    forall i | 0 <= i < |samples| ensures ch[0][i] == samples[i] {
      DeinterleaveAt(samples, 1, 0, i);
      assert i * 1 + 0 == i;
    }
    assert ch[0] == samples;
  }

  /** createBuffer (Web Audio API) throws NotSupportedError for zero channels or zero frames. */
  predicate CreateBufferSupported(numChannels: nat, frameCount: nat)
  {
    numChannels >= 1 && frameCount >= 1
  }

  /** What decodeAudioData puts in the buffer's channels, or the error it throws. */
  function DecodePcm(bytes: seq<byte>, numChannels: nat): (r: Result<seq<seq<int>>, AudioError>)
    ensures r.Failure? <==>
      |bytes| % 2 != 0 || numChannels == 0 || !CreateBufferSupported(numChannels, |bytes| / 2 / numChannels)
    ensures r.Failure? ==> r.error == if |bytes| % 2 != 0 then OddByteLength else BufferNotSupported
  {
    match Int16View(bytes)
    case Failure(e) => Failure(e)
    case Success(samples) =>
      if numChannels == 0 || !CreateBufferSupported(numChannels, |samples| / numChannels) then
        Failure(BufferNotSupported)
      else
        Success(Deinterleave(samples, numChannels))
  }

  /** The buffer createBuffer returns: numberOfChannels channels of length frames, all zero. */
  class AudioBuffer {
    const sampleRate: int
    const numberOfChannels: nat
    const length: nat
    const channelData: array2<int>

    constructor (numberOfChannels: nat, length: nat, sampleRate: int)
      ensures this.numberOfChannels == numberOfChannels && this.length == length && this.sampleRate == sampleRate
      ensures fresh(channelData)
      ensures channelData.Length0 == numberOfChannels && channelData.Length1 == length
      ensures forall c, i :: 0 <= c < numberOfChannels && 0 <= i < length ==> channelData[c, i] == 0
    {
      this.numberOfChannels := numberOfChannels;
      this.length := length;
      this.sampleRate := sampleRate;
      channelData := new int[numberOfChannels, length]((_, _) => 0);
    }
  }

  /** The channel contents of a buffer, as sequences. */
  function ChannelsOf(a: array2<int>): (channels: seq<seq<int>>)
    reads a
    ensures |channels| == a.Length0
    ensures forall c :: 0 <= c < a.Length0 ==> |channels[c]| == a.Length1
  {
    seq(a.Length0, c requires 0 <= c < a.Length0 reads a =>
      seq(a.Length1, i requires 0 <= i < a.Length1 reads a => a[c, i]))
  }

  /**
   * decodeAudioData: view the octets as 16-bit samples, create a buffer of
   * n / numChannels frames and fill channel by channel, frame by frame.
   * Samples are kept as integers; the source divides each by 32768.
   */
  method DecodeAudioData(data: array<byte>, sampleRate: int, numChannels: nat)
    returns (res: Result<AudioBuffer, AudioError>)
    ensures res.Failure? <==> DecodePcm(data[..], numChannels).Failure?
    ensures res.Failure? ==> res.error == DecodePcm(data[..], numChannels).error
    ensures res.Success? ==>
      var buffer := res.value;
      var samples := Int16View(data[..]).value;
      && fresh(buffer) && fresh(buffer.channelData)
      && buffer.sampleRate == sampleRate
      && buffer.numberOfChannels == numChannels
      && buffer.length == |samples| / numChannels
      && buffer.channelData.Length0 == numChannels
      && buffer.channelData.Length1 == buffer.length
      && ChannelsOf(buffer.channelData) == Deinterleave(samples, numChannels)
      && ChannelsOf(buffer.channelData) == DecodePcm(data[..], numChannels).value
  {
    var view := Int16View(data[..]);
    if view.Failure? {
      return Failure(view.error);
    }
    var samples := view.value;
    if numChannels == 0 {
      return Failure(BufferNotSupported);
    }
    var frameCount := |samples| / numChannels;
    if !CreateBufferSupported(numChannels, frameCount) {
      return Failure(BufferNotSupported);
    }
    var buffer := new AudioBuffer(numChannels, frameCount, sampleRate);
    var channelData := buffer.channelData;
    ghost var expected := Deinterleave(samples, numChannels);
    for channel := 0 to numChannels
      invariant forall c, i :: 0 <= c < channel && 0 <= i < frameCount ==> channelData[c, i] == expected[c][i]
    {
      for i := 0 to frameCount
        invariant forall c, j :: 0 <= c < channel && 0 <= j < frameCount ==> channelData[c, j] == expected[c][j]
        invariant forall j :: 0 <= j < i ==> channelData[channel, j] == expected[channel][j]
      {
        DeinterleaveAt(samples, numChannels, channel, i);
        channelData[channel, i] := samples[i * numChannels + channel];
      }
    }
    forall c | 0 <= c < numChannels ensures ChannelsOf(channelData)[c] == expected[c] {
    }
    return Success(buffer);
  }

  /** What playBase64Audio schedules for playback, or the error it rethrows. */
  function DecodeBase64Pcm(base64: string, numChannels: nat): (r: Result<seq<seq<int>>, AudioError>)
    ensures ForgivingDecode(base64).Failure? ==> r == Failure(InvalidBase64)
    ensures ForgivingDecode(base64).Success? ==> r == DecodePcm(ForgivingDecode(base64).value, numChannels)
  {
    match ForgivingDecode(base64)
    case Failure(_) => Failure(InvalidBase64)
    case Success(bytes) => DecodePcm(bytes, numChannels)
  }

  /** End to end: the base64 encoding of any non-empty run of 16-bit samples plays back as exactly those samples. */
  lemma PlaysBackEncodedSamples(samples: seq<int>)
    requires IsInt16Seq(samples) && |samples| > 0
    ensures DecodeBase64Pcm(Encode(SamplesToOctets(samples)), DefaultChannels) == Success([samples])
  {
    var octets := SamplesToOctets(samples);
    DecodeEncode(octets);
    Int16ViewOfOctets(samples);
    MonoDeinterleave(samples);
  }

  /** With the defaults, decoding succeeds exactly for a non-empty even number of octets. */
  lemma MonoDecodeSucceeds(bytes: seq<byte>)
    ensures DecodePcm(bytes, DefaultChannels).Success? <==> |bytes| % 2 == 0 && |bytes| >= 2
    ensures DecodePcm(bytes, DefaultChannels).Success? ==>
      DecodePcm(bytes, DefaultChannels).value == [Int16View(bytes).value]
  {
    if |bytes| % 2 == 0 {
      MonoDeinterleave(Int16View(bytes).value);
    }
  }

  datatype ContextState = Suspended | Running | Closed

  /** An audio context as far as its release is concerned. */
  class AudioContext {
    const sampleRate: int
    var state: ContextState
    /** How many times close() has been issued on this context. */
    var closeCalls: nat

    constructor (sampleRate: int, initial: ContextState)
      requires initial != Closed
      ensures this.sampleRate == sampleRate && state == initial && closeCalls == 0
    {
      this.sampleRate := sampleRate;
      state := initial;
      closeCalls := 0;
    }

    /** close(): releases the context; on a closed context it would reject. */
    method Close()
      requires state != Closed
      modifies this
      ensures state == Closed && closeCalls == old(closeCalls) + 1
    {
      state := Closed;
      closeCalls := closeCalls + 1;
    }

    /** The timer callback after playback ends: close only if not already closed. */
    method CloseIfNotClosed()
      modifies this
      ensures state == Closed
      ensures closeCalls == old(closeCalls) + if old(state) == Closed then 0 else 1
    {
      if state != Closed {
        Close();
      }
    }
  }

  /** Two racing release callbacks close the context once: the second is a no-op. */
  method ReleaseTwice(ctx: AudioContext)
    modifies ctx
    ensures ctx.state == Closed
    ensures ctx.closeCalls == old(ctx.closeCalls) + if old(ctx.state) == Closed then 0 else 1
  {
    ctx.CloseIfNotClosed();
    ghost var once := ctx.closeCalls;
    ctx.CloseIfNotClosed();
    assert ctx.closeCalls == once;
  }

  /**
   * playBase64Audio: create a 24 kHz context, decode, build the buffer with the
   * default rate and channel count. Any failure is rethrown with nothing built;
   * the context created first is then left open. Scheduling the source and the
   * end-of-playback timer are not modelled here; the timer runs CloseIfNotClosed.
   */
  method PlayBase64Audio(base64Audio: string, initial: ContextState)
    returns (ctx: AudioContext, res: Result<AudioBuffer, AudioError>)
    requires initial != Closed
    ensures fresh(ctx) && ctx.sampleRate == DefaultSampleRate
    ensures ctx.state == initial && ctx.closeCalls == 0
    ensures res.Failure? <==> DecodeBase64Pcm(base64Audio, DefaultChannels).Failure?
    ensures res.Failure? ==> res.error == DecodeBase64Pcm(base64Audio, DefaultChannels).error
    ensures res.Success? ==>
      && fresh(res.value)
      && res.value.sampleRate == DefaultSampleRate
      && res.value.numberOfChannels == DefaultChannels
      && res.value.channelData.Length0 == DefaultChannels
      && res.value.length == res.value.channelData.Length1
      && ChannelsOf(res.value.channelData) == DecodeBase64Pcm(base64Audio, DefaultChannels).value
  {
    ctx := new AudioContext(DefaultSampleRate, initial);
    var audioBytes := Decode(base64Audio);
    if audioBytes.Failure? {
      return ctx, Failure(audioBytes.error);
    }
    res := DecodeAudioData(audioBytes.value, DefaultSampleRate, DefaultChannels);
  }
}
