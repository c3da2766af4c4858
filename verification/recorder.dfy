/** AudioRecorder.kt: the older detector that feeds a one-second window of 16-bit
    audio, stored as 16000 floats in a direct ByteBuffer, to a single classifier, and
    the byte-level helpers that class carries. */
module Recorder {
  import opened Windows
  import opened Smoothing
  import opened Debounce
  import opened Pcm
  import opened NioBuffer

  const MaxSize: nat := 7            // scores averaged by addScore
  const Cooldown: nat := 48          // patience set by a detection
  const Threshold: real := 0.9       // averaged confidence needed to detect
  const WindowBytes: nat := 64000    // 16000 floats of 4 bytes
  const HeaderSize: nat := 44        // canonical WAV header
  const ClipBytes: nat := 32000      // one second of 16-bit audio at 16 kHz

  /** The classifier's output vector; channel 1 is the keyword confidence. */
  type Prediction = s: seq<real> | |s| >= 2
    witness [0.0, 0.0]

  // ---------------------------------------------------------------------------
  // Patience

  /** The patience logic of one processed frame: the threshold test comes first
      and adds 48 to a zero patience; otherwise a positive patience counts down. */
  function DebounceStep(patience: nat, averaged: real): (s: Step)
    ensures StepOk(patience, s, Cooldown)
    ensures s.detected <==> patience == 0 && averaged > Threshold
  {
    if averaged > Threshold && patience == 0 then Step(patience + Cooldown, true)
    else if patience > 0 then Step(patience - 1, false)
    else Step(patience, false)
  }

  /** A frame's decision from its averaged confidence. */
  const Decide: (nat, real) -> Step := (patience: nat, averaged: real) => DebounceStep(patience, averaged)

  /** The steps of a listening loop that starts with patience 0, one per frame whose
      read returned samples. */
  function History(averages: seq<real>): (steps: seq<Step>)
    ensures |steps| == |averages|
  {
    Run(0, averages, Decide)
  }

  /** Every frame of such a loop obeys the patience rule with a cooldown of 48. */
  lemma HistoryFollows(averages: seq<real>)
    ensures Follows(0, History(averages), Cooldown)
  {
    assert forall p: nat, a: real :: StepOk(p, Decide(p, a), Cooldown);
    RunFollows(0, averages, Decide, Cooldown);
  }

  /** Two detections are at least 49 frames apart. */
  lemma DetectionsAtLeast49Apart(averages: seq<real>, i: nat, j: nat)
    requires i < j < |averages|
    requires History(averages)[i].detected && History(averages)[j].detected
    ensures j - i >= Cooldown + 1
  {
    HistoryFollows(averages);
    DetectionsApart(0, History(averages), Cooldown, i, j);
  }

  /** Patience stays within 0 .. 48 throughout. */
  lemma PatienceWithinCooldown(averages: seq<real>, k: nat)
    requires k <= |averages|
    ensures Before(0, History(averages), k) <= Cooldown
  {
    HistoryFollows(averages);
    PatienceBounded(0, History(averages), Cooldown, k);
  }

  // ---------------------------------------------------------------------------
  // Score smoothing

  /** The latest n elements lie within any bounds of the whole stream. */
  lemma LatestWithin(s: seq<real>, n: nat, lo: real, hi: real)
    requires n <= |s|
    requires forall i :: 0 <= i < |s| ==> lo <= s[i] <= hi
    ensures forall i :: 0 <= i < n ==> lo <= Latest(s, n)[i] <= hi
  {
    forall i | 0 <= i < n
      ensures lo <= Latest(s, n)[i] <= hi
    {
      assert Latest(s, n)[i] == s[|s| - n + i];
    }
  }

  /** The averaged confidence after any stream of scores is the mean of the (at
      most) seven most recent ones, and lies within their bounds. */
  lemma AverageOfLatestSeven(scores: seq<real>, lo: real, hi: real)
    requires scores != []
    requires forall i :: 0 <= i < |scores| ==> lo <= scores[i] <= hi
    ensures PushAll([], scores, MaxSize) == Latest(scores, Min(MaxSize, |scores|))
    ensures lo <= Mean(PushAll([], scores, MaxSize)) <= hi
  {
    PushAllFromEmptyKeepsLatest(scores, MaxSize);
    var n := Min(MaxSize, |scores|);
    LatestWithin(scores, n, lo, hi);
    MeanWithin(Latest(scores, n), lo, hi);
  }

  // ---------------------------------------------------------------------------
  // Byte-level helpers

  /** trimHeader: inputs longer than 32043 bytes lose their first 44 bytes and are
      cut to 32000; shorter ones are cut or zero-padded to 32000 as they are. */
  function TrimHeader(b: seq<Byte>): (r: seq<Byte>)
    ensures |r| == ClipBytes
    ensures |b| > 32043 ==> forall i :: 0 <= i < ClipBytes ==> r[i] == b[HeaderSize + i]
    ensures |b| <= 32043 ==> forall i :: 0 <= i < ClipBytes ==> r[i] == if i < |b| then b[i] else 0
  {
    if |b| > 32043 then b[HeaderSize..HeaderSize + ClipBytes]
    else if |b| >= ClipBytes then b[..ClipBytes]
    else b + seq(ClipBytes - |b|, _ => 0)
  }

  /** A WAV file with at least one second of audio yields its first second of
      samples, the header dropped. */
  lemma TrimHeaderOfWav(header: seq<Byte>, payload: seq<Byte>)
    requires |header| == HeaderSize && |payload| >= ClipBytes
    ensures TrimHeader(header + payload) == payload[..ClipBytes]
  {
    assert (header + payload)[HeaderSize..HeaderSize + ClipBytes] == payload[..ClipBytes];
  }

  /** A WAV file with less than one second of audio is not trimmed: its 44 header
      bytes stay at the front of the clip, the payload follows them (cut at 32000
      bytes in all) and zeros pad the rest. */
  lemma TrimHeaderOfShortWav(header: seq<Byte>, payload: seq<Byte>)
    requires |header| == HeaderSize && |payload| < ClipBytes
    ensures TrimHeader(header + payload)[..HeaderSize] == header
    ensures forall i :: 0 <= i < |payload| && HeaderSize + i < ClipBytes ==>
      TrimHeader(header + payload)[HeaderSize + i] == payload[i]
    ensures forall i :: HeaderSize + |payload| <= i < ClipBytes ==> TrimHeader(header + payload)[i] == 0
  {
    var b := header + payload;
    assert TrimHeader(b)[..HeaderSize] == b[..HeaderSize];
  }

  /** A raw clip of exactly one second, with no header, passes unchanged. */
  lemma TrimHeaderOfClip(b: seq<Byte>)
    requires |b| == ClipBytes
    ensures TrimHeader(b) == b
  {
  }

  /** byteArrayToFloatArray: the whole 4-byte words of the array read as
      little-endian floats; trailing bytes that do not fill a word are ignored. */
  function ByteArrayToFloatArray(byteArray: seq<Byte>, decode: Word -> real): (r: seq<real>)
    ensures |r| == |byteArray| / 4
  {
    DecodeFloats(byteArray[..|byteArray| / 4 * 4], decode)
  }

  /** Floats that the reader recovers from their written words read back unchanged,
      in order. */
  lemma FloatArrayRoundTrip(xs: seq<real>, encode: real -> Word, decode: Word -> real)
    requires forall x :: x in xs ==> decode(encode(x)) == x
    ensures ByteArrayToFloatArray(EncodeFloats(xs, encode), decode) == xs
  {
    var b := EncodeFloats(xs, encode);
    assert b[..|b| / 4 * 4] == b;
    EncodeDecodeFloats(xs, encode, decode);
  }

  /** A binary digit character. */
  function Digit(bit: nat): char
    requires bit < 2
  {
    if bit == 0 then '0' else '1'
  }

  /** `Int.toString(2)` on a non-negative value: its binary digits without leading
      zeros, "0" for zero. */
  function ToBinary(n: nat): (s: string)
    ensures |s| >= 1
    decreases n
  {
    if n < 2 then [Digit(n)] else ToBinary(n / 2) + [Digit(n % 2)]
  }

  /** `padStart(length, pad)`. */
  function PadStart(s: string, length: nat, pad: char): (r: string)
    ensures |r| == if |s| >= length then |s| else length
  {
    if |s| >= length then s else seq(length - |s|, _ => pad) + s
  }

  /** One byte of byteArrayToBits: its unsigned value in binary, padded to 8. */
  function ByteBits(b: Byte): (r: string)
    ensures |r| == 8
  {
    assert Pow2(8) == 256;
    ToBinaryLength(Unsigned(b), 8);
    PadStart(ToBinary(Unsigned(b)), 8, '0')
  }

  /** byteArrayToBits: the bytes' 8-character blocks joined without separator. */
  function ByteArrayToBits(bytes: seq<Byte>): (r: string)
    ensures |r| == 8 * |bytes|
  {
    if bytes == [] then "" else ByteArrayToBits(bytes[..|bytes| - 1]) + ByteBits(bytes[|bytes| - 1])
  }

  /** The value of a string of binary digits, most significant first. */
  function BinaryValue(s: string): nat
  {
    if s == [] then 0 else 2 * BinaryValue(s[..|s| - 1]) + (if s[|s| - 1] == '1' then 1 else 0)
  }

  function Pow2(k: nat): nat
  {
    if k == 0 then 1 else 2 * Pow2(k - 1)
  }

  /** A value below 2^k has at most k binary digits. */
  lemma {:induction false} ToBinaryLength(n: nat, k: nat)
    requires 1 <= k && n < Pow2(k)
    ensures |ToBinary(n)| <= k
    decreases n
  {
    if n >= 2 {
      ToBinaryLength(n / 2, k - 1);
    }
  }

  /** Reading the binary digits of n gives n back. */
  lemma {:induction false} ToBinaryValue(n: nat)
    ensures BinaryValue(ToBinary(n)) == n
    decreases n
  {
    if n >= 2 {
      ToBinaryValue(n / 2);
      var s := ToBinary(n);
      assert s[..|s| - 1] == ToBinary(n / 2);
    }
  }

  /** Every character of ToBinary(n) is a binary digit. */
  lemma {:induction false} ToBinaryDigits(n: nat)
    ensures forall i :: 0 <= i < |ToBinary(n)| ==> ToBinary(n)[i] in "01"
    decreases n
  {
    if n >= 2 {
      ToBinaryDigits(n / 2);
    }
  }

  /** A string of '0's has value 0. */
  lemma {:induction false} ZerosValue(z: string)
    requires forall i :: 0 <= i < |z| ==> z[i] == '0'
    ensures BinaryValue(z) == 0
  {
    if z != [] {
      ZerosValue(z[..|z| - 1]);
    }
  }

  /** Leading '0's do not change a binary value. */
  lemma {:induction false} LeadingZeros(z: string, s: string)
    requires forall i :: 0 <= i < |z| ==> z[i] == '0'
    ensures BinaryValue(z + s) == BinaryValue(s)
  {
    if s == [] {
      assert z + s == z;
      ZerosValue(z);
    } else {
      LeadingZeros(z, s[..|s| - 1]);
      assert (z + s)[..|z + s| - 1] == z + s[..|s| - 1];
    }
  }

  /** Each byte's block has 8 binary digits whose value is the unsigned byte. */
  lemma ByteBitsValue(b: Byte)
    ensures |ByteBits(b)| == 8
    ensures BinaryValue(ByteBits(b)) == Unsigned(b)
    ensures forall i :: 0 <= i < 8 ==> ByteBits(b)[i] in "01"
  {
    var t := ToBinary(Unsigned(b));
    assert Pow2(8) == 256;
    ToBinaryLength(Unsigned(b), 8);
    ToBinaryValue(Unsigned(b));
    ToBinaryDigits(Unsigned(b));
    var z := seq(8 - |t|, _ => '0');
    assert ByteBits(b) == z + t;
    LeadingZeros(z, t);
  }

  /** The output has 8 characters per byte, and block k is byte k's block. */
  lemma {:induction false} ByteArrayToBitsBlocks(bytes: seq<Byte>, k: nat)
    requires k < |bytes|
    ensures ByteArrayToBits(bytes)[8 * k..8 * k + 8] == ByteBits(bytes[k])
    decreases |bytes|
  {
    var init := bytes[..|bytes| - 1];
    if k < |bytes| - 1 {
      ByteArrayToBitsBlocks(init, k);
      assert ByteArrayToBits(bytes)[..8 * |init|] == ByteArrayToBits(init);
    }
  }

  /** Reading block k of the bit string back as binary gives the unsigned byte k. */
  lemma ByteArrayToBitsRoundTrip(bytes: seq<Byte>, k: nat)
    requires k < |bytes|
    ensures BinaryValue(ByteArrayToBits(bytes)[8 * k..8 * k + 8]) == Unsigned(bytes[k])
  {
    ByteArrayToBitsBlocks(bytes, k);
    ByteBitsValue(bytes[k]);
  }

  /** isBufferZeroed: true exactly when every byte below the limit is 0, scanning
      with absolute gets and stopping at the first non-zero byte. */
  method IsBufferZeroed(buffer: ByteBuf) returns (zeroed: bool)
    requires buffer.Valid()
    ensures zeroed <==> forall i :: 0 <= i < buffer.limit ==> buffer.data[i] == 0
  {
    var i := 0;
    while i < buffer.limit
      invariant 0 <= i <= buffer.limit
      invariant forall k :: 0 <= k < i ==> buffer.data[k] == 0
    {
      if buffer.data[i] != 0 {
        return false;
      }
      i := i + 1;
    }
    return true;
  }

  /** Normalising one more sample appends its word to the encoding. */
  lemma PreprocessStep(audio: seq<Short>, i: nat, encode: real -> Word)
    requires i < |audio|
    ensures EncodeFloats(Normalized(audio[..i + 1]), encode)
      == EncodeFloats(Normalized(audio[..i]), encode) + encode(Normalize(audio[i]))
  {
    assert Normalized(audio[..i + 1]) == Normalized(audio[..i]) + [Normalize(audio[i])];
    EncodeFloatsSnoc(Normalized(audio[..i]), Normalize(audio[i]), encode);
  }

  /** Decoding and normalising one more byte pair appends its word to the encoding. */
  lemma ConvertStep(b: seq<Byte>, k: nat, encode: real -> Word)
    requires 2 * k + 2 <= |b|
    ensures EncodeFloats(Normalized(Samples(b, k + 1)), encode)
      == EncodeFloats(Normalized(Samples(b, k)), encode) + encode(Normalize(Int16LE(b[2 * k], b[2 * k + 1])))
  {
    SamplesSnoc(b, k);
    var x := Normalize(Int16LE(b[2 * k], b[2 * k + 1]));
    assert Normalized(Samples(b, k + 1)) == Normalized(Samples(b, k)) + [x];
    EncodeFloatsSnoc(Normalized(Samples(b, k)), x, encode);
  }

  /** preprocessAudio: a fresh buffer of 4 bytes per sample holding sample / 32768
      for every sample in order, rewound for reading. */
  method PreprocessAudio(audioBuffer: seq<Short>, encode: real -> Word) returns (out: ByteBuf)
    ensures fresh(out) && fresh(out.data) && out.Valid()
    ensures out.data.Length == 4 * |audioBuffer| && out.position == 0 && out.limit == out.data.Length
    ensures out.data[..] == EncodeFloats(Normalized(audioBuffer), encode)
  {
    out := new ByteBuf.Allocate(4 * |audioBuffer|);
    var i := 0;
    while i < |audioBuffer|
      invariant 0 <= i <= |audioBuffer|
      invariant fresh(out) && fresh(out.data) && out.Valid()
      invariant out.data.Length == 4 * |audioBuffer| && out.position == 4 * i && out.limit == out.data.Length
      invariant out.data[..out.position] == EncodeFloats(Normalized(audioBuffer[..i]), encode)
    {
      out.PutFloat(Normalize(audioBuffer[i]), encode);
      PreprocessStep(audioBuffer, i, encode);
      i := i + 1;
    }
    assert audioBuffer[..i] == audioBuffer;
    assert out.data[..] == out.data[..out.position];
    out.Rewind();
  }

  /** The loop of convertByteArrayToFloat32Buffer: for i = 0, 2, 4, ... the pair at
      i, i + 1 is decoded, normalised and put. At an odd length the last i has no
      partner byte and reading it throws (ok false) after the complete pairs. */
  method PutSamples(byteArray: seq<Byte>, floatBuffer: ByteBuf, encode: real -> Word) returns (ok: bool)
    requires floatBuffer.Valid() && floatBuffer.position == 0
    requires floatBuffer.limit == floatBuffer.data.Length == |byteArray| / 2 * 4
    modifies floatBuffer, floatBuffer.data
    ensures floatBuffer.Valid() && floatBuffer.limit == old(floatBuffer.limit)
    ensures ok <==> |byteArray| % 2 == 0
    ensures ok ==> floatBuffer.data[..] == EncodeFloats(Normalized(Samples(byteArray, |byteArray| / 2)), encode)
  {
    var half := |byteArray| / 2;
    var k := 0;
    while k < half
      invariant k <= half
      invariant floatBuffer.Valid() && floatBuffer.limit == floatBuffer.data.Length == half * 4
      invariant floatBuffer.position == 4 * k
      invariant floatBuffer.data[..4 * k] == EncodeFloats(Normalized(Samples(byteArray, k)), encode)
    {
      var sample := Int16LE(byteArray[2 * k], byteArray[2 * k + 1]);
      floatBuffer.PutFloat(Normalize(sample), encode);
      ConvertStep(byteArray, k, encode);
      k := k + 1;
    }
    if 2 * half < |byteArray| {
      // the last index has no partner byte: reading it throws
      return false;
    }
    assert floatBuffer.data[..] == floatBuffer.data[..4 * k];
    return true;
  }

  /** convertByteArrayToFloat32Buffer: each little-endian byte pair decoded as a
      signed 16-bit sample and written as sample / 32768, into a fresh rewound buffer
      of size / 2 * 4 bytes. An odd length throws (None). */
  method ConvertByteArrayToFloat32Buffer(byteArray: seq<Byte>, encode: real -> Word) returns (result: Option<ByteBuf>)
    ensures result.None? <==> |byteArray| % 2 == 1
    ensures result.Some? ==>
      var out := result.value;
      fresh(out) && fresh(out.data) && out.Valid() &&
      out.data.Length == |byteArray| / 2 * 4 && out.position == 0 && out.limit == out.data.Length &&
      out.data[..] == EncodeFloats(Normalized(Samples(byteArray, |byteArray| / 2)), encode)
  {
    var floatBuffer := new ByteBuf.Allocate(|byteArray| / 2 * 4);
    var ok := PutSamples(byteArray, floatBuffer, encode);
    if !ok {
      return None;
    }
    floatBuffer.Rewind();
    return Some(floatBuffer);
  }

  /** convertByteArrayToFloat16Buffer: the same conversion (the source body is a
      copy of the Float32 one). */
  method ConvertByteArrayToFloat16Buffer(byteArray: seq<Byte>, encode: real -> Word) returns (result: Option<ByteBuf>)
    ensures result.None? <==> |byteArray| % 2 == 1
    ensures result.Some? ==>
      var out := result.value;
      fresh(out) && fresh(out.data) && out.Valid() &&
      out.data.Length == |byteArray| / 2 * 4 && out.position == 0 && out.limit == out.data.Length &&
      out.data[..] == EncodeFloats(Normalized(Samples(byteArray, |byteArray| / 2)), encode)
  {
    result := ConvertByteArrayToFloat32Buffer(byteArray, encode);
  }

  /** The window contents after updateBuffer's two puts: the tail before[n..lim]
      written at the front, then the incoming bytes. When exactly n bytes come in,
      the first lim bytes are the old first lim shifted left by n with the new bytes
      appended. */
  lemma TailThenIncoming(before: seq<Byte>, lim: nat, n: nat, incoming: seq<Byte>, kept: seq<Byte>, after: seq<Byte>)
    requires n <= lim <= |before| && lim - n + |incoming| <= |before|
    requires kept == before[n..lim] + before[lim - n..]
    requires after == kept[..lim - n] + incoming + kept[lim - n + |incoming|..]
    ensures after == before[n..lim] + incoming + before[lim - n + |incoming|..]
    ensures |incoming| == n ==> after[..lim] == ShiftAppend(before[..lim], incoming)
  {
    assert kept[..lim - n] == before[n..lim];
    assert kept[lim - n + |incoming|..] == before[lim - n + |incoming|..];
    if |incoming| == n {
      assert after[..lim] == before[n..lim] + incoming;
      assert before[..lim][n..] == before[n..lim];
    }
  }

  // ---------------------------------------------------------------------------
  // The recorder

  class AudioRecorder {
    /** The classifier's input window: 64000 bytes, 16000 native-order floats. */
    const inputBuffer: ByteBuf
    var scoreQueue: seq<real>

    ghost predicate Valid()
      reads this, inputBuffer
    {
      inputBuffer.Valid() && inputBuffer.data.Length == WindowBytes && |scoreQueue| <= MaxSize
    }

    constructor()
      ensures Valid() && fresh(inputBuffer) && fresh(inputBuffer.data)
      ensures inputBuffer.position == 0 && inputBuffer.limit == WindowBytes
      ensures forall i :: 0 <= i < WindowBytes ==> inputBuffer.data[i] == 0
      ensures scoreQueue == []
    {
      inputBuffer := new ByteBuf.Allocate(WindowBytes);
      scoreQueue := [];
    }

    /** addScore: evict the oldest score when seven are held, append, and return the
        mean of the held scores. */
    method AddScore(newScore: real) returns (average: real)
      requires Valid()
      modifies this
      ensures Valid()
      ensures scoreQueue == PushScore(old(scoreQueue), newScore, MaxSize)
      ensures |scoreQueue| == Min(MaxSize, |old(scoreQueue)| + 1)
      ensures scoreQueue != [] && average == Mean(scoreQueue)
    {
      scoreQueue := PushScore(scoreQueue, newScore, MaxSize);
      average := Mean(scoreQueue);
    }

    /** The first half of updateBuffer: move the position to n (throwing, ok
        false, when n is past the limit), read the bytes from there to the limit,
        and clear. */
    method TakeTail(n: nat) returns (ok: bool, remainingData: seq<Byte>)
      requires Valid()
      modifies inputBuffer
      ensures Valid()
      ensures ok <==> n <= old(inputBuffer.limit)
      ensures !ok ==> unchanged(inputBuffer)
      ensures ok ==>
        remainingData == old(inputBuffer.data[n..inputBuffer.limit]) &&
        inputBuffer.position == 0 && inputBuffer.limit == WindowBytes
    {
      ok := inputBuffer.SetPosition(n);
      if !ok {
        return false, [];
      }
      remainingData := inputBuffer.Get(inputBuffer.Remaining());
      inputBuffer.Clear();
    }

    /** updateBuffer: the tail of the window from the new data's capacity n up to
        the limit moves to the front, the new data's readable bytes follow it, and
        the buffer is flipped for reading. When n is past the limit, positioning
        throws before anything changes (ok false). */
    method UpdateBuffer(newAudioData: ByteBuf) returns (ok: bool)
      requires Valid() && newAudioData.Valid()
      requires newAudioData != inputBuffer && newAudioData.data != inputBuffer.data
      modifies inputBuffer, inputBuffer.data, newAudioData
      ensures Valid() && newAudioData.Valid()
      ensures ok <==> newAudioData.data.Length <= old(inputBuffer.limit)
      ensures !ok ==> unchanged(inputBuffer, inputBuffer.data, newAudioData)
      ensures ok ==>
        inputBuffer.position == 0 &&
        inputBuffer.limit == old(inputBuffer.limit) - newAudioData.data.Length + old(newAudioData.Remaining()) &&
        inputBuffer.data[..] ==
          old(inputBuffer.data[newAudioData.data.Length..inputBuffer.limit]) + old(newAudioData.Readable()) +
          old(inputBuffer.data[inputBuffer.limit - newAudioData.data.Length + newAudioData.Remaining()..]) &&
        newAudioData.position == newAudioData.limit == old(newAudioData.limit) &&
        newAudioData.data[..] == old(newAudioData.data[..])
      ensures ok && old(newAudioData.position) == 0 && old(newAudioData.limit) == newAudioData.data.Length ==>
        inputBuffer.limit == old(inputBuffer.limit) &&
        inputBuffer.data[..inputBuffer.limit] == ShiftAppend(old(inputBuffer.data[..inputBuffer.limit]), newAudioData.data[..])
    {
      var n := newAudioData.data.Length;
      ghost var before := inputBuffer.data[..];
      ghost var lim := inputBuffer.limit;
      ghost var incoming := newAudioData.Readable();
      var remainingData;
      ok, remainingData := TakeTail(n);
      if !ok {
        return;
      }
      inputBuffer.Put(remainingData);
      ghost var kept := inputBuffer.data[..];
      inputBuffer.PutBuffer(newAudioData);
      TailThenIncoming(before, lim, n, incoming, kept, inputBuffer.data[..]);
      inputBuffer.Flip();
    }

    /** The two buffer steps of a frame: preprocessAudio on the samples read, then
        updateBuffer with the result. The window's bytes shift left by the new
        bytes, which are appended; ok is false (the update throws) when the new data
        is longer than the window's limit. */
    method AppendAudio(audioBuffer: seq<Short>, encode: real -> Word) returns (ok: bool)
      requires Valid()
      modifies inputBuffer, inputBuffer.data
      ensures Valid()
      ensures ok <==> 4 * |audioBuffer| <= old(inputBuffer.limit)
      ensures !ok ==> unchanged(inputBuffer, inputBuffer.data)
      ensures ok ==>
        inputBuffer.position == 0 && inputBuffer.limit == old(inputBuffer.limit) &&
        inputBuffer.data[..inputBuffer.limit] ==
          ShiftAppend(old(inputBuffer.data[..inputBuffer.limit]), EncodeFloats(Normalized(audioBuffer), encode))
    {
      var newAudioData := PreprocessAudio(audioBuffer, encode);
      ok := UpdateBuffer(newAudioData);
    }

    /** One iteration of the listening loop, entered with the loop's patience, after
        the read has filled audioBuffer (bytesRead is what the read returned). A read
        of nothing skips the frame; otherwise the window is updated, the classifier's
        keyword channel joins the score queue and the averaged score drives the
        patience step. */
    method ProcessFrame(bytesRead: int, audioBuffer: seq<Short>, encode: real -> Word,
                        classify: seq<Byte> -> Prediction, patience: nat)
      returns (outcome: FrameOutcome, patience': nat)
      requires Valid()
      modifies this, inputBuffer, inputBuffer.data
      ensures Valid()
      ensures bytesRead <= 0 ==>
        outcome == Skipped && patience' == patience && unchanged(this, inputBuffer, inputBuffer.data)
      ensures bytesRead > 0 && 4 * |audioBuffer| > old(inputBuffer.limit) ==>
        outcome == Crashed && unchanged(this, inputBuffer, inputBuffer.data)
      ensures bytesRead > 0 && 4 * |audioBuffer| <= old(inputBuffer.limit) ==>
        inputBuffer.position == 0 && inputBuffer.limit == old(inputBuffer.limit) &&
        inputBuffer.data[..inputBuffer.limit] ==
          ShiftAppend(old(inputBuffer.data[..inputBuffer.limit]), EncodeFloats(Normalized(audioBuffer), encode)) &&
        scoreQueue == PushScore(old(scoreQueue), classify(inputBuffer.data[..inputBuffer.limit])[1], MaxSize) &&
        outcome == Processed(DebounceStep(patience, Mean(scoreQueue)).detected) &&
        patience' == DebounceStep(patience, Mean(scoreQueue)).patience
    {
      if bytesRead <= 0 {
        return Skipped, patience;
      }
      var ok := AppendAudio(audioBuffer, encode);
      if !ok {
        return Crashed, patience;
      }
      var confidence := classify(inputBuffer.data[..inputBuffer.limit]);
      var averagedConfidence := AddScore(confidence[1]);
      var step := DebounceStep(patience, averagedConfidence);
      outcome, patience' := Processed(step.detected), step.patience;
    }
  }
}
