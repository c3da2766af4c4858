/** openWakeWord.kt: the streaming wake-word detector without a verifier. Each full
    1280-sample frame is scaled by 3 into the raw window and runs through the mel,
    embedding and classifier stages in one `updateBuffers` call; an armed frame whose
    classifier confidence exceeds 0.35 is a detection. */
module WakeWord {
  import opened Windows
  import opened Stages
  import opened Smoothing
  import opened Debounce
  import opened Pcm

  const Gain: real := 3.0
  const MaxPatience: nat := 20
  const MaxScores: nat := 1
  const Threshold: real := 0.35

  /** The patience logic of one processed frame: count down while patience is
      positive, otherwise detect exactly when the confidence passes the threshold. */
  function DebounceStep(patience: nat, confidence: real): (s: Step)
    ensures StepOk(patience, s, MaxPatience)
    ensures s.detected <==> patience == 0 && confidence > Threshold
  {
    if patience > 0 then Step(patience - 1, false)
    else if confidence > Threshold then Step(MaxPatience, true)
    else Step(patience, false)
  }

  /** A frame's decision from its classifier confidence. */
  const Decide: (nat, real) -> Step := (patience: nat, confidence: real) => DebounceStep(patience, confidence)

  /** The steps of a listening loop that starts with patience 0, one per processed
      frame. */
  function History(confidences: seq<real>): (steps: seq<Step>)
    ensures |steps| == |confidences|
  {
    Run(0, confidences, Decide)
  }

  /** Every frame of such a loop obeys the patience rule with a cooldown of 20. */
  lemma HistoryFollows(confidences: seq<real>)
    ensures Follows(0, History(confidences), MaxPatience)
  {
    assert forall p: nat, c: real :: StepOk(p, Decide(p, c), MaxPatience);
    RunFollows(0, confidences, Decide, MaxPatience);
  }

  /** Frame k's step is decided by the rule from the patience left by frame k - 1. */
  lemma HistoryAt(confidences: seq<real>, k: nat)
    requires k < |confidences|
    ensures History(confidences)[k] == DebounceStep(Before(0, History(confidences), k), confidences[k])
  {
    RunAt(0, confidences, Decide, k);
  }

  /** On any stream of confidences, two detections are at least 21 frames apart. */
  lemma DetectionsAtLeast21Apart(confidences: seq<real>, i: nat, j: nat)
    requires i < j < |confidences|
    requires History(confidences)[i].detected && History(confidences)[j].detected
    ensures j - i >= MaxPatience + 1
  {
    HistoryFollows(confidences);
    DetectionsApart(0, History(confidences), MaxPatience, i, j);
  }

  /** Twenty-one frames after a detection the detector is armed again, so a frame
      there that passes the threshold is reported. */
  lemma ReportsAgainAfterCooldown(confidences: seq<real>, i: nat)
    requires i + 1 + MaxPatience < |confidences|
    requires History(confidences)[i].detected
    requires confidences[i + 1 + MaxPatience] > Threshold
    ensures History(confidences)[i + 1 + MaxPatience].detected
  {
    var n := i + 1 + MaxPatience;
    HistoryFollows(confidences);
    Rearmed(0, History(confidences), MaxPatience, i);
    HistoryAt(confidences, n);
  }

  /** A steady confidence of 0.9 over 22 frames is reported at frames 0 and 21 only. */
  lemma SteadyKeyword(confidences: seq<real>)
    requires confidences == seq(22, _ => 0.9)
    ensures History(confidences)[0].detected && History(confidences)[21].detected
    ensures forall k :: 0 < k < 21 ==> !History(confidences)[k].detected
  {
    HistoryAt(confidences, 0);
    ReportsAgainAfterCooldown(confidences, 0);
    forall k | 0 < k < 21
      ensures !History(confidences)[k].detected
    {
      if History(confidences)[k].detected {
        DetectionsAtLeast21Apart(confidences, 0, k);
      }
    }
  }

  /** `Short.toByteArray`: the low byte, then the high byte. */
  function ShortToByteArray(s: Short): (r: seq<Byte>)
    ensures |r| == 2 && Int16LE(r[0], r[1]) == s
  {
    UnsignedToByte(s % 256);
    ToByteOfByte(s / 256);
    [ToByte(s % 256), ToByte((s / 256) % 256)]
  }

  /** Splitting a decoded pair gives the pair back. */
  lemma ShortBytesRoundTrip(lo: Byte, hi: Byte)
    ensures ShortToByteArray(Int16LE(lo, hi)) == [lo, hi]
  {
    var r := ShortToByteArray(Int16LE(lo, hi));
    Int16LEInjective(r[0], r[1], lo, hi);
  }

  class OpenWakeWord {
    const newAudioData: array<real>
    const rawDataBuffer: array<real>
    const melspecBuffer: array2<real>
    const embeddingBuffer: array2<real>
    var scoreQueue: seq<real>
    var averagedConfidence: real
    var confidence: seq<real>

    ghost predicate Valid()
      reads this
    {
      newAudioData.Length == FrameSize && rawDataBuffer.Length == RawWindowSize &&
      newAudioData != rawDataBuffer &&
      melspecBuffer.Length0 == MelRows && melspecBuffer.Length1 == MelBins &&
      embeddingBuffer.Length0 == EmbeddingRows && embeddingBuffer.Length1 == EmbeddingSize &&
      melspecBuffer != embeddingBuffer &&
      |scoreQueue| <= MaxScores && |confidence| >= 1 &&
      averagedConfidence == (if scoreQueue == [] then 0.0 else Mean(scoreQueue))
    }

    /** All buffers start zero-filled, the score queue empty. */
    constructor()
      ensures Valid()
      ensures fresh(newAudioData) && fresh(rawDataBuffer) && fresh(melspecBuffer) && fresh(embeddingBuffer)
      ensures forall i :: 0 <= i < FrameSize ==> newAudioData[i] == 0.0
      ensures forall i :: 0 <= i < RawWindowSize ==> rawDataBuffer[i] == 0.0
      ensures forall i, j :: 0 <= i < MelRows && 0 <= j < MelBins ==> melspecBuffer[i, j] == 0.0
      ensures forall i, j :: 0 <= i < EmbeddingRows && 0 <= j < EmbeddingSize ==> embeddingBuffer[i, j] == 0.0
      ensures scoreQueue == [] && averagedConfidence == 0.0 && confidence == [0.0]
    {
      newAudioData := new real[FrameSize](_ => 0.0);
      rawDataBuffer := new real[RawWindowSize](_ => 0.0);
      melspecBuffer := new real[MelRows, MelBins]((_, _) => 0.0);
      embeddingBuffer := new real[EmbeddingRows, EmbeddingSize]((_, _) => 0.0);
      scoreQueue := [];
      averagedConfidence := 0.0;
      confidence := [0.0];
    }

    /** embeddingInput: the mel window flattened row-major, oldest row first. */
    method EmbeddingInput() returns (flat: seq<real>)
      requires Valid()
      ensures flat == Flatten(Grid(melspecBuffer)) && |flat| == MelRows * MelBins
      ensures forall i, j :: 0 <= i < MelRows && 0 <= j < MelBins ==> flat[i * 32 + j] == melspecBuffer[i, j]
      ensures Chunks(flat, MelBins) == Grid(melspecBuffer)
    {
      flat := FlattenRowMajor(melspecBuffer);
      forall i, j | 0 <= i < MelRows && 0 <= j < MelBins
        ensures flat[i * 32 + j] == melspecBuffer[i, j]
      {
        FlattenAtIndex(Grid(melspecBuffer), MelRows, MelBins, i, j);
      }
      ChunksFlatten(Grid(melspecBuffer), MelRows, MelBins);
    }

    /** wakewordInput: the embedding window flattened row-major into 1536 values. */
    method WakewordInput() returns (flat: seq<real>)
      requires Valid()
      ensures flat == Flatten(Grid(embeddingBuffer)) && |flat| == EmbeddingRows * EmbeddingSize
      ensures forall i, j :: 0 <= i < EmbeddingRows && 0 <= j < EmbeddingSize ==> flat[i * 96 + j] == embeddingBuffer[i, j]
      ensures Chunks(flat, EmbeddingSize) == Grid(embeddingBuffer)
    {
      flat := FlattenRowMajor(embeddingBuffer);
      forall i, j | 0 <= i < EmbeddingRows && 0 <= j < EmbeddingSize
        ensures flat[i * 96 + j] == embeddingBuffer[i, j]
      {
        FlattenAtIndex(Grid(embeddingBuffer), EmbeddingRows, EmbeddingSize, i, j);
      }
      ChunksFlatten(Grid(embeddingBuffer), EmbeddingRows, EmbeddingSize);
    }

    /** addScore: evict the oldest score when the queue is full, append, and keep
        the mean; with a one-score queue the mean is the new score. */
    method AddScore(newScore: real)
      requires Valid()
      modifies this
      ensures Valid()
      ensures scoreQueue == PushScore(old(scoreQueue), newScore, MaxScores)
      ensures scoreQueue == [newScore] && averagedConfidence == newScore
      ensures confidence == old(confidence)
    {
      MeanOfSingleQueue(scoreQueue, newScore);
      scoreQueue := PushScore(scoreQueue, newScore, MaxScores);
      averagedConfidence := Mean(scoreQueue);
    }

    /** The audio section of updateBuffers: the frame is scaled by 3 in place, the
        newest 480 samples of the raw window move to its front and the scaled frame
        fills the rest. */
    method BufferAudio()
      requires Valid()
      modifies newAudioData, rawDataBuffer
      ensures Valid()
      ensures newAudioData[..] == Scale(Gain, old(newAudioData[..]))
      ensures rawDataBuffer[..] == ShiftAppend(old(rawDataBuffer[..]), newAudioData[..])
    {
      ScaleInPlace(newAudioData, Gain);
      ArrayCopy(rawDataBuffer, FrameSize, rawDataBuffer, 0, Overlap);
      ArrayCopy(newAudioData, 0, rawDataBuffer, Overlap, FrameSize);
    }

    /** The feature sections of updateBuffers: append the mel stage's 8 rows (as
        2 + x / 10) to the mel window, append the embedding of the mel window to the
        embedding window, and score the embedding window. A null mel result makes
        `!!` throw before anything moves (ok is false). */
    method BufferFeatures(models: Models) returns (ok: bool)
      requires Valid()
      modifies this, melspecBuffer, embeddingBuffer
      ensures Valid()
      ensures ok <==> models.melspec(rawDataBuffer[..]).Some?
      ensures !ok ==> unchanged(this, melspecBuffer, embeddingBuffer)
      ensures ok ==>
        Grid(melspecBuffer) == ShiftAppend(old(Grid(melspecBuffer)), MelFrames(models.melspec(rawDataBuffer[..]).value)) &&
        Grid(embeddingBuffer) == ShiftAppend(old(Grid(embeddingBuffer)), [models.embedding(Flatten(Grid(melspecBuffer)))]) &&
        confidence == models.wakeword(Flatten(Grid(embeddingBuffer))) &&
        scoreQueue == [confidence[0]] && averagedConfidence == confidence[0]
    {
      var prediction := models.melspec(rawDataBuffer[..]);
      if prediction.None? {
        return false;
      }
      AdvanceGrid(melspecBuffer, MelFrames(prediction.value));
      BufferEmbedding(models);
      Score(models);
      ok := true;
    }

    /** The embedding section of updateBuffers: the embedding of the flattened mel
        window becomes the newest row of the embedding window. */
    method BufferEmbedding(models: Models)
      requires Valid()
      modifies embeddingBuffer
      ensures Grid(embeddingBuffer) == ShiftAppend(old(Grid(embeddingBuffer)), [models.embedding(Flatten(Grid(melspecBuffer)))])
    {
      var melInput := EmbeddingInput();
      var row := models.embedding(melInput);
      AdvanceGrid(embeddingBuffer, [row]);
    }

    /** The scoring section of updateBuffers: the wake-word stage on the flattened
        embedding window, whose first score replaces the queue. */
    method Score(models: Models)
      requires Valid()
      modifies this
      ensures Valid()
      ensures confidence == models.wakeword(Flatten(Grid(embeddingBuffer)))
      ensures scoreQueue == [confidence[0]] && averagedConfidence == confidence[0]
    {
      var scoreInput := WakewordInput();
      confidence := models.wakeword(scoreInput);
      AddScore(confidence[0]);
    }

    /** updateBuffers: the audio section, then the feature sections. */
    method UpdateBuffers(models: Models) returns (ok: bool)
      requires Valid()
      modifies this, newAudioData, rawDataBuffer, melspecBuffer, embeddingBuffer
      ensures Valid()
      ensures newAudioData[..] == Scale(Gain, old(newAudioData[..]))
      ensures rawDataBuffer[..] == ShiftAppend(old(rawDataBuffer[..]), newAudioData[..])
      ensures ok <==> models.melspec(rawDataBuffer[..]).Some?
      ensures !ok ==> unchanged(this, melspecBuffer, embeddingBuffer)
      ensures ok ==>
        Grid(melspecBuffer) == ShiftAppend(old(Grid(melspecBuffer)), MelFrames(models.melspec(rawDataBuffer[..]).value)) &&
        Grid(embeddingBuffer) == ShiftAppend(old(Grid(embeddingBuffer)), [models.embedding(Flatten(Grid(melspecBuffer)))]) &&
        confidence == models.wakeword(Flatten(Grid(embeddingBuffer))) &&
        scoreQueue == [confidence[0]] && averagedConfidence == confidence[0]
    {
      BufferAudio();
      ok := BufferFeatures(models);
    }

    /** One iteration of the listening loop, entered with the loop's patience, after
        the read has put its samples in newAudioData. A read that did not return
        exactly 1280 floats (or no recorder at all) is skipped. */
    method ProcessFrame(floatsRead: Option<int>, models: Models, patience: nat)
      returns (outcome: FrameOutcome, patience': nat)
      requires Valid()
      modifies this, newAudioData, rawDataBuffer, melspecBuffer, embeddingBuffer
      ensures Valid()
      ensures floatsRead != Some(1280) ==>
        outcome == Skipped && patience' == patience &&
        unchanged(this, newAudioData, rawDataBuffer, melspecBuffer, embeddingBuffer)
      ensures floatsRead == Some(1280) ==>
        newAudioData[..] == Scale(Gain, old(newAudioData[..])) &&
        rawDataBuffer[..] == ShiftAppend(old(rawDataBuffer[..]), newAudioData[..])
      ensures floatsRead == Some(1280) && models.melspec(rawDataBuffer[..]).None? ==> outcome == Crashed
      ensures floatsRead == Some(1280) && models.melspec(rawDataBuffer[..]).Some? ==>
        Grid(melspecBuffer) == ShiftAppend(old(Grid(melspecBuffer)), MelFrames(models.melspec(rawDataBuffer[..]).value)) &&
        Grid(embeddingBuffer) == ShiftAppend(old(Grid(embeddingBuffer)), [models.embedding(Flatten(Grid(melspecBuffer)))]) &&
        confidence == models.wakeword(Flatten(Grid(embeddingBuffer))) &&
        averagedConfidence == confidence[0] &&
        outcome == Processed(DebounceStep(patience, confidence[0]).detected) &&
        patience' == DebounceStep(patience, confidence[0]).patience
    {
      if floatsRead != Some(1280) {
        return Skipped, patience;
      }
      var ok := UpdateBuffers(models);
      if !ok {
        return Crashed, patience;
      }
      if patience > 0 {
        outcome, patience' := Processed(false), patience - 1;
      } else if confidence[0] > Threshold {
        outcome, patience' := Processed(true), MaxPatience;
      } else {
        outcome, patience' := Processed(false), patience;
      }
    }
  }
}
