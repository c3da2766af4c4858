/** OpenWakeWord.kt: the streaming wake-word detector with a second-stage verifier.
    Each full 1280-sample frame is scaled by 100 into the raw window, runs through
    the mel, embedding and classifier stages, and a classifier score above 0.35 on
    an armed frame is confirmed by the verifier before it counts as a detection. */
module VerifiedWakeWord {
  import opened Windows
  import opened Stages
  import opened Smoothing
  import opened Debounce

  const Gain: real := 100.0
  const MaxPatience: nat := 20
  const MaxScores: nat := 1
  const Threshold: real := 0.35

  /** The verifier session on the flattened embedding window; its runner returns
      null (None) when the session throws. */
  type Verifier = seq<real> -> Option<real>

  /** The patience logic of one processed frame, given the classifier confidence
      and the score the verifier gives the current embedding window. The verifier
      is consulted only on an armed frame whose confidence passes the threshold;
      None is the `!!` crash on a null verifier result. */
  function DebounceStep(patience: nat, confidence: real, verdict: Option<real>): (r: Option<Step>)
    ensures r.None? <==> patience == 0 && confidence > Threshold && verdict.None?
    ensures r.Some? ==> StepOk(patience, r.value, MaxPatience)
    ensures r.Some? ==> (r.value.detected <==> patience == 0 && confidence > Threshold && verdict.value > Threshold)
  {
    if patience > 0 then Some(Step(patience - 1, false))
    else if confidence > Threshold then
      match verdict
      case None => None
      case Some(score) => if score > Threshold then Some(Step(MaxPatience, true)) else Some(Step(patience, false))
    else Some(Step(patience, false))
  }

  /** A frame's decision from its (classifier confidence, verifier score) pair when
      the verifier answers. */
  const Decide: (nat, (real, real)) -> Step :=
    (patience: nat, scores: (real, real)) => DebounceStep(patience, scores.0, Some(scores.1)).value

  /** The steps of a listening loop that starts with patience 0, one per processed
      frame, when the verifier always answers. */
  function History(frames: seq<(real, real)>): (steps: seq<Step>)
    ensures |steps| == |frames|
  {
    Run(0, frames, Decide)
  }

  /** Every frame of such a loop obeys the patience rule with a cooldown of 20. */
  lemma HistoryFollows(frames: seq<(real, real)>)
    ensures Follows(0, History(frames), MaxPatience)
  {
    assert forall p: nat, scores: (real, real) :: StepOk(p, Decide(p, scores), MaxPatience);
    RunFollows(0, frames, Decide, MaxPatience);
  }

  /** Frame k's step is decided by the rule from the patience left by frame k - 1. */
  lemma HistoryAt(frames: seq<(real, real)>, k: nat)
    requires k < |frames|
    ensures History(frames)[k] == DebounceStep(Before(0, History(frames), k), frames[k].0, Some(frames[k].1)).value
  {
    RunAt(0, frames, Decide, k);
  }

  /** On any stream of frames, two detections are at least 21 frames apart. */
  lemma VerifiedDetectionsApart(frames: seq<(real, real)>, i: nat, j: nat)
    requires i < j < |frames|
    requires History(frames)[i].detected && History(frames)[j].detected
    ensures j - i >= MaxPatience + 1
  {
    HistoryFollows(frames);
    DetectionsApart(0, History(frames), MaxPatience, i, j);
  }

  /** A frame the classifier likes but the verifier rejects is not a detection and
      leaves the detector armed. */
  lemma VerifierVeto(frames: seq<(real, real)>, k: nat)
    requires k < |frames|
    requires Before(0, History(frames), k) == 0
    requires frames[k].1 <= Threshold
    ensures !History(frames)[k].detected && History(frames)[k].patience == 0
  {
    HistoryAt(frames, k);
  }

  class OpenWakeWord {
    const newAudioData: array<real>
    const rawDataBuffer: array<real>
    const melspecBuffer: array2<real>
    const embeddingBuffer: array2<real>
    var scoreQueue: seq<real>
    var averagedConfidence: real
    var confidence: seq<real>

    ghost predicate Valid()
      reads this
    {
      newAudioData.Length == FrameSize && rawDataBuffer.Length == RawWindowSize &&
      newAudioData != rawDataBuffer &&
      melspecBuffer.Length0 == MelRows && melspecBuffer.Length1 == MelBins &&
      embeddingBuffer.Length0 == EmbeddingRows && embeddingBuffer.Length1 == EmbeddingSize &&
      melspecBuffer != embeddingBuffer &&
      |scoreQueue| <= MaxScores && |confidence| >= 1 &&
      averagedConfidence == (if scoreQueue == [] then 0.0 else Mean(scoreQueue))
    }

    /** All buffers start zero-filled, the score queue empty. */
    constructor()
      ensures Valid()
      ensures fresh(newAudioData) && fresh(rawDataBuffer) && fresh(melspecBuffer) && fresh(embeddingBuffer)
      ensures forall i :: 0 <= i < FrameSize ==> newAudioData[i] == 0.0
      ensures forall i :: 0 <= i < RawWindowSize ==> rawDataBuffer[i] == 0.0
      ensures forall i, j :: 0 <= i < MelRows && 0 <= j < MelBins ==> melspecBuffer[i, j] == 0.0
      ensures forall i, j :: 0 <= i < EmbeddingRows && 0 <= j < EmbeddingSize ==> embeddingBuffer[i, j] == 0.0
      ensures scoreQueue == [] && averagedConfidence == 0.0 && confidence == [0.0]
    {
      newAudioData := new real[FrameSize](_ => 0.0);
      rawDataBuffer := new real[RawWindowSize](_ => 0.0);
      melspecBuffer := new real[MelRows, MelBins]((_, _) => 0.0);
      embeddingBuffer := new real[EmbeddingRows, EmbeddingSize]((_, _) => 0.0);
      scoreQueue := [];
      averagedConfidence := 0.0;
      confidence := [0.0];
    }

    /** bufferRawData: the frame is scaled by the gain in place, the newest 480
        samples of the raw window move to its front and the scaled frame fills the
        rest. */
    method BufferRawData()
      requires Valid()
      modifies newAudioData, rawDataBuffer
      ensures Valid()
      ensures newAudioData[..] == Scale(Gain, old(newAudioData[..]))
      ensures rawDataBuffer[..] == ShiftAppend(old(rawDataBuffer[..]), newAudioData[..])
    {
      ScaleInPlace(newAudioData, Gain);
      ArrayCopy(rawDataBuffer, FrameSize, rawDataBuffer, 0, Overlap);
      ArrayCopy(newAudioData, 0, rawDataBuffer, Overlap, FrameSize);
    }

    /** bufferMelspec: the mel window drops its oldest 8 rows and appends the mel
        stage's 8 new rows as 2 + x / 10. When the mel runner returns null, `!!`
        throws before any row moves (ok is false). */
    method BufferMelspec(melspec: seq<real> -> Option<MelBatch>) returns (ok: bool)
      requires Valid()
      modifies melspecBuffer
      ensures Valid()
      ensures ok <==> melspec(rawDataBuffer[..]).Some?
      ensures ok ==> Grid(melspecBuffer) == ShiftAppend(old(Grid(melspecBuffer)), MelFrames(melspec(rawDataBuffer[..]).value))
      ensures !ok ==> Grid(melspecBuffer) == old(Grid(melspecBuffer))
    {
      var prediction := melspec(rawDataBuffer[..]);
      if prediction.None? {
        return false;
      }
      AdvanceGrid(melspecBuffer, MelFrames(prediction.value));
      ok := true;
    }

    /** embeddingInput: the mel window flattened row-major, oldest row first; cutting
        it back into rows of 32 gives the window again. */
    method EmbeddingInput() returns (flat: seq<real>)
      requires Valid()
      ensures flat == Flatten(Grid(melspecBuffer)) && |flat| == MelRows * MelBins
      ensures forall i, j :: 0 <= i < MelRows && 0 <= j < MelBins ==> flat[i * 32 + j] == melspecBuffer[i, j]
      ensures Chunks(flat, MelBins) == Grid(melspecBuffer)
    {
      flat := FlattenRowMajor(melspecBuffer);
      forall i, j | 0 <= i < MelRows && 0 <= j < MelBins
        ensures flat[i * 32 + j] == melspecBuffer[i, j]
      {
        FlattenAtIndex(Grid(melspecBuffer), MelRows, MelBins, i, j);
      }
      ChunksFlatten(Grid(melspecBuffer), MelRows, MelBins);
    }

    /** wakewordInput, and the same loop inside verifierOnnxPredict: the embedding
        window flattened row-major into the 1536 values of a [1, 1536] tensor. */
    method WakewordInput() returns (flat: seq<real>)
      requires Valid()
      ensures flat == Flatten(Grid(embeddingBuffer)) && |flat| == EmbeddingRows * EmbeddingSize
      ensures forall i, j :: 0 <= i < EmbeddingRows && 0 <= j < EmbeddingSize ==> flat[i * 96 + j] == embeddingBuffer[i, j]
      ensures Chunks(flat, EmbeddingSize) == Grid(embeddingBuffer)
    {
      flat := FlattenRowMajor(embeddingBuffer);
      forall i, j | 0 <= i < EmbeddingRows && 0 <= j < EmbeddingSize
        ensures flat[i * 96 + j] == embeddingBuffer[i, j]
      {
        FlattenAtIndex(Grid(embeddingBuffer), EmbeddingRows, EmbeddingSize, i, j);
      }
      ChunksFlatten(Grid(embeddingBuffer), EmbeddingRows, EmbeddingSize);
    }

    /** bufferEmbeddings: the embedding window drops its oldest row and appends the
        embedding of the current mel window. */
    method BufferEmbeddings(embedding: seq<real> -> Embedding)
      requires Valid()
      modifies embeddingBuffer
      ensures Valid()
      ensures Grid(embeddingBuffer) == ShiftAppend(old(Grid(embeddingBuffer)), [embedding(Flatten(Grid(melspecBuffer)))])
    {
      var input := EmbeddingInput();
      var row := embedding(input);
      AdvanceGrid(embeddingBuffer, [row]);
    }

    /** addScore: evict the oldest score when the queue is full, append, and keep
        the mean; with a one-score queue the mean is the new score. */
    method AddScore(newScore: real)
      requires Valid()
      modifies this
      ensures Valid()
      ensures scoreQueue == PushScore(old(scoreQueue), newScore, MaxScores)
      ensures scoreQueue == [newScore] && averagedConfidence == newScore
      ensures confidence == old(confidence)
    {
      MeanOfSingleQueue(scoreQueue, newScore);
      scoreQueue := PushScore(scoreQueue, newScore, MaxScores);
      averagedConfidence := Mean(scoreQueue);
    }

    /** getWakeWordPrediction: the classifier's scores on the embedding window become
        the confidence vector, and channel 0 is pushed into the smoother. */
    method GetWakeWordPrediction(wakeword: seq<real> -> Scores)
      requires Valid()
      modifies this
      ensures Valid()
      ensures confidence == wakeword(Flatten(Grid(embeddingBuffer)))
      ensures scoreQueue == [confidence[0]] && averagedConfidence == confidence[0]
    {
      var input := WakewordInput();
      confidence := wakeword(input);
      AddScore(confidence[0]);
    }

    /** verifierOnnxPredict: the verifier's score on the flattened embedding window;
        None stands for the null result that `!!` turns into a crash. */
    method VerifierOnnxPredict(verifier: Verifier) returns (score: Option<real>)
      requires Valid()
      ensures score == verifier(Flatten(Grid(embeddingBuffer)))
    {
      var input := WakewordInput();
      score := verifier(input);
    }

    /** One iteration of the listening loop, entered with the loop's patience, after
        the read has put its samples in newAudioData. A read that did not return
        exactly 1280 floats (or no recorder at all) is skipped. */
    method ProcessFrame(floatsRead: Option<int>, models: Models, verifier: Verifier, patience: nat)
      returns (outcome: FrameOutcome, patience': nat)
      requires Valid()
      modifies this, newAudioData, rawDataBuffer, melspecBuffer, embeddingBuffer
      ensures Valid()
      ensures floatsRead != Some(1280) ==>
        outcome == Skipped && patience' == patience &&
        unchanged(this, newAudioData, rawDataBuffer, melspecBuffer, embeddingBuffer)
      ensures floatsRead == Some(1280) ==>
        newAudioData[..] == Scale(Gain, old(newAudioData[..])) &&
        rawDataBuffer[..] == ShiftAppend(old(rawDataBuffer[..]), newAudioData[..])
      ensures floatsRead == Some(1280) && models.melspec(rawDataBuffer[..]).None? ==>
        outcome == Crashed && Grid(melspecBuffer) == old(Grid(melspecBuffer))
      ensures outcome.Processed? ==>
        Grid(melspecBuffer) == ShiftAppend(old(Grid(melspecBuffer)), MelFrames(models.melspec(rawDataBuffer[..]).value)) &&
        Grid(embeddingBuffer) == ShiftAppend(old(Grid(embeddingBuffer)), [models.embedding(Flatten(Grid(melspecBuffer)))]) &&
        confidence == models.wakeword(Flatten(Grid(embeddingBuffer))) &&
        averagedConfidence == confidence[0]
      ensures floatsRead == Some(1280) && models.melspec(rawDataBuffer[..]).Some? ==>
        var step := DebounceStep(patience, confidence[0], verifier(Flatten(Grid(embeddingBuffer))));
        (step.None? ==> outcome == Crashed) &&
        (step.Some? ==> outcome == Processed(step.value.detected) && patience' == step.value.patience)
    {
      if floatsRead != Some(1280) {
        return Skipped, patience;
      }
      BufferRawData();
      var ok := BufferMelspec(models.melspec);
      if !ok {
        return Crashed, patience;
      }
      BufferEmbeddings(models.embedding);
      GetWakeWordPrediction(models.wakeword);
      if patience > 0 {
        outcome, patience' := Processed(false), patience - 1;
      } else if confidence[0] > Threshold {
        var verifierScore := VerifierOnnxPredict(verifier);
        if verifierScore.None? {
          return Crashed, patience;
        }
        if verifierScore.value > Threshold {
          outcome, patience' := Processed(true), MaxPatience;
        } else {
          outcome, patience' := Processed(false), patience;
        }
      } else {
        outcome, patience' := Processed(false), patience;
      }
    }
  }
}
