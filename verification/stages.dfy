/** Shapes of the tensors that pass between the streaming buffers and the opaque
    inference stages (mel spectrogram, embedding, wake-word classifier). Each stage
    is a function value: the model only fixes its input and output shapes. */
module Stages {
  import opened Windows

  const FrameSize: nat := 1280        // samples per audio read
  const RawWindowSize: nat := 1760    // samples given to the mel stage
  const Overlap: nat := 480           // RawWindowSize - FrameSize
  const MelRows: nat := 76            // mel frames given to the embedding stage
  const MelBins: nat := 32            // values per mel frame
  const MelHop: nat := 8              // new mel frames per audio frame
  const EmbeddingRows: nat := 16      // embeddings given to the classifier
  const EmbeddingSize: nat := 96      // values per embedding

  /** The mel stage's [1, 1, 8, 32] output with its unit dimensions dropped. */
  type MelBatch = b: seq<seq<real>> | IsGrid(b, 8, 32)
    witness seq(8, _ => seq(32, _ => 0.0))

  /** The embedding stage's [1, 96] output. */
  type Embedding = e: seq<real> | |e| == 96
    witness seq(96, _ => 0.0)

  /** The classifier's output vector; its channel 0 is the keyword confidence. */
  type Scores = s: seq<real> | |s| >= 1
    witness [0.0]

  /** The three stages every wake-word frame runs through. The mel stage is an
      ONNX session whose runner returns null when the session throws (None here);
      the embedding and classifier stages are TFLite models that always answer. */
  datatype Models = Models(
    melspec: seq<real> -> Option<MelBatch>,
    embedding: seq<real> -> Embedding,
    wakeword: seq<real> -> Scores)

  /** Rows appended to the mel window: 2 + x / 10 of every predicted value. */
  function MelFrames(pred: MelBatch): (rows: seq<seq<real>>)
    ensures IsGrid(rows, MelHop, MelBins)
    ensures forall i, j :: 0 <= i < 8 && 0 <= j < 32 ==> rows[i][j] == 2.0 + pred[i][j] / 10.0
  {
    seq(8, i requires 0 <= i < 8 => seq(32, j requires 0 <= j < 32 => 2.0 + pred[i][j] / 10.0))
  }
}
