# Streaming wake-word detector: a Dafny model

This project models the per-frame streaming state of an Android wake-word detector. It comes in three near-duplicate Kotlin classes:

- `OpenWakeWord` in `OpenWakeWord.kt` (module `VerifiedWakeWord`). Each 1280-sample frame goes through:
  - the raw window, scaled by a gain of 100;
  - the mel window, 76 × 32, advanced by 8 rows per frame;
  - the embedding window, 16 × 96, advanced by 1 row per frame;
  - the wake-word classifier.

  A classifier score above 0.35 on an armed frame must then be confirmed by a second verifier model before it counts as a detection.
- `OpenWakeWord` in `openWakeWord.kt` (module `WakeWord`). Same pipeline with a gain of 3 and no verifier. Everything happens in one `updateBuffers` call.
- `AudioRecorder` in `AudioRecorder.kt` (module `Recorder`). The older detector:
  - keeps a one-second window of 16000 floats in a direct `ByteBuffer` and shifts it with `position`/`get`/`clear`/`put`/`flip`;
  - averages the last seven classifier scores;
  - detects at an average above 0.9, with a cooldown of 48 frames;
  - also carries the byte-level helpers: PCM decode, WAV header trim, bit strings and the zero check.

The model is imperative where the source is:

- The window buffers are `array`/`array2` fields of a class. Their updates are loops and in-place copies, proved against the pure specification `Windows.ShiftAppend`: drop the oldest k entries, keep the order, append the batch.
- The `ByteBuffer` is a class with `position`, `limit` and a byte array.
- The patience counter is threaded through `ProcessFrame` as in and out parameters, since it is a loop variable in the source.

The pure parts are functions with lemmas:

- `Debounce` gives a generic patience rule. It proves that two detections are more than `cooldown` frames apart, the count-down after a detection, re-arming, and a bound on patience. Each variant instantiates it with its own decision function, order of tests and constants.
- `Smoothing` is the bounded FIFO score queue and its mean.
- `Pcm` covers Kotlin `Byte`/`Short` conversions, little-endian decoding, normalisation and the float encoding.

Stages of the source map to model parameters as follows:

- The inference stages (the ONNX mel spectrogram and verifier, the TFLite embedding and classifier) are function-valued parameters that return values of the declared tensor shapes. The `Stages.Models` datatype groups the first three.
- A runner that returns `null` is `None`. The `!!` applied to it ends the frame as `FrameOutcome.Crashed`.
- The audio read is a parameter: its count, with the samples already in the frame buffer.
- The 4-byte float encoding `putFloat` uses is a parameter `encode`. Its reader is a parameter `decode`.

## Model

| member | source | states |
|---|---|---|
| Windows.ShiftAppend | app/src/main/java/com/example/wakeworddisplayimage/OpenWakeWord.kt:170-171 | the window keeps its length, entry i is old entry i + \|batch\| for the first \|window\| - \|batch\| entries, and the rest is the batch in order |
| Windows.ShiftAppendTwice | app/src/main/java/com/example/wakeworddisplayimage/openWakeWord.kt:111-116 | two frames of the listening loop, each advancing the window once, equal one advance by the two batches concatenated |
| Windows.FeedKeepsLatest | app/src/main/java/com/example/wakeworddisplayimage/openWakeWord.kt:146-194 | after any stream of batches the window holds exactly the most recent \|window\| elements of its initial contents followed by everything that arrived |
| Windows.ArrayCopy | app/src/main/java/com/example/wakeworddisplayimage/OpenWakeWord.kt:170-171 | `System.arraycopy`: the destination range becomes the old source range, everything else stays, even when source and destination are the same array |
| Windows.ScaleInPlace | app/src/main/java/com/example/wakeworddisplayimage/OpenWakeWord.kt:167-169 | every element of the frame becomes gain times its old value, in place |
| Windows.ShiftRowsUp | app/src/main/java/com/example/wakeworddisplayimage/OpenWakeWord.kt:178-182 | rows k.. of the 2-D window move up by k rows, the last k rows keep their contents |
| Windows.FillLastRows | app/src/main/java/com/example/wakeworddisplayimage/OpenWakeWord.kt:185-189 | the last \|batch\| rows become the batch, the rows before them are untouched |
| Windows.AdvanceGrid | app/src/main/java/com/example/wakeworddisplayimage/OpenWakeWord.kt:178-189 | the 2-D window's rows after the two nested loops are `ShiftAppend` of its old rows and the batch |
| Windows.ShiftAppendPointwise | app/src/main/java/com/example/wakeworddisplayimage/openWakeWord.kt:166-177 | a grid whose first rows are the old rows shifted up by \|batch\| and whose last rows are the batch is their `ShiftAppend` |
| Windows.FlattenLength | app/src/main/java/com/example/wakeworddisplayimage/openWakeWord.kt:270 | a rows × cols window flattens to rows * cols values |
| Windows.FlattenAtIndex | app/src/main/java/com/example/wakeworddisplayimage/openWakeWord.kt:271-276 | entry (i, j) of the window lands at index i * cols + j of the flattening |
| Windows.ChunksFlatten | app/src/main/java/com/example/wakeworddisplayimage/openWakeWord.kt:268-281 | cutting the flat vector back into rows of cols values gives the window back (flattening loses nothing) |
| Windows.CopyRow | app/src/main/java/com/example/wakeworddisplayimage/OpenWakeWord.kt:296-298 | the inner loop appends row i to the filled prefix of the output and leaves that prefix as it was |
| Windows.FlattenRowMajor | app/src/main/java/com/example/wakeworddisplayimage/OpenWakeWord.kt:293-299 | the `index++` loop produces the row-major flattening of the window, of length rows * cols |
| Stages.MelFrames | app/src/main/java/com/example/wakeworddisplayimage/OpenWakeWord.kt:185-189 | the 8 new mel rows form an 8 × 32 grid whose entries are 2 + x / 10 of the stage's output |
| Smoothing.PushScore | app/src/main/java/com/example/wakeworddisplayimage/AudioRecorder.kt:71-75 | `addScore` never holds more than the bound, grows by one until full, and keeps the latest scores in arrival order, the new score last |
| Smoothing.PushAllKeepsLatest | app/src/main/java/com/example/wakeworddisplayimage/AudioRecorder.kt:71-75 | after any stream of pushes the queue is exactly the min(bound, all) most recent scores of the old queue followed by the stream |
| Smoothing.PushAllFromEmptyKeepsLatest | app/src/main/java/com/example/wakeworddisplayimage/AudioRecorder.kt:49-50 | from the initial empty queue, the queue is the min(bound, all) most recent scores |
| Smoothing.PushAllFromEmpty | app/src/main/java/com/example/wakeworddisplayimage/AudioRecorder.kt:72-75 | up to `maxSize` pushes into an empty queue keep every score, so nothing is evicted early |
| Smoothing.MeanWithin | app/src/main/java/com/example/wakeworddisplayimage/AudioRecorder.kt:78 | the mean of the queue lies within any bounds of its scores |
| Smoothing.MeanOfSingleQueue | app/src/main/java/com/example/wakeworddisplayimage/OpenWakeWord.kt:325-332 | with one-score queues the queue after a push is the new score alone, and the averaged confidence is that score |
| Smoothing.SevenScoresAverage | app/src/main/java/com/example/wakeworddisplayimage/AudioRecorder.kt:71-79 | pushing 0.1 .. 0.7 into a seven-score queue keeps all seven and averages 0.4 |
| Debounce.RunAt | app/src/main/java/com/example/wakeworddisplayimage/openWakeWord.kt:109-131 | frame k of a listening loop is decided from the patience that frame k - 1 left (the loop variable carried across iterations) |
| Debounce.RunFollows | app/src/main/java/com/example/wakeworddisplayimage/openWakeWord.kt:111-131 | when the per-frame decision obeys the patience rule, every frame of the loop does |
| Debounce.CountDown | app/src/main/java/com/example/wakeworddisplayimage/openWakeWord.kt:118-124 | the k-th frame after a detection enters with patience cooldown - k |
| Debounce.DetectionsApart | app/src/main/java/com/example/wakeworddisplayimage/openWakeWord.kt:118-124 | two detections are more than `cooldown` frames apart |
| Debounce.Rearmed | app/src/main/java/com/example/wakeworddisplayimage/openWakeWord.kt:118-124 | cooldown + 1 frames after a detection the loop is armed again (patience 0) |
| Debounce.PatienceBounded | app/src/main/java/com/example/wakeworddisplayimage/openWakeWord.kt:109-124 | patience never exceeds the larger of its start and the cooldown (and is a `nat`, so never negative) |
| Pcm.Unsigned | app/src/main/java/com/example/wakeworddisplayimage/AudioRecorder.kt:323 | `and 0xFF` gives a value below 256 congruent to the byte modulo 256 |
| Pcm.ToByte | app/src/main/java/com/example/wakeworddisplayimage/openWakeWord.kt:362 | `toByte` gives a signed byte congruent to its argument modulo 256 |
| Pcm.UnsignedToByte | app/src/main/java/com/example/wakeworddisplayimage/openWakeWord.kt:362 | a value 0 .. 255 survives `toByte` followed by `and 0xFF` |
| Pcm.Int16LEParts | app/src/main/java/com/example/wakeworddisplayimage/AudioRecorder.kt:338 | the decoded sample's remainder modulo 256 is the unsigned low byte and its quotient is the high byte |
| Pcm.Int16LEInjective | app/src/main/java/com/example/wakeworddisplayimage/AudioRecorder.kt:338 | different byte pairs decode to different samples |
| Pcm.Int16LESurjective | app/src/main/java/com/example/wakeworddisplayimage/AudioRecorder.kt:338 | every 16-bit sample is the decode of some byte pair |
| Pcm.Normalize | app/src/main/java/com/example/wakeworddisplayimage/AudioRecorder.kt:176 | the normalised sample lies in [-1, 1) and times 32768 gives the sample back |
| Pcm.Samples | app/src/main/java/com/example/wakeworddisplayimage/AudioRecorder.kt:337-338 | sample k is the little-endian decode of bytes 2k and 2k + 1 |
| Pcm.Normalized | app/src/main/java/com/example/wakeworddisplayimage/AudioRecorder.kt:175-176 | one value per sample, in order, each in [-1, 1) |
| Pcm.EncodeFloats | app/src/main/java/com/example/wakeworddisplayimage/AudioRecorder.kt:177 | a run of `putFloat` writes 4 bytes per value |
| Pcm.DecodeFloats | app/src/main/java/com/example/wakeworddisplayimage/AudioRecorder.kt:315 | a float read yields one value per 4 bytes |
| Pcm.EncodeDecodeFloats | app/src/main/java/com/example/wakeworddisplayimage/AudioRecorder.kt:307-318 | when the reader recovers each written value from its word, the written floats read back unchanged and in order |
| Pcm.EncodeFloatsAt | app/src/main/java/com/example/wakeworddisplayimage/AudioRecorder.kt:175-177 | value k's word sits at bytes 4k .. 4k + 4 of the stream |
| NioBuffer.ByteBuf.Allocate | app/src/main/java/com/example/wakeworddisplayimage/AudioRecorder.kt:48 | `allocateDirect`: zero-filled, position 0, limit at capacity |
| NioBuffer.ByteBuf.SetPosition | app/src/main/java/com/example/wakeworddisplayimage/AudioRecorder.kt:85 | `position(n)` succeeds exactly when n is at most the limit, and otherwise changes nothing |
| NioBuffer.ByteBuf.Get | app/src/main/java/com/example/wakeworddisplayimage/AudioRecorder.kt:88-89 | `get(dst)` returns the next n bytes and advances past them |
| NioBuffer.ByteBuf.Clear | app/src/main/java/com/example/wakeworddisplayimage/AudioRecorder.kt:90 | `clear()` resets position to 0 and limit to capacity |
| NioBuffer.ByteBuf.Put | app/src/main/java/com/example/wakeworddisplayimage/AudioRecorder.kt:93 | `put(bytes)` writes the bytes at the position, keeps every other byte, and advances |
| NioBuffer.ByteBuf.PutBuffer | app/src/main/java/com/example/wakeworddisplayimage/AudioRecorder.kt:96 | `put(buffer)` copies the source's readable bytes and advances both positions |
| NioBuffer.ByteBuf.Flip | app/src/main/java/com/example/wakeworddisplayimage/AudioRecorder.kt:99 | `flip()` sets the limit to the position and the position to 0 |
| NioBuffer.ByteBuf.Rewind | app/src/main/java/com/example/wakeworddisplayimage/AudioRecorder.kt:179 | `rewind()` sets the position to 0 and keeps the limit |
| NioBuffer.ByteBuf.PutFloat | app/src/main/java/com/example/wakeworddisplayimage/AudioRecorder.kt:177 | `putFloat(x)` writes x's four bytes at the position and advances by 4 |
| VerifiedWakeWord.DebounceStep | app/src/main/java/com/example/wakeworddisplayimage/OpenWakeWord.kt:140-157 | the frame obeys the patience rule with cooldown 20; it detects iff armed and both classifier and verifier score exceed 0.35; it crashes iff it is armed, the classifier passes and the verifier returns null |
| VerifiedWakeWord.HistoryFollows | app/src/main/java/com/example/wakeworddisplayimage/OpenWakeWord.kt:125-157 | every frame of a loop starting at patience 0 obeys the patience rule with cooldown 20 |
| VerifiedWakeWord.HistoryAt | app/src/main/java/com/example/wakeworddisplayimage/OpenWakeWord.kt:140-157 | frame k's step is the rule applied to the patience left by frame k - 1 |
| VerifiedWakeWord.VerifiedDetectionsApart | app/src/main/java/com/example/wakeworddisplayimage/OpenWakeWord.kt:140-149 | two detections are at least 21 frames apart |
| VerifiedWakeWord.VerifierVeto | app/src/main/java/com/example/wakeworddisplayimage/OpenWakeWord.kt:144-149 | on an armed frame that the verifier scores at most 0.35, there is no detection and patience stays 0 |
| VerifiedWakeWord.OpenWakeWord.constructor | app/src/main/java/com/example/wakeworddisplayimage/OpenWakeWord.kt:47-53 | all four buffers start zero-filled with their declared shapes, and the queue starts empty |
| VerifiedWakeWord.OpenWakeWord.BufferRawData | app/src/main/java/com/example/wakeworddisplayimage/OpenWakeWord.kt:165-172 | the frame is scaled by 100 in place, and the raw window becomes `ShiftAppend` of the old window and the scaled frame |
| VerifiedWakeWord.OpenWakeWord.BufferMelspec | app/src/main/java/com/example/wakeworddisplayimage/OpenWakeWord.kt:174-190 | the mel window advances by the 8 rows 2 + x / 10; a null mel result crashes before any row moves |
| VerifiedWakeWord.OpenWakeWord.EmbeddingInput | app/src/main/java/com/example/wakeworddisplayimage/OpenWakeWord.kt:237-249 | 2432 values with `flat[32 * i + j]` equal to mel row i, bin j, which cut back into the window |
| VerifiedWakeWord.OpenWakeWord.WakewordInput | app/src/main/java/com/example/wakeworddisplayimage/OpenWakeWord.kt:260-272 | 1536 values with `flat[96 * i + j]` equal to embedding row i, entry j, which cut back into the window |
| VerifiedWakeWord.OpenWakeWord.BufferEmbeddings | app/src/main/java/com/example/wakeworddisplayimage/OpenWakeWord.kt:192-208 | the embedding window advances by one row, the embedding of the flattened mel window |
| VerifiedWakeWord.OpenWakeWord.AddScore | app/src/main/java/com/example/wakeworddisplayimage/OpenWakeWord.kt:325-332 | the one-score queue evicts and appends, and the averaged confidence becomes the new score |
| VerifiedWakeWord.OpenWakeWord.GetWakeWordPrediction | app/src/main/java/com/example/wakeworddisplayimage/OpenWakeWord.kt:283-289 | the confidence is the classifier's output on the flattened embedding window, and channel 0 is the averaged confidence |
| VerifiedWakeWord.OpenWakeWord.VerifierOnnxPredict | app/src/main/java/com/example/wakeworddisplayimage/OpenWakeWord.kt:291-303 | the verifier sees the 1536-value row-major flattening of the embedding window |
| VerifiedWakeWord.OpenWakeWord.ProcessFrame | app/src/main/java/com/example/wakeworddisplayimage/OpenWakeWord.kt:129-160 | a read other than 1280 changes nothing; otherwise the three windows advance, and the outcome and the new patience follow `DebounceStep` (or the frame crashes on a null mel or verifier result) |
| WakeWord.DebounceStep | app/src/main/java/com/example/wakeworddisplayimage/openWakeWord.kt:118-128 | the frame obeys the patience rule with cooldown 20 and detects iff armed and the confidence exceeds 0.35 |
| WakeWord.HistoryFollows | app/src/main/java/com/example/wakeworddisplayimage/openWakeWord.kt:109-128 | every frame of a loop starting at patience 0 obeys the patience rule |
| WakeWord.HistoryAt | app/src/main/java/com/example/wakeworddisplayimage/openWakeWord.kt:111-128 | frame k's step is the rule applied to the patience left by frame k - 1 |
| WakeWord.DetectionsAtLeast21Apart | app/src/main/java/com/example/wakeworddisplayimage/openWakeWord.kt:118-124 | two detections are at least 21 frames apart |
| WakeWord.ReportsAgainAfterCooldown | app/src/main/java/com/example/wakeworddisplayimage/openWakeWord.kt:118-124 | 21 frames after a detection, a confidence above 0.35 is reported again |
| WakeWord.SteadyKeyword | app/src/main/java/com/example/wakeworddisplayimage/openWakeWord.kt:109-131 | a steady confidence of 0.9 over 22 frames is reported at frames 0 and 21 and nowhere between |
| WakeWord.ShortToByteArray | app/src/main/java/com/example/wakeworddisplayimage/openWakeWord.kt:360-365 | two bytes, low then high, whose little-endian decode is the short |
| WakeWord.ShortBytesRoundTrip | app/src/main/java/com/example/wakeworddisplayimage/openWakeWord.kt:360-365 | splitting a decoded byte pair gives the same pair back |
| WakeWord.OpenWakeWord.constructor | app/src/main/java/com/example/wakeworddisplayimage/openWakeWord.kt:51-58 | all four buffers start zero-filled with their declared shapes, the queue empty, confidence [0] |
| WakeWord.OpenWakeWord.EmbeddingInput | app/src/main/java/com/example/wakeworddisplayimage/openWakeWord.kt:268-281 | 2432 values, `flat[32 * i + j]` is mel row i, bin j, oldest row first |
| WakeWord.OpenWakeWord.WakewordInput | app/src/main/java/com/example/wakeworddisplayimage/openWakeWord.kt:291-304 | 1536 values, `flat[96 * i + j]` is embedding row i, entry j |
| WakeWord.OpenWakeWord.AddScore | app/src/main/java/com/example/wakeworddisplayimage/openWakeWord.kt:314-320 | the one-score queue evicts and appends, and the averaged confidence becomes the new score |
| WakeWord.OpenWakeWord.BufferAudio | app/src/main/java/com/example/wakeworddisplayimage/openWakeWord.kt:153-159 | the frame is scaled by 3 in place, and the raw window becomes `ShiftAppend` of the old window and the scaled frame |
| WakeWord.OpenWakeWord.BufferFeatures | app/src/main/java/com/example/wakeworddisplayimage/openWakeWord.kt:163-200 | the mel window advances by 8 rows, the embedding window by one row and the confidence is the classifier's output; a null mel result changes nothing |
| WakeWord.OpenWakeWord.BufferEmbedding | app/src/main/java/com/example/wakeworddisplayimage/openWakeWord.kt:181-194 | the embedding of the flattened mel window becomes the newest embedding row |
| WakeWord.OpenWakeWord.Score | app/src/main/java/com/example/wakeworddisplayimage/openWakeWord.kt:198-200 | the confidence is the classifier's output on the flattened embedding window, and its channel 0 is the averaged confidence |
| WakeWord.OpenWakeWord.UpdateBuffers | app/src/main/java/com/example/wakeworddisplayimage/openWakeWord.kt:146-202 | all three windows advance by their batches in order, and the confidence and average come from this frame |
| WakeWord.OpenWakeWord.ProcessFrame | app/src/main/java/com/example/wakeworddisplayimage/openWakeWord.kt:111-131 | a read other than 1280 changes nothing; otherwise the buffers update and the outcome and new patience follow `DebounceStep` on this frame's confidence |
| Recorder.DebounceStep | app/src/main/java/com/example/wakeworddisplayimage/AudioRecorder.kt:149-165 | the frame obeys the patience rule with cooldown 48 and detects iff patience is 0 and the average exceeds 0.9 |
| Recorder.HistoryFollows | app/src/main/java/com/example/wakeworddisplayimage/AudioRecorder.kt:133-165 | every frame of a loop starting at patience 0 obeys the patience rule with cooldown 48 |
| Recorder.DetectionsAtLeast49Apart | app/src/main/java/com/example/wakeworddisplayimage/AudioRecorder.kt:149-165 | two detections are at least 49 frames apart |
| Recorder.PatienceWithinCooldown | app/src/main/java/com/example/wakeworddisplayimage/AudioRecorder.kt:133-165 | patience stays between 0 and 48 |
| Recorder.AverageOfLatestSeven | app/src/main/java/com/example/wakeworddisplayimage/AudioRecorder.kt:71-79 | after any stream of scores the queue is the latest min(7, all) scores, and their mean lies within the scores' bounds |
| Recorder.TrimHeader | app/src/main/java/com/example/wakeworddisplayimage/AudioRecorder.kt:367-375 | the result always has exactly 32000 bytes: bytes 44 .. 32043 of an input over 32043 bytes; otherwise the input cut to 32000 bytes or followed by zeros up to 32000 |
| Recorder.TrimHeaderOfWav | app/src/main/java/com/example/wakeworddisplayimage/AudioRecorder.kt:368-370 | a 44-byte header followed by at least one second of audio yields the first 32000 audio bytes |
| Recorder.TrimHeaderOfShortWav | app/src/main/java/com/example/wakeworddisplayimage/AudioRecorder.kt:372-373 | with less than one second of audio nothing is trimmed: the 44 header bytes stay at the front, the payload follows them (cut at 32000 bytes in all) and zeros pad the rest |
| Recorder.TrimHeaderOfClip | app/src/main/java/com/example/wakeworddisplayimage/AudioRecorder.kt:373 | a headerless clip of exactly 32000 bytes passes unchanged |
| Recorder.ByteArrayToFloatArray | app/src/main/java/com/example/wakeworddisplayimage/AudioRecorder.kt:307-318 | one float per whole 4-byte word; trailing bytes are ignored |
| Recorder.FloatArrayRoundTrip | app/src/main/java/com/example/wakeworddisplayimage/AudioRecorder.kt:307-318 | bytes written for floats that the reader recovers from their words read back as those floats, in order |
| Recorder.PadStart | app/src/main/java/com/example/wakeworddisplayimage/AudioRecorder.kt:323 | `padStart` gives the larger of the string's length and the target length |
| Recorder.ToBinaryLength | app/src/main/java/com/example/wakeworddisplayimage/AudioRecorder.kt:323 | `toString(2)` of a value below 2^k has at most k digits |
| Recorder.ToBinaryValue | app/src/main/java/com/example/wakeworddisplayimage/AudioRecorder.kt:323 | reading `toString(2)` back as binary gives the value |
| Recorder.ToBinaryDigits | app/src/main/java/com/example/wakeworddisplayimage/AudioRecorder.kt:323 | `toString(2)` contains only '0' and '1' |
| Recorder.LeadingZeros | app/src/main/java/com/example/wakeworddisplayimage/AudioRecorder.kt:323 | padding with '0' on the left keeps the binary value |
| Recorder.ByteBits | app/src/main/java/com/example/wakeworddisplayimage/AudioRecorder.kt:323 | every byte's block has exactly 8 characters |
| Recorder.ByteBitsValue | app/src/main/java/com/example/wakeworddisplayimage/AudioRecorder.kt:323 | a byte's block is 8 binary digits whose value is the unsigned byte |
| Recorder.ByteArrayToBits | app/src/main/java/com/example/wakeworddisplayimage/AudioRecorder.kt:320-325 | the string has 8 characters per byte |
| Recorder.ByteArrayToBitsBlocks | app/src/main/java/com/example/wakeworddisplayimage/AudioRecorder.kt:320-325 | characters 8k .. 8k + 8 are byte k's block |
| Recorder.ByteArrayToBitsRoundTrip | app/src/main/java/com/example/wakeworddisplayimage/AudioRecorder.kt:320-325 | block k read as binary is the unsigned value of byte k |
| Recorder.IsBufferZeroed | app/src/main/java/com/example/wakeworddisplayimage/AudioRecorder.kt:102-109 | true iff every byte below the limit is 0 |
| Recorder.PreprocessAudio | app/src/main/java/com/example/wakeworddisplayimage/AudioRecorder.kt:173-181 | a fresh rewound buffer of 4 bytes per sample holding sample / 32768 for every sample in order |
| Recorder.PutSamples | app/src/main/java/com/example/wakeworddisplayimage/AudioRecorder.kt:337-341 | the `step 2` loop writes the normalised decode of every byte pair, and it throws exactly when the length is odd |
| Recorder.ConvertByteArrayToFloat32Buffer | app/src/main/java/com/example/wakeworddisplayimage/AudioRecorder.kt:331-347 | odd length throws; otherwise a fresh rewound buffer of size / 2 * 4 bytes holding sample k = decode(bytes 2k, 2k + 1) / 32768 in order |
| Recorder.ConvertByteArrayToFloat16Buffer | app/src/main/java/com/example/wakeworddisplayimage/AudioRecorder.kt:349-365 | the same result as the Float32 conversion |
| Recorder.TailThenIncoming | app/src/main/java/com/example/wakeworddisplayimage/AudioRecorder.kt:92-96 | after the two puts the window is the old tail, then the incoming bytes, then untouched bytes; with n incoming bytes its first limit bytes are `ShiftAppend` of the old ones |
| Recorder.AudioRecorder.constructor | app/src/main/java/com/example/wakeworddisplayimage/AudioRecorder.kt:48-49 | a zero-filled 64000-byte window with position 0 and full limit, and an empty score queue |
| Recorder.AudioRecorder.AddScore | app/src/main/java/com/example/wakeworddisplayimage/AudioRecorder.kt:71-79 | the queue is the old queue pushed with the score (at most 7, oldest evicted), and the result is its mean |
| Recorder.AudioRecorder.TakeTail | app/src/main/java/com/example/wakeworddisplayimage/AudioRecorder.kt:85-90 | position n past the limit throws with nothing changed; otherwise it returns the bytes from n to the limit and clears |
| Recorder.AudioRecorder.UpdateBuffer | app/src/main/java/com/example/wakeworddisplayimage/AudioRecorder.kt:82-100 | throws, changing nothing, exactly when the new capacity n exceeds the limit; otherwise the window holds the old bytes [n, limit) then the new readable bytes, flipped; for a full rewound input the limit is kept and the readable window is `ShiftAppend` |
| Recorder.AudioRecorder.AppendAudio | app/src/main/java/com/example/wakeworddisplayimage/AudioRecorder.kt:142-143 | the window's readable bytes shift left by the normalised frame's bytes, which are appended; it throws when they exceed the limit |
| Recorder.AudioRecorder.ProcessFrame | app/src/main/java/com/example/wakeworddisplayimage/AudioRecorder.kt:139-168 | a read of nothing changes nothing; otherwise the window shifts, the classifier's channel 1 joins the seven-score queue, and the outcome and patience follow `DebounceStep` on the mean |

## Left out

- Audio capture and device plumbing are not modelled: `AudioRecord` setup and reads, permissions, recording threads, `AudioTrack`, `MediaPlayer`/`playSound`, file loading. A frame's samples and its read count are inputs to `ProcessFrame`.
- Coroutines and UI hand-off are not modelled: scopes, `withContext(Dispatchers.Main)`, view-model counters, logging. Each listening-loop iteration is one synchronous `ProcessFrame` call, and the `isListening` loop itself is the `History` function of each variant.
- The inference sessions are function parameters returning their declared shapes: `runMelspecPrediction`, `runInference`, `runVerifierPrediction`, `*ModelPredict`, TFLite/ONNX. What those models compute is outside this model.
- `AudioProcessor.kt` is not part of this model. It holds the STFT and mel filter-bank numerics over a foreign FFT library.
- `saveAsNpy`, `convertShortArrayToFloat`, `melspecInput`, `byteBufferToFloatBuffer` and the unused `preprocessAudio` of `openWakeWord.kt` are not modelled. They are file output, or helpers the streaming step never calls.
- Float rounding is not modelled. Samples, gains, `2 + x / 10`, means and thresholds are `real`. The IEEE bit layout `putFloat` writes, and the native byte order, are the parameters `encode`/`decode`.
- Packing the flat vectors into `ByteBuffer`s via `asFloatBuffer().put` is not modelled. The stages receive the flat vectors directly.
- VerifiedWakeWord.OpenWakeWord.ProcessFrame: a read that returns other than 1280 may still have written some samples into `newAudioData`. The model leaves the read to the caller and states only that the frame's own step changes nothing.
- WakeWord.OpenWakeWord.ProcessFrame: the same partial-read caveat applies.
- Recorder.AudioRecorder.ProcessFrame: the classifier sees the window's readable bytes. The model leaves out the position side effects of TFLite's `loadBuffer` and the size check that throws when the limit is not 64000. The next `updateBuffer` sets the position again either way.
- Recorder.PutSamples: at an odd length the source throws at the last index, after writing the complete pairs into a local buffer that is then lost. The model returns `false` and says nothing about that buffer's contents.
- Recorder.ByteArrayToFloatArray: reads little-endian words with an abstract `decode`, so it does not model the IEEE 754 reinterpretation of the bits.
- Recorder.FloatArrayRoundTrip: a 4-byte word holds only finitely many values, so the round trip is promised only for streams whose every value the reader recovers from its word (a float value, in the source). Which reals those are is not modelled.
- The verifier's output extraction (`result[1]`, map key `1L`) is not modelled. It is folded into the `Verifier` function parameter.
