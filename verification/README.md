# Confidence-weighted keypoint aggregation

This project models the aggregation step of `weightedPoseDetection` in
`detect_movenet.js`. The function runs a single-pose detector several times
on the same image and averages the keypoints over the trials. It then
reports, for each joint it keeps, a position weighted by confidence and a
mean confidence.

The detector is not modelled. A run is given as the sequence of its trial
results (`seq<Trial>`, with `Trial = seq<Pose>`), and the trial count
`numTrials` is the length of that sequence. JavaScript numbers are modelled
as `real`, so the model states the exact arithmetic the code intends.

- `name_seqs.dfy` (`NameSeqs`): distinctness and the first index of a name in a sequence.
- `keypoints.dfy` (`Keypoints`): keypoints, poses and trials, and the exclusion set `EXCLUDED_KEYPOINTS`. It also defines which observations a run is meant to contribute: the non-excluded keypoints of the first pose of every trial that detected a pose, in order.
- `accumulator.dfy` (`Accumulator`): the `Map` of weighted sums, kept as a list of keys in insertion order plus a map from key to entry. The trial loop and its `forEach` callback are modelled as written. A proof shows the loop equals a plain fold over the flat observations, and the sums and key order are stated about that fold.
- `report.dfy` (`Report`): the output loop and the whole function. The output records are returned instead of printed.
- `properties.dfy` (`Properties`): properties of whole runs:
  - empty trials and later poses change nothing;
  - what the output is in terms of the observations;
  - the denominator counts every trial;
  - a worked three-trial run.
- `constant_input.dfy` (`ConstantInput`): exact averages when a joint is always seen with the same position and score.

Two choices follow the code exactly:

- The code skips an entry only when its total confidence is exactly `0` (`detect_movenet.js:58`), so the model keeps `== 0.0`. An entry whose scores sum to a negative value is therefore reported.
- The divisor is the number of trials (`detect_movenet.js:61`), including trials that detected no pose and were skipped (`detect_movenet.js:38`).

The constant-input results allow, besides the trials that see the keypoint, trials that detect no pose, trials whose first pose lacks the keypoint, and sightings of the same name with score zero at any position: the last add zero to all three sums.

## Model

| member | source | states |
|---|---|---|
| Keypoints.Retained | detect_movenet.js:41 | a keypoint survives the filter exactly when its name is not one of the ten excluded lower-body, wrist and elbow joints of `EXCLUDED_KEYPOINTS` (lines 13-19); nothing is added |
| Keypoints.ObservationNames | detect_movenet.js:36-41 | a name is among the observations of a run exactly when it is not excluded and occurs in the first pose of some trial that detected a pose |
| Accumulator.Add | detect_movenet.js:42-48 | the observed name's entry grows by `x*score`, `y*score` and `score`, starting from zeros if it is new; every other entry is unchanged; a new name is appended to the key order, a known one leaves it as it was; a well-formed map stays well formed |
| Accumulator.Observe | detect_movenet.js:40-49 | the callback leaves the map exactly unchanged for an excluded name, and otherwise adds the observation; the keys afterwards are the old keys plus the name if it is not excluded |
| Accumulator.ProcessPose | detect_movenet.js:40-49 | running the callback over a pose is the same as adding its non-excluded keypoints one after another |
| Accumulator.ProcessTrial | detect_movenet.js:37-40 | a trial without poses leaves the map exactly unchanged; otherwise only its first pose's retained keypoints are added |
| Accumulator.Accumulate | detect_movenet.js:34-52 | the trial loop equals one fold over the run's flat observation sequence |
| Accumulator.FoldGet | detect_movenet.js:42-48 | after any run of observations, each name's entry is its starting entry plus the sum, over that name's observations, of `x*score`, `y*score` and `score` |
| Accumulator.FoldOrder | detect_movenet.js:42-44 | starting from the empty map, the key order lists every observed name once, in the order of its first observation |
| Report.Finalise | detect_movenet.js:57-61 | every record belongs to a key with a non-zero total confidence; its mean position times that total gives back the weighted sums, and its mean score times the trial count gives back the total |
| Report.FinaliseCovers | detect_movenet.js:57-58 | every key whose total confidence is not zero gets a record, the converse of Finalise's guard |
| Report.FinaliseOrder | detect_movenet.js:57 | records come out in the insertion order of their keys |
| Report.WeightedPoseDetection | detect_movenet.js:21-63 | no excluded name is ever reported, whatever its score |
| Properties.EmptyTrialsAddNothing | detect_movenet.js:38 | trials that detected no pose add nothing: the accumulator equals the one for the run with those trials removed |
| Properties.OnlyFirstPoseCounts | detect_movenet.js:40 | two runs that agree on which trials detected a pose, and on the first pose of each, give the same accumulator and the same output, whatever the later poses are |
| Properties.AccumulatedSums | detect_movenet.js:34-52 | the accumulator's keys are exactly the observed names, so never an excluded one; they are listed in order of first sight, each holding the weighted sums of its observations |
| Properties.OutputCharacterisation | detect_movenet.js:34-63 | the output has one record for exactly those observed names whose total confidence is not zero, each the weighted mean of that name's observations with the total divided by the trial count, in order of first sight |
| Properties.FinaliseRescale | detect_movenet.js:59-61 | the trial count affects only the scores: names, order and positions are the same for any count, and the scores scale inversely with it |
| Properties.EmptyTrialStillCounts | detect_movenet.js:38-61 | appending a trial that detects nothing keeps every name and position, and scales every score by `numTrials/(numTrials+1)`: empty trials count in the denominator |
| Properties.NoseRun | detect_movenet.js:34-63 | three trials (no pose; nose at (10,20) with score 0.5; nose at (12,22) with score 0.9) report only the nose, at (79/7, 149/7) with score 7/15 |
| Properties.ExcludedKneeRun | detect_movenet.js:41 | a run that sees only a knee reports nothing, whatever the knee's score |
| ConstantInput.ConstantObservations | detect_movenet.js:36-61 | a name seen with the same position and a non-zero score `s` in exactly `k` trials, and otherwise absent from a first pose or seen there with score zero, is reported at exactly that position with score `s*k/numTrials` |
| ConstantInput.ZeroScoreTrial | detect_movenet.js:36-61 | the nose at (10, 20) with score 0.5 in one trial and score 0 in the other is reported at (10, 20) with score 0.25 |
| ConstantInput.TrialsSeeing | detect_movenet.js:36-40 | the number of trials whose first pose holds a keypoint is at most the trial count, and equals it exactly when every trial holds it |
| ConstantInput.SameInEveryTrial | detect_movenet.js:36-61 | a name seen once, with the same position and non-zero score, in every trial is reported at that position with that score |

## Left out

- Creating the MoveNet detector (`detect_movenet.js:23-28`) and the inference call (`detect_movenet.js:37`): these are an external neural-network library. Their results are the input sequence of trials.
- Reading and decoding the image (`detect_movenet.js:31-32`) and disposing of the tensor (`detect_movenet.js:54`): these are I/O and resource handling.
- The `tf.nextFrame()` yield every tenth trial (`detect_movenet.js:51`): this is event-loop pacing with no effect on the result.
- Printing with `padEnd` and `toFixed` (`detect_movenet.js:62`): the records are returned unrounded instead.
- IEEE-754 rounding, infinities and NaN: all arithmetic is exact `real` arithmetic.
- The default `numTrials = 50` and the fixed image path (`detect_movenet.js:21, 66`): a run has as many trials as its input sequence.
- `detect_blazepose.py`: a wrapper around OpenCV and MediaPipe with no aggregation logic of its own.
- A zero trial count with a non-empty map: the code cannot reach it, because zero trials leave the map empty. The finalisation therefore requires a positive count unless there are no keys.
