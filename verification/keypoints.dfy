/** What one inference call returns, the fixed exclusion set, and reference
    definitions of which observations the aggregation is meant to use: the
    non-excluded keypoints of the first pose of every trial, in trial order.
    The pose detector itself is not modelled; a run is given as the sequence
    of its per-trial results. */
module Keypoints {

  /** One keypoint estimate: a joint name, pixel coordinates and a confidence. */
  datatype Keypoint = Keypoint(name: string, x: real, y: real, score: real)

  /** One detected person. */
  datatype Pose = Pose(keypoints: seq<Keypoint>)

  /** The result of one inference trial: the detected poses, possibly none. */
  type Trial = seq<Pose>

  /** Lower-body joints, wrists and elbows are discarded before aggregation. */
  const ExcludedKeypoints: set<string> := {
    "right_ankle", "left_ankle",
    "right_knee", "left_knee",
    "right_hip", "left_hip",
    "right_wrist", "left_wrist",
    "right_elbow", "left_elbow"
  }

  predicate IsExcluded(name: string) {
    name in ExcludedKeypoints
  }

  /** The keypoints of a pose that survive the exclusion filter, in order. */
  function Retained(kps: seq<Keypoint>): (obs: seq<Keypoint>)
    ensures forall kp :: kp in obs <==> kp in kps && !IsExcluded(kp.name)
    ensures |obs| <= |kps|
  {
    if kps == [] then []
    else (if IsExcluded(kps[0].name) then [] else [kps[0]]) + Retained(kps[1..])
  }

  /** What one trial contributes: nothing when no pose was detected, otherwise
      the retained keypoints of the first pose only. */
  function Contributions(trial: Trial): (obs: seq<Keypoint>)
    ensures forall kp :: kp in obs <==> |trial| > 0 && kp in trial[0].keypoints && !IsExcluded(kp.name)
  {
    if |trial| == 0 then [] else Retained(trial[0].keypoints)
  }

  /** Every observation of a run, trial after trial. */
  function Observations(trials: seq<Trial>): (obs: seq<Keypoint>)
    ensures forall kp :: kp in obs ==> !IsExcluded(kp.name)
  {
    if trials == [] then [] else Contributions(trials[0]) + Observations(trials[1..])
  }

  /** The names of a sequence of observations, position by position. */
  function Names(obs: seq<Keypoint>): (ns: seq<string>)
    ensures |ns| == |obs|
    ensures forall i :: 0 <= i < |obs| ==> ns[i] == obs[i].name
  {
    seq(|obs|, i requires 0 <= i < |obs| => obs[i].name)
  }

  /** The first pose of `trial`, if there is one, has a keypoint named `n`. */
  predicate InFirstPose(trial: Trial, n: string) {
    |trial| > 0 && exists kp :: kp in trial[0].keypoints && kp.name == n
  }

  /** `n` is a non-excluded name in the first pose of some trial that detected a pose. */
  ghost predicate ObservedName(trials: seq<Trial>, n: string) {
    !IsExcluded(n) && exists i :: 0 <= i < |trials| && InFirstPose(trials[i], n)
  }

  lemma NamesAppend(a: seq<Keypoint>, b: seq<Keypoint>)
    ensures Names(a + b) == Names(a) + Names(b)
  {
  }

  lemma InNames(obs: seq<Keypoint>, n: string)
    ensures n in Names(obs) <==> exists kp :: kp in obs && kp.name == n
  {
    if n in Names(obs) {
      var j :| 0 <= j < |obs| && Names(obs)[j] == n;
      assert obs[j] in obs;
    }
  }

  /** One trial contributes a name exactly when its first pose holds it and it is not excluded. */
  lemma ContributionNames(trial: Trial, n: string)
    ensures n in Names(Contributions(trial)) <==> !IsExcluded(n) && InFirstPose(trial, n)
  {
    InNames(Contributions(trial), n);
  }

  /** The flat observation sequence names exactly the observed names. */
  lemma {:induction false} ObservationNames(trials: seq<Trial>, n: string)
    ensures n in Names(Observations(trials)) <==> ObservedName(trials, n)
  {
    if trials != [] {
      ObservationNames(trials[1..], n);
      ContributionNames(trials[0], n);
      NamesAppend(Contributions(trials[0]), Observations(trials[1..]));
      if ObservedName(trials, n) {
        var i :| 0 <= i < |trials| && InFirstPose(trials[i], n);
        if i > 0 {
          assert trials[1..][i - 1] == trials[i];
        }
      }
      if ObservedName(trials[1..], n) {
        var i :| 0 <= i < |trials[1..]| && InFirstPose(trials[1..][i], n);
        assert trials[i + 1] == trials[1..][i];
      }
    }
  }
}
