/** Exact averages for constant input: a keypoint reported at the same
    position with the same score whenever it is seen comes out at that
    position, with that score scaled by the fraction of trials that saw it. */
module ConstantInput {
  import opened Keypoints
  import opened Accumulator
  import opened Report
  import opened Properties

  /** How many keypoints of a pose are exactly `kp`. */
  function Occurrences(kps: seq<Keypoint>, kp: Keypoint): nat {
    if kps == [] then 0
    else (if kps[0] == kp then 1 else 0) + Occurrences(kps[1..], kp)
  }

  /** How often the first pose of a trial holds exactly `kp`. */
  function Sightings(trial: Trial, kp: Keypoint): nat {
    if |trial| == 0 then 0 else Occurrences(trial[0].keypoints, kp)
  }

  /** How many trials of a run hold `kp` in their first pose: at most all of
      them, and all of them exactly when every trial does. */
  function TrialsSeeing(trials: seq<Trial>, kp: Keypoint): (k: nat)
    ensures k <= |trials|
    ensures k == |trials| <==> forall i :: 0 <= i < |trials| ==> Sightings(trials[i], kp) > 0
  {
    if trials == [] then 0
    else
      assert forall i :: 0 <= i < |trials[1..]| ==> trials[1..][i] == trials[i + 1];
      (if Sightings(trials[0], kp) > 0 then 1 else 0) + TrialsSeeing(trials[1..], kp)
  }

  /** `c` copies of the contribution `e`, added up. */
  function Scale(c: nat, e: Entry): Entry {
    if c == 0 then Zero else Plus(e, Scale(c - 1, e))
  }

  lemma {:induction false} ScaleAdd(a: nat, b: nat, e: Entry)
    ensures Plus(Scale(a, e), Scale(b, e)) == Scale(a + b, e)
    decreases a
  {
    if a > 0 {
      ScaleAdd(a - 1, b, e);
      PlusAssoc(e, Scale(a - 1, e), Scale(b, e));
    }
  }

  lemma ScaleOne(e: Entry)
    ensures Scale(1, e) == e && Scale(0, e) == Zero
  {
    assert Scale(1, e) == Plus(e, Scale(0, e));
  }

  /** Adding up `c` copies multiplies each component by `c`. */
  lemma {:induction false} ScaleIsProduct(c: nat, e: Entry)
    ensures Scale(c, e) == Entry(c as real * e.x, c as real * e.y, c as real * e.totalScore)
    decreases c
  {
    if c > 0 {
      ScaleIsProduct(c - 1, e);
      assert c as real * e.x == e.x + (c - 1) as real * e.x;
      assert c as real * e.y == e.y + (c - 1) as real * e.y;
      assert c as real * e.totalScore == e.totalScore + (c - 1) as real * e.totalScore;
    }
  }

  /** Dropping excluded keypoints does not change the sums of a kept name. */
  lemma {:induction false} RetainedSum(kps: seq<Keypoint>, n: string)
    requires !IsExcluded(n)
    ensures SumFor(Retained(kps), n) == SumFor(kps, n)
    decreases |kps|
  {
    if kps == [] {
      assert Retained(kps) == [];
    } else {
      var tail := Retained(kps[1..]);
      RetainedSum(kps[1..], n);
      if IsExcluded(kps[0].name) {
        assert Retained(kps) == [] + tail == tail;
      } else {
        assert Retained(kps) == [kps[0]] + tail;
        assert ([kps[0]] + tail)[1..] == tail;
      }
    }
  }

  /** A keypoint with zero confidence contributes nothing, wherever it is. */
  lemma WeightlessAtZero(kp: Keypoint)
    requires kp.score == 0.0
    ensures Weighted(kp) == Zero
  {
  }

  /** If every keypoint named `kp.name` is `kp` or has zero confidence, their
      sum is one copy of the contribution of `kp` per occurrence of it. */
  lemma {:induction false} ConstantPoseSum(kps: seq<Keypoint>, kp: Keypoint)
    requires forall j :: 0 <= j < |kps| && kps[j].name == kp.name ==> kps[j] == kp || kps[j].score == 0.0
    ensures SumFor(kps, kp.name) == Scale(Occurrences(kps, kp), Weighted(kp))
    decreases |kps|
  {
    if kps == [] {
      assert SumFor(kps, kp.name) == Zero;
    } else {
      var rest := kps[1..];
      assert forall j :: 0 <= j < |rest| ==> rest[j] == kps[j + 1];
      ConstantPoseSum(rest, kp);
      var head: nat := if kps[0] == kp then 1 else 0;
      var first := if kps[0].name == kp.name then Weighted(kps[0]) else Zero;
      assert SumFor(kps, kp.name) == Plus(first, SumFor(rest, kp.name));
      assert Occurrences(kps, kp) == head + Occurrences(rest, kp);
      if kps[0].name == kp.name && kps[0] != kp {
        WeightlessAtZero(kps[0]);
      }
      ScaleOne(Weighted(kp));
      assert first == Scale(head, Weighted(kp));
      ScaleAdd(head, Occurrences(rest, kp), Weighted(kp));
    }
  }

  /** Every keypoint named `kp.name` in a first pose of the run is either `kp`
      itself or has zero confidence (at any position), and no first pose holds
      `kp` twice. */
  predicate ConstantSightings(trials: seq<Trial>, kp: Keypoint) {
    && (forall i :: 0 <= i < |trials| ==> Sightings(trials[i], kp) <= 1)
    && (forall i, j ::
          && 0 <= i < |trials|
          && |trials[i]| > 0
          && 0 <= j < |trials[i][0].keypoints|
          && trials[i][0].keypoints[j].name == kp.name
          ==> trials[i][0].keypoints[j] == kp || trials[i][0].keypoints[j].score == 0.0)
  }

  /** What one trial contributes to a constant name: one copy if it sees it, none otherwise. */
  lemma TrialSum(t: Trial, kp: Keypoint)
    requires !IsExcluded(kp.name)
    requires ConstantSightings([t], kp)
    ensures SumFor(Contributions(t), kp.name) == Scale(if Sightings(t, kp) > 0 then 1 else 0, Weighted(kp))
  {
    if |t| == 0 {
      assert SumFor([], kp.name) == Zero;
    } else {
      assert [t][0] == t;
      RetainedSum(t[0].keypoints, kp.name);
      ConstantPoseSum(t[0].keypoints, kp);
    }
  }

  /** Constant sightings hold of the first trial alone and of the rest of the run. */
  lemma ConstantSightingsSplit(trials: seq<Trial>, kp: Keypoint)
    requires trials != [] && ConstantSightings(trials, kp)
    ensures ConstantSightings([trials[0]], kp) && ConstantSightings(trials[1..], kp)
  {
    assert forall i :: 0 <= i < |trials[1..]| ==> trials[1..][i] == trials[i + 1];
    assert forall i :: 0 <= i < 1 ==> [trials[0]][i] == trials[i];
  }

  lemma RunSumStep(trials: seq<Trial>, kp: Keypoint)
    requires trials != []
    ensures SumFor(Observations(trials), kp.name) ==
            Plus(SumFor(Contributions(trials[0]), kp.name), SumFor(Observations(trials[1..]), kp.name))
    ensures TrialsSeeing(trials, kp) == (if Sightings(trials[0], kp) > 0 then 1 else 0) + TrialsSeeing(trials[1..], kp)
  {
    SumForAppend(Contributions(trials[0]), Observations(trials[1..]), kp.name);
  }

  lemma {:induction false} ConstantRunSum(trials: seq<Trial>, kp: Keypoint)
    requires !IsExcluded(kp.name)
    requires ConstantSightings(trials, kp)
    ensures SumFor(Observations(trials), kp.name) == Scale(TrialsSeeing(trials, kp), Weighted(kp))
    decreases |trials|
  {
    var n := kp.name;
    var w := Weighted(kp);
    if trials == [] {
      assert SumFor([], n) == Zero;
    } else {
      var t := trials[0];
      var seen := if Sightings(t, kp) > 0 then 1 else 0;
      var restSeen := TrialsSeeing(trials[1..], kp);
      ConstantSightingsSplit(trials, kp);
      ConstantRunSum(trials[1..], kp);
      TrialSum(t, kp);
      RunSumStep(trials, kp);
      ScaleAdd(seen, restSeen, w);
    }
  }

  /** A name with non-zero weighted sums occurs among the observations. */
  lemma {:induction false} SumForOnlyObserved(obs: seq<Keypoint>, n: string)
    requires SumFor(obs, n).totalScore != 0.0
    ensures n in Names(obs)
    decreases |obs|
  {
    if obs[0].name != n {
      assert SumFor(obs, n).totalScore == SumFor(obs[1..], n).totalScore;
      SumForOnlyObserved(obs[1..], n);
      assert Names(obs) == [obs[0].name] + Names(obs[1..]);
    }
  }

  /** The record of `k` copies of one observation, over `numTrials` trials. */
  lemma MeanOfCopies(rec: Average, k: nat, kp: Keypoint, numTrials: nat)
    requires k > 0 && numTrials > 0
    requires Summarises(rec, Scale(k, Weighted(kp)), numTrials)
    ensures rec.avgX == kp.x && rec.avgY == kp.y
    ensures rec.avgScore == kp.score * k as real / numTrials as real
  {
    MeanXOfCopies(rec, k, kp, numTrials);
    MeanYOfCopies(rec, k, kp, numTrials);
    MeanScoreOfCopies(rec, k, kp, numTrials);
  }

  lemma MeanXOfCopies(rec: Average, k: nat, kp: Keypoint, numTrials: nat)
    requires k > 0 && numTrials > 0
    requires Summarises(rec, Scale(k, Weighted(kp)), numTrials)
    ensures rec.avgX == kp.x
  {
    var e := Scale(k, Weighted(kp));
    ScaleIsProduct(k, Weighted(kp));
    CoordinateOfCopies(rec.avgX, e.x, e.totalScore, kp.x, kp.score, k as real);
  }

  lemma MeanYOfCopies(rec: Average, k: nat, kp: Keypoint, numTrials: nat)
    requires k > 0 && numTrials > 0
    requires Summarises(rec, Scale(k, Weighted(kp)), numTrials)
    ensures rec.avgY == kp.y
  {
    var e := Scale(k, Weighted(kp));
    ScaleIsProduct(k, Weighted(kp));
    CoordinateOfCopies(rec.avgY, e.y, e.totalScore, kp.y, kp.score, k as real);
  }

  lemma MeanScoreOfCopies(rec: Average, k: nat, kp: Keypoint, numTrials: nat)
    requires k > 0 && numTrials > 0
    requires Summarises(rec, Scale(k, Weighted(kp)), numTrials)
    ensures rec.avgScore == kp.score * k as real / numTrials as real
  {
    var e := Scale(k, Weighted(kp));
    ScaleIsProduct(k, Weighted(kp));
    ScoreOfCopies(rec.avgScore, e.totalScore, kp.score, k as real, numTrials as real);
  }

  /** A weighted mean of `c` equal values is that value. */
  lemma CoordinateOfCopies(avg: real, sum: real, total: real, v: real, s: real, c: real)
    requires sum == c * (v * s) && total == c * s
    requires total != 0.0 && avg * total == sum
    ensures avg == v
  {
    assert c * (v * s) == v * (c * s);
    Cancel(avg, v, c * s);
  }

  lemma ScoreOfCopies(avg: real, total: real, s: real, c: real, n: real)
    requires total == c * s
    requires n != 0.0 && avg * n == total
    ensures avg == s * c / n
  {
    assert (s * c / n) * n == c * s;
    Cancel(avg, s * c / n, n);
  }

  /** `k > 0` copies of a contribution with non-zero confidence have non-zero total confidence. */
  lemma ScaleTotalNonZero(k: nat, e: Entry)
    requires k > 0 && e.totalScore != 0.0
    ensures Scale(k, e).totalScore != 0.0
  {
    ScaleIsProduct(k, e);
    NonZeroProduct(k as real, e.totalScore);
  }

  lemma NonZeroProduct(a: real, b: real)
    requires a != 0.0 && b != 0.0
    ensures a * b != 0.0
  {
  }

  /** The record of one copy of an observation per trial. */
  lemma MeanOfAllCopies(rec: Average, kp: Keypoint, numTrials: nat)
    requires numTrials > 0
    requires Summarises(rec, Scale(numTrials, Weighted(kp)), numTrials)
    ensures rec.avgX == kp.x && rec.avgY == kp.y && rec.avgScore == kp.score
  {
    MeanOfCopies(rec, numTrials, kp, numTrials);
    TimesOver(kp.score, numTrials as real);
  }

  lemma TimesOver(s: real, c: real)
    requires c != 0.0
    ensures s * c / c == s
  {
  }

  /** Under constant sightings the name is reported, and its record
      summarises `k` copies of its one observation. */
  lemma ConstantRecord(trials: seq<Trial>, kp: Keypoint, k: nat)
    requires !IsExcluded(kp.name) && kp.score != 0.0
    requires ConstantSightings(trials, kp)
    requires k == TrialsSeeing(trials, kp) && k > 0
    ensures var out := WeightedPoseDetection(trials);
            && kp.name in Labels(out)
            && forall i :: 0 <= i < |out| && out[i].name == kp.name ==>
                 Summarises(out[i], Scale(k, Weighted(kp)), |trials|)
  {
    var obs := Observations(trials);
    ConstantRunSum(trials, kp);
    ScaleTotalNonZero(k, Weighted(kp));
    SumForOnlyObserved(obs, kp.name);
    ObservationNames(trials, kp.name);
    OutputCharacterisation(trials);
  }

  /** A name seen with the same position and non-zero score `s` in exactly `k`
      of the trials, and otherwise either absent from a first pose or seen
      there with score zero (at any position), is reported at exactly that
      position with score `s*k/numTrials`. */
  lemma ConstantObservations(trials: seq<Trial>, kp: Keypoint, k: nat)
    requires !IsExcluded(kp.name) && kp.score != 0.0
    requires ConstantSightings(trials, kp)
    requires k == TrialsSeeing(trials, kp) && k > 0
    ensures var out := WeightedPoseDetection(trials);
            && kp.name in Labels(out)
            && forall i :: 0 <= i < |out| && out[i].name == kp.name ==>
                 out[i] == Average(kp.name, kp.x, kp.y, kp.score * k as real / |trials| as real)
  {
    var out := WeightedPoseDetection(trials);
    ConstantRecord(trials, kp, k);
    forall i | 0 <= i < |out| && out[i].name == kp.name
      ensures out[i] == Average(kp.name, kp.x, kp.y, kp.score * k as real / |trials| as real)
    {
      MeanOfCopies(out[i], k, kp, |trials|);
    }
  }

  /** The case of a keypoint reported identically by every trial: it comes
      out at that position with that score. */
  lemma SameInEveryTrial(trials: seq<Trial>, kp: Keypoint)
    requires !IsExcluded(kp.name) && kp.score != 0.0 && trials != []
    requires ConstantSightings(trials, kp)
    requires forall i :: 0 <= i < |trials| ==> Sightings(trials[i], kp) == 1
    ensures var out := WeightedPoseDetection(trials);
            && kp.name in Labels(out)
            && forall i :: 0 <= i < |out| && out[i].name == kp.name ==>
                 out[i] == Average(kp.name, kp.x, kp.y, kp.score)
  {
    var out := WeightedPoseDetection(trials);
    ConstantRecord(trials, kp, |trials|);
    forall i | 0 <= i < |out| && out[i].name == kp.name
      ensures out[i] == Average(kp.name, kp.x, kp.y, kp.score)
    {
      MeanOfAllCopies(out[i], kp, |trials|);
    }
  }

  /** Two trials: the nose at (10, 20) with score 0.5, then with score 0. */
  function ZeroScoreTrials(): seq<Trial> {
    [[Pose([Keypoint("nose", 10.0, 20.0, 0.5)])], [Pose([Keypoint("nose", 10.0, 20.0, 0.0)])]]
  }

  lemma ZeroScoreCounts()
    ensures ConstantSightings(ZeroScoreTrials(), Keypoint("nose", 10.0, 20.0, 0.5))
    ensures TrialsSeeing(ZeroScoreTrials(), Keypoint("nose", 10.0, 20.0, 0.5)) == 1
  {
    var kp := Keypoint("nose", 10.0, 20.0, 0.5);
    var off := Keypoint("nose", 10.0, 20.0, 0.0);
    var trials := ZeroScoreTrials();
    assert Occurrences([kp], kp) == 1 by { assert [kp][1..] == []; }
    assert Occurrences([off], kp) == 0 by { assert [off][1..] == []; }
    assert trials[1..] == [[Pose([off])]];
    assert trials[1..][1..] == [];
  }

  /** The nose seen at (10, 20) with score 0.5 in one trial and with score 0 in
      the other is reported at (10, 20) with score 0.25. */
  lemma ZeroScoreTrial()
    ensures var out := WeightedPoseDetection(ZeroScoreTrials());
            && "nose" in Labels(out)
            && forall i :: 0 <= i < |out| && out[i].name == "nose" ==> out[i] == Average("nose", 10.0, 20.0, 0.25)
  {
    var kp := Keypoint("nose", 10.0, 20.0, 0.5);
    var trials := ZeroScoreTrials();
    assert |trials| == 2;
    assert kp.score * 1 as real / |trials| as real == 0.25;
    ZeroScoreCounts();
    ConstantObservations(trials, kp, 1);
  }
}
