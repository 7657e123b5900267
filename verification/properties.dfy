/** Properties of the whole aggregation, stated against the reference
    definitions of which observations a run contributes. */
module Properties {
  import opened NameSeqs
  import opened Keypoints
  import opened Accumulator
  import opened Report

  // ---------------------------------------------------------------------
  // Which trials and poses matter
  // ---------------------------------------------------------------------

  lemma {:induction false} ObservationsAppend(a: seq<Trial>, b: seq<Trial>)
    ensures Observations(a + b) == Observations(a) + Observations(b)
    decreases |a|
  {
    if a == [] {
      assert a + b == b;
    } else {
      assert (a + b)[0] == a[0];
      assert (a + b)[1..] == a[1..] + b;
      ObservationsAppend(a[1..], b);
    }
  }

  lemma ObservationsSingle(t: Trial)
    ensures Observations([t]) == Contributions(t)
  {
    assert [t][1..] == [];
  }

  /** The trials that detected at least one pose, in order. */
  function NonEmptyTrials(trials: seq<Trial>): (kept: seq<Trial>)
    ensures |kept| <= |trials|
    ensures forall i :: 0 <= i < |kept| ==> |kept[i]| > 0
  {
    if trials == [] then []
    else (if |trials[0]| == 0 then [] else [trials[0]]) + NonEmptyTrials(trials[1..])
  }

  lemma {:induction false} EmptyTrialsObserveNothing(trials: seq<Trial>)
    ensures Observations(trials) == Observations(NonEmptyTrials(trials))
    decreases |trials|
  {
    if trials != [] {
      var rest := NonEmptyTrials(trials[1..]);
      EmptyTrialsObserveNothing(trials[1..]);
      if |trials[0]| == 0 {
        assert NonEmptyTrials(trials) == [] + rest == rest;
        assert Observations(trials) == [] + Observations(trials[1..]);
      } else {
        var kept := [trials[0]] + rest;
        assert NonEmptyTrials(trials) == kept;
        assert kept[0] == trials[0] && kept[1..] == rest;
      }
    }
  }

  /** Trials that detected no pose add nothing: the accumulator after a run
      is the one after the same run with those trials removed. */
  lemma EmptyTrialsAddNothing(acc: WeightedSums, trials: seq<Trial>)
    ensures Accumulate(acc, trials) == Accumulate(acc, NonEmptyTrials(trials))
  {
    EmptyTrialsObserveNothing(trials);
  }

  /** Two runs whose trials detect poses in the same trials, with the same
      first pose each time. */
  predicate SameFirstPoses(a: seq<Trial>, b: seq<Trial>) {
    && |a| == |b|
    && forall i :: 0 <= i < |a| ==>
         && (|a[i]| == 0 <==> |b[i]| == 0)
         && (|a[i]| > 0 ==> a[i][0] == b[i][0])
  }

  lemma {:induction false} FirstPosesDetermineObservations(a: seq<Trial>, b: seq<Trial>)
    requires SameFirstPoses(a, b)
    ensures Observations(a) == Observations(b)
    decreases |a|
  {
    if a != [] {
      assert SameFirstPoses(a[1..], b[1..]) by {
        forall i | 0 <= i < |a[1..]|
          ensures (|a[1..][i]| == 0 <==> |b[1..][i]| == 0) && (|a[1..][i]| > 0 ==> a[1..][i][0] == b[1..][i][0])
        {
          assert a[1..][i] == a[i + 1] && b[1..][i] == b[i + 1];
        }
      }
      FirstPosesDetermineObservations(a[1..], b[1..]);
    }
  }

  /** Only the first pose of a trial counts: changing, adding or removing the
      poses after it, in any trial, changes neither the accumulator nor the output. */
  lemma OnlyFirstPoseCounts(a: seq<Trial>, b: seq<Trial>)
    requires SameFirstPoses(a, b)
    ensures Accumulate(Empty, a) == Accumulate(Empty, b)
    ensures WeightedPoseDetection(a) == WeightedPoseDetection(b)
  {
    FirstPosesDetermineObservations(a, b);
  }

  // ---------------------------------------------------------------------
  // The accumulator and the output, characterised
  // ---------------------------------------------------------------------

  /** The accumulator of a run is keyed by exactly the observed names (so never
      by an excluded one), lists them in order of first sight, and holds for
      each the weighted sums of its observations. */
  lemma AccumulatedSums(trials: seq<Trial>)
    ensures var acc := Accumulate(Empty, trials);
            && acc.Valid()
            && (forall n :: n in acc.entries <==> ObservedName(trials, n))
            && (forall n :: IsExcluded(n) ==> n !in acc.entries)
            && FirstSightOrder(acc.order, Names(Observations(trials)))
            && (forall n :: acc.Get(n) == SumFor(Observations(trials), n))
  {
    var obs := Observations(trials);
    var acc := Accumulate(Empty, trials);
    FoldOrder(obs);
    forall n
      ensures (n in acc.entries <==> ObservedName(trials, n)) && acc.Get(n) == SumFor(obs, n)
    {
      ObservationNames(trials, n);
      FoldGet(Empty, obs, n);
    }
  }

  /** The output is the report of the accumulator of the run. */
  lemma OutputIsReport(trials: seq<Trial>)
    ensures var acc := Accumulate(Empty, trials);
            && acc.Valid()
            && (|trials| > 0 || acc.order == [])
            && WeightedPoseDetection(trials) == Finalise(acc.order, acc.entries, |trials|)
  {
    AccumulatedKeys(trials);
  }

  /** Every record names an observed name and is the weighted mean of its observations. */
  lemma OutputRecords(trials: seq<Trial>)
    ensures var obs := Observations(trials);
            var out := WeightedPoseDetection(trials);
            forall i :: 0 <= i < |out| ==>
              && ObservedName(trials, out[i].name)
              && out[i].name in Names(obs)
              && Summarises(out[i], SumFor(obs, out[i].name), |trials|)
  {
    var obs := Observations(trials);
    var acc := Accumulate(Empty, trials);
    var out := WeightedPoseDetection(trials);
    OutputIsReport(trials);
    AccumulatedSums(trials);
    forall i | 0 <= i < |out|
      ensures ObservedName(trials, out[i].name) && out[i].name in Names(obs)
      ensures Summarises(out[i], SumFor(obs, out[i].name), |trials|)
    {
      var n := out[i].name;
      assert n in acc.order;
      ObservationNames(trials, n);
      assert acc.entries[n] == acc.Get(n);
    }
  }

  /** Every observed name with a non-zero total confidence is reported. */
  lemma OutputCoverage(trials: seq<Trial>)
    ensures var obs := Observations(trials);
            var out := WeightedPoseDetection(trials);
            forall n :: ObservedName(trials, n) && SumFor(obs, n).totalScore != 0.0 ==> n in Labels(out)
  {
    var obs := Observations(trials);
    var acc := Accumulate(Empty, trials);
    OutputIsReport(trials);
    AccumulatedSums(trials);
    FinaliseCovers(acc.order, acc.entries, |trials|);
    forall n | ObservedName(trials, n) && SumFor(obs, n).totalScore != 0.0
      ensures n in acc.order && acc.entries[n].totalScore != 0.0
    {
      assert acc.Get(n) == acc.entries[n];
    }
  }

  /** The records come in order of the first observation of their names. */
  lemma OutputOrder(trials: seq<Trial>)
    ensures var obs := Observations(trials);
            var out := WeightedPoseDetection(trials);
            forall i, j :: 0 <= i < j < |out| ==>
              FirstIndex(Names(obs), out[i].name) < FirstIndex(Names(obs), out[j].name)
  {
    var obs := Observations(trials);
    var acc := Accumulate(Empty, trials);
    var out := WeightedPoseDetection(trials);
    OutputIsReport(trials);
    AccumulatedSums(trials);
    FinaliseOrder(acc.order, acc.entries, |trials|);
    forall i, j | 0 <= i < j < |out|
      ensures FirstIndex(Names(obs), out[i].name) < FirstIndex(Names(obs), out[j].name)
    {
      var p := FirstIndex(acc.order, out[i].name);
      var q := FirstIndex(acc.order, out[j].name);
      assert p < q;
    }
  }

  /** What the aggregation reports, in terms of the observations alone: a
      record for exactly those observed names whose total confidence is not
      zero, each the weighted mean of that name's observations with the total
      confidence divided by the number of trials, in order of first sight. */
  lemma OutputCharacterisation(trials: seq<Trial>)
    ensures var obs := Observations(trials);
            var out := WeightedPoseDetection(trials);
            && (forall i :: 0 <= i < |out| ==>
                  && ObservedName(trials, out[i].name)
                  && out[i].name in Names(obs)
                  && Summarises(out[i], SumFor(obs, out[i].name), |trials|))
            && (forall n :: ObservedName(trials, n) && SumFor(obs, n).totalScore != 0.0 ==> n in Labels(out))
            && (forall i, j :: 0 <= i < j < |out| ==>
                  FirstIndex(Names(obs), out[i].name) < FirstIndex(Names(obs), out[j].name))
  {
    OutputRecords(trials);
    OutputCoverage(trials);
    OutputOrder(trials);
  }

  // ---------------------------------------------------------------------
  // The denominator counts every trial
  // ---------------------------------------------------------------------

  /** Which names are reported does not depend on the trial count. */
  lemma {:induction false} FinaliseLabels(order: seq<string>, entries: map<string, Entry>, n1: nat, n2: nat)
    requires forall k :: 0 <= k < |order| ==> order[k] in entries
    requires (n1 > 0 && n2 > 0) || order == []
    ensures Labels(Finalise(order, entries, n1)) == Labels(Finalise(order, entries, n2))
    decreases |order|
  {
    if order != [] {
      var e := entries[order[0]];
      var a' := Finalise(order[1..], entries, n1);
      var b' := Finalise(order[1..], entries, n2);
      FinaliseLabels(order[1..], entries, n1, n2);
      if e.totalScore != 0.0 {
        var ra := Average(order[0], e.x / e.totalScore, e.y / e.totalScore, e.totalScore / n1 as real);
        var rb := Average(order[0], e.x / e.totalScore, e.y / e.totalScore, e.totalScore / n2 as real);
        assert Finalise(order, entries, n1) == [ra] + a';
        assert Finalise(order, entries, n2) == [rb] + b';
        LabelsCons(ra, a');
        LabelsCons(rb, b');
      }
    }
  }

  /** `a` and `b` report the same names at the same positions, in the same
      order, with scores in inverse proportion to the trial counts `n1` and `n2`. */
  predicate Rescaled(a: seq<Average>, b: seq<Average>, n1: nat, n2: nat) {
    && |a| == |b|
    && forall i :: 0 <= i < |a| ==>
         && a[i].name == b[i].name && a[i].avgX == b[i].avgX && a[i].avgY == b[i].avgY
         && a[i].avgScore * n1 as real == b[i].avgScore * n2 as real
  }

  /** Finalising the same entries over two trial counts changes only the scores,
      in inverse proportion to the counts. */
  lemma FinaliseRescale(order: seq<string>, entries: map<string, Entry>, n1: nat, n2: nat)
    requires forall k :: 0 <= k < |order| ==> order[k] in entries
    requires (n1 > 0 && n2 > 0) || order == []
    ensures Rescaled(Finalise(order, entries, n1), Finalise(order, entries, n2), n1, n2)
  {
    var a := Finalise(order, entries, n1);
    var b := Finalise(order, entries, n2);
    FinaliseLabels(order, entries, n1, n2);
    assert forall n :: n in order ==> n in entries;
    SummariesRescaled(a, b, entries, n1, n2);
  }

  /** Two lists of records with the same names that summarise the same entries. */
  lemma SummariesRescaled(a: seq<Average>, b: seq<Average>, entries: map<string, Entry>, n1: nat, n2: nat)
    requires Labels(a) == Labels(b)
    requires forall i :: 0 <= i < |a| ==> a[i].name in entries && Summarises(a[i], entries[a[i].name], n1)
    requires forall i :: 0 <= i < |b| ==> b[i].name in entries && Summarises(b[i], entries[b[i].name], n2)
    ensures Rescaled(a, b, n1, n2)
  {
    forall i | 0 <= i < |a|
      ensures && a[i].name == b[i].name && a[i].avgX == b[i].avgX && a[i].avgY == b[i].avgY
              && a[i].avgScore * n1 as real == b[i].avgScore * n2 as real
    {
      assert a[i].name == Labels(a)[i] == Labels(b)[i] == b[i].name;
      SameMean(a[i], b[i], entries[a[i].name], n1, n2);
    }
  }

  /** Two summaries of one entry over different trial counts. */
  lemma SameMean(ra: Average, rb: Average, e: Entry, n1: nat, n2: nat)
    requires Summarises(ra, e, n1) && Summarises(rb, e, n2)
    ensures ra.avgX == rb.avgX && ra.avgY == rb.avgY
    ensures ra.avgScore * n1 as real == rb.avgScore * n2 as real
  {
    Cancel(ra.avgX, rb.avgX, e.totalScore);
    Cancel(ra.avgY, rb.avgY, e.totalScore);
  }

  lemma Cancel(a: real, b: real, d: real)
    requires d != 0.0 && a * d == b * d
    ensures a == b
  {
    assert a == (a * d) / d;
    assert b == (b * d) / d;
  }

  /** A trial that detects nothing still counts: appending it leaves every
      reported name and position as they were and scales every score by
      `numTrials / (numTrials + 1)`. */
  lemma EmptyTrialStillCounts(trials: seq<Trial>)
    ensures Rescaled(WeightedPoseDetection(trials + [[]]), WeightedPoseDetection(trials), |trials| + 1, |trials|)
  {
    var acc := Accumulate(Empty, trials);
    TrailingEmptyTrial(trials);
    OutputIsReport(trials);
    OutputIsReport(trials + [[]]);
    var before := Finalise(acc.order, acc.entries, |trials|);
    var after := Finalise(acc.order, acc.entries, |trials| + 1);
    assert WeightedPoseDetection(trials) == before;
    assert WeightedPoseDetection(trials + [[]]) == after;
    FinaliseRescale(acc.order, acc.entries, |trials| + 1, |trials|);
  }

  /** A trailing trial that detects nothing leaves the accumulator unchanged. */
  lemma TrailingEmptyTrial(trials: seq<Trial>)
    ensures Accumulate(Empty, trials + [[]]) == Accumulate(Empty, trials)
  {
    ObservationsAppend(trials, [[]]);
    ObservationsSingle([]);
    assert Observations(trials + [[]]) == Observations(trials) + [];
    assert Observations(trials) + [] == Observations(trials);
  }

  // ---------------------------------------------------------------------
  // Worked runs
  // ---------------------------------------------------------------------

  /** Three trials, the first detecting nothing, the other two seeing the nose
      at (10, 20) with score 0.5 and at (12, 22) with score 0.9. */
  function NoseTrials(): seq<Trial> {
    [[], [Pose([Keypoint("nose", 10.0, 20.0, 0.5)])], [Pose([Keypoint("nose", 12.0, 22.0, 0.9)])]]
  }

  lemma NoseObservations()
    ensures Observations(NoseTrials()) ==
            [Keypoint("nose", 10.0, 20.0, 0.5), Keypoint("nose", 12.0, 22.0, 0.9)]
  {
    var first := Keypoint("nose", 10.0, 20.0, 0.5);
    var second := Keypoint("nose", 12.0, 22.0, 0.9);
    assert NoseTrials() == [[]] + [[Pose([first])]] + [[Pose([second])]];
    ObservationsAppend([[]] + [[Pose([first])]], [[Pose([second])]]);
    ObservationsAppend([[]], [[Pose([first])]]);
    ObservationsSingle([]);
    ObservationsSingle([Pose([first])]);
    ObservationsSingle([Pose([second])]);
    assert Retained([first]) == [first];
    assert Retained([second]) == [second];
  }

  /** The nose run accumulates one entry: 10*0.5 + 12*0.9, 20*0.5 + 22*0.9 and 0.5 + 0.9. */
  lemma NoseRunSums()
    ensures Accumulate(Empty, NoseTrials()) == WeightedSums(["nose"], map["nose" := Entry(15.8, 29.8, 1.4)])
  {
    var first := Keypoint("nose", 10.0, 20.0, 0.5);
    var second := Keypoint("nose", 12.0, 22.0, 0.9);
    NoseObservations();
    assert [first, second] == [first] + [second];
    FoldAppend(Empty, [first], [second]);
    assert [first][1..] == [] && [second][1..] == [];
    var once := WeightedSums(["nose"], map["nose" := Entry(5.0, 10.0, 0.5)]);
    NoseFirstAdd();
    NoseSecondAdd();
    assert Fold(Empty, [first]) == once;
    assert Fold(once, [second]) == Add(once, second);
  }

  lemma NoseFirstAdd()
    ensures Add(Empty, Keypoint("nose", 10.0, 20.0, 0.5)) == WeightedSums(["nose"], map["nose" := Entry(5.0, 10.0, 0.5)])
  {
  }

  lemma NoseSecondAdd()
    ensures Add(WeightedSums(["nose"], map["nose" := Entry(5.0, 10.0, 0.5)]), Keypoint("nose", 12.0, 22.0, 0.9))
            == WeightedSums(["nose"], map["nose" := Entry(15.8, 29.8, 1.4)])
  {
  }

  lemma NoseReport()
    ensures Finalise(["nose"], map["nose" := Entry(15.8, 29.8, 1.4)], 3) ==
            [Average("nose", 79.0 / 7.0, 149.0 / 7.0, 7.0 / 15.0)]
  {
    var e := Entry(15.8, 29.8, 1.4);
    assert ["nose"][1..] == [];
    assert Finalise(["nose"], map["nose" := e], 3) ==
           [Average("nose", 15.8 / 1.4, 29.8 / 1.4, 1.4 / 3.0)] + Finalise([], map["nose" := e], 3);
  }

  /** The nose run reports the nose at (79/7, 149/7), about (11.29, 21.29), with score 7/15. */
  lemma NoseRun()
    ensures WeightedPoseDetection(NoseTrials()) == [Average("nose", 79.0 / 7.0, 149.0 / 7.0, 7.0 / 15.0)]
  {
    NoseRunSums();
    NoseReport();
  }

  /** An excluded joint is never reported, whatever its score. */
  lemma ExcludedKneeRun(score: real)
    ensures WeightedPoseDetection([[Pose([Keypoint("left_knee", 1.0, 2.0, score)])]]) == []
  {
  }
}
