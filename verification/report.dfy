/** The output pass of detect_movenet.js: every accumulated name, in insertion
    order, becomes one record of confidence-weighted mean coordinates and mean
    confidence per trial, unless its total confidence is exactly zero. The
    records are returned instead of being printed. */
module Report {
  import opened NameSeqs
  import opened Keypoints
  import opened Accumulator

  /** One output line: the name, the weighted mean position and the mean score. */
  datatype Average = Average(name: string, avgX: real, avgY: real, avgScore: real)

  /** `rec` is the weighted mean of `e` over `numTrials` trials: `e` has a
      non-zero total confidence, the mean coordinates times that total give
      back the weighted sums, and the mean score times the trial count gives
      back the total. */
  predicate Summarises(rec: Average, e: Entry, numTrials: nat) {
    && e.totalScore != 0.0
    && rec.avgX * e.totalScore == e.x
    && rec.avgY * e.totalScore == e.y
    && rec.avgScore * numTrials as real == e.totalScore
  }

  /** The names of the records, in order. This is the projection that
      `Keypoints.Names` makes of observations, taken here of output records;
      the two element types share no supertype, so each keeps its own. */
  function Labels(out: seq<Average>): (ns: seq<string>)
    ensures |ns| == |out|
    ensures forall i :: 0 <= i < |out| ==> ns[i] == out[i].name
  {
    seq(|out|, i requires 0 <= i < |out| => out[i].name)
  }

  lemma LabelsCons(rec: Average, rest: seq<Average>)
    ensures Labels([rec] + rest) == [rec.name] + Labels(rest)
  {
  }

  /** Dividing by the total confidence and by the trial count gives the record that summarises an entry. */
  lemma MeanSummarises(n: string, e: Entry, numTrials: nat)
    requires e.totalScore != 0.0 && numTrials > 0
    ensures Summarises(Average(n, e.x / e.totalScore, e.y / e.totalScore, e.totalScore / numTrials as real), e, numTrials)
  {
  }

  /** Walks the keys in insertion order and reports every entry whose total
      confidence is not exactly zero, as the mean of that entry. */
  function Finalise(order: seq<string>, entries: map<string, Entry>, numTrials: nat): (out: seq<Average>)
    requires forall k :: 0 <= k < |order| ==> order[k] in entries
    requires numTrials > 0 || order == []
    ensures forall i :: 0 <= i < |out| ==>
              out[i].name in order && Summarises(out[i], entries[out[i].name], numTrials)
    decreases |order|
  {
    if order == [] then []
    else
      var n := order[0];
      var e := entries[n];
      var rest := Finalise(order[1..], entries, numTrials);
      if e.totalScore == 0.0 then rest
      else
        MeanSummarises(n, e, numTrials);
        [Average(n, e.x / e.totalScore, e.y / e.totalScore, e.totalScore / numTrials as real)] + rest
  }

  /** Every key with a non-zero total confidence is reported. */
  lemma {:induction false} FinaliseCovers(order: seq<string>, entries: map<string, Entry>, numTrials: nat)
    requires forall k :: 0 <= k < |order| ==> order[k] in entries
    requires numTrials > 0 || order == []
    ensures forall n :: n in order && entries[n].totalScore != 0.0 ==> n in Labels(Finalise(order, entries, numTrials))
    decreases |order|
  {
    if order != [] {
      var e := entries[order[0]];
      var rest := Finalise(order[1..], entries, numTrials);
      FinaliseCovers(order[1..], entries, numTrials);
      assert forall n :: n in order ==> n == order[0] || n in order[1..];
      if e.totalScore != 0.0 {
        var rec := Average(order[0], e.x / e.totalScore, e.y / e.totalScore, e.totalScore / numTrials as real);
        assert Finalise(order, entries, numTrials) == [rec] + rest;
        LabelsCons(rec, rest);
      }
    }
  }

  /** The records follow the insertion order of their keys. */
  lemma {:induction false} FinaliseOrder(order: seq<string>, entries: map<string, Entry>, numTrials: nat)
    requires Distinct(order)
    requires forall k :: 0 <= k < |order| ==> order[k] in entries
    requires numTrials > 0 || order == []
    ensures InKeyOrder(order, Finalise(order, entries, numTrials))
    decreases |order|
  {
    if order != [] {
      var e := entries[order[0]];
      var rest := Finalise(order[1..], entries, numTrials);
      FinaliseOrder(order[1..], entries, numTrials);
      KeyOrderTail(order, rest);
      if e.totalScore != 0.0 {
        var rec := Average(order[0], e.x / e.totalScore, e.y / e.totalScore, e.totalScore / numTrials as real);
        assert Finalise(order, entries, numTrials) == [rec] + rest;
        KeyOrderCons(order, rec, rest);
      } else {
        assert Finalise(order, entries, numTrials) == rest;
      }
    }
  }

  /** Every record names a key, and the records follow the order of their keys in `order`. */
  predicate InKeyOrder(order: seq<string>, out: seq<Average>) {
    && (forall i :: 0 <= i < |out| ==> out[i].name in order)
    && (forall i, j :: 0 <= i < j < |out| && out[i].name in order && out[j].name in order ==>
          FirstIndex(order, out[i].name) < FirstIndex(order, out[j].name))
  }

  /** Records in the order of the tail of a list without repeats are in the order of the list. */
  lemma KeyOrderTail(order: seq<string>, rest: seq<Average>)
    requires Distinct(order) && order != [] && InKeyOrder(order[1..], rest)
    ensures InKeyOrder(order, rest)
    ensures forall i :: 0 <= i < |rest| ==> rest[i].name != order[0]
  {
    FirstIndexTail(order);
    forall i | 0 <= i < |rest|
      ensures rest[i].name in order && rest[i].name != order[0]
      ensures FirstIndex(order, rest[i].name) == 1 + FirstIndex(order[1..], rest[i].name)
    {
      assert rest[i].name in order[1..];
    }
  }

  /** Putting the record of the head key in front keeps the records in key order. */
  lemma KeyOrderCons(order: seq<string>, rec: Average, rest: seq<Average>)
    requires order != [] && rec.name == order[0] && InKeyOrder(order, rest)
    requires forall i :: 0 <= i < |rest| ==> rest[i].name != order[0]
    ensures InKeyOrder(order, [rec] + rest)
  {
    var out := [rec] + rest;
    assert FirstIndex(order, order[0]) == 0;
    forall i, j | 0 <= i < j < |out|
      ensures FirstIndex(order, out[i].name) < FirstIndex(order, out[j].name)
    {
      assert out[j] == rest[j - 1];
      if i > 0 {
        assert out[i] == rest[i - 1];
      }
    }
  }

  /** The accumulator of a run is well formed and holds no excluded name. */
  lemma AccumulatedKeys(trials: seq<Trial>)
    ensures var acc := Accumulate(Empty, trials);
            && acc.Valid()
            && (|trials| > 0 || acc.order == [])
            && forall n :: n in acc.order ==> !IsExcluded(n)
  {
    FoldOrder(Observations(trials));
    forall n | n in Accumulate(Empty, trials).order
      ensures !IsExcluded(n)
    {
      InNames(Observations(trials), n);
    }
  }

  /** The whole aggregation: accumulate every trial from an empty map, then
      average over the number of trials, counting those that detected no pose. */
  function WeightedPoseDetection(trials: seq<Trial>): (out: seq<Average>)
    ensures forall i :: 0 <= i < |out| ==> !IsExcluded(out[i].name)
  {
    var acc := Accumulate(Empty, trials);
    AccumulatedKeys(trials);
    Finalise(acc.order, acc.entries, |trials|)
  }
}
