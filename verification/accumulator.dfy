/** The running weighted sums of detect_movenet.js: a JavaScript `Map` from
    keypoint name to `{x, y, totalScore}`, kept here as the sequence of keys
    in insertion order plus a map from key to entry. The trial loop is
    modelled as it is written (trials, then the first pose's keypoints, one
    callback each), and it is proved equal to a plain fold over the flat
    sequence of observations, about which the sums and the key order are
    stated. */
module Accumulator {
  import opened NameSeqs
  import opened Keypoints

  /** Weighted coordinate sums and the total confidence of one name. */
  datatype Entry = Entry(x: real, y: real, totalScore: real)

  /** The entry a name gets the first time it is seen. */
  const Zero: Entry := Entry(0.0, 0.0, 0.0)

  function Plus(a: Entry, b: Entry): Entry {
    Entry(a.x + b.x, a.y + b.y, a.totalScore + b.totalScore)
  }

  lemma PlusAssoc(a: Entry, b: Entry, c: Entry)
    ensures Plus(Plus(a, b), c) == Plus(a, Plus(b, c))
  {
  }

  /** What one observation adds to its name's entry. */
  function Weighted(kp: Keypoint): Entry {
    Entry(kp.x * kp.score, kp.y * kp.score, kp.score)
  }

  /** An insertion-ordered map: `order` lists the keys of `entries` in the
      order they were first set. */
  datatype WeightedSums = WeightedSums(order: seq<string>, entries: map<string, Entry>) {

    /** The keys are listed once each, and `order` and `entries` agree on them. */
    predicate Valid() {
      && Distinct(order)
      && (forall n :: n in entries ==> n in order)
      && (forall k :: 0 <= k < |order| ==> order[k] in entries)
    }

    /** The entry of `n`, reading an absent name as all zeros. */
    function Get(n: string): Entry {
      if n in entries then entries[n] else Zero
    }
  }

  /** The accumulator before the first trial. */
  const Empty: WeightedSums := WeightedSums([], map[])

  /** Adds one observation to its name's entry, first creating that entry
      with zeros (and so appending the name to the key order) if the name is new. */
  function Add(acc: WeightedSums, kp: Keypoint): (r: WeightedSums)
    ensures r.Get(kp.name) == Plus(acc.Get(kp.name), Weighted(kp))
    ensures forall n :: n != kp.name ==> r.Get(n) == acc.Get(n)
    ensures r.entries.Keys == acc.entries.Keys + {kp.name}
    ensures kp.name in acc.entries ==> r.order == acc.order
    ensures kp.name !in acc.entries ==> r.order == acc.order + [kp.name]
    ensures acc.Valid() ==> r.Valid()
  {
    var isNew := kp.name !in acc.entries;
    var entry := if isNew then Zero else acc.entries[kp.name];
    WeightedSums(if isNew then acc.order + [kp.name] else acc.order,
                 acc.entries[kp.name := Plus(entry, Weighted(kp))])
  }

  /** The `forEach` callback: an excluded name is dropped, any other is added. */
  function Observe(acc: WeightedSums, kp: Keypoint): (r: WeightedSums)
    ensures IsExcluded(kp.name) ==> r == acc
    ensures !IsExcluded(kp.name) ==> r.Get(kp.name) == Plus(acc.Get(kp.name), Weighted(kp))
    ensures forall n :: n != kp.name ==> r.Get(n) == acc.Get(n)
    ensures forall n :: n in r.entries <==> n in acc.entries || (n == kp.name && !IsExcluded(n))
  {
    if IsExcluded(kp.name) then acc else Add(acc, kp)
  }

  /** Adds a sequence of (already filtered) observations, first to last. */
  function Fold(acc: WeightedSums, obs: seq<Keypoint>): (r: WeightedSums)
    ensures forall n :: n in r.entries <==> n in acc.entries || n in Names(obs)
    ensures acc.Valid() ==> r.Valid()
    decreases |obs|
  {
    if obs == [] then acc
    else
      assert forall n :: n in Names(obs) <==> n == obs[0].name || n in Names(obs[1..]) by {
        assert Names(obs) == [obs[0].name] + Names(obs[1..]);
      }
      Fold(Add(acc, obs[0]), obs[1..])
  }

  /** Runs the callback over every keypoint of one pose, in order. */
  function ProcessPose(acc: WeightedSums, kps: seq<Keypoint>): (r: WeightedSums)
    ensures r == Fold(acc, Retained(kps))
    decreases |kps|
  {
    if kps == [] then acc
    else
      var tail := Retained(kps[1..]);
      assert Retained(kps) == if IsExcluded(kps[0].name) then tail else [kps[0]] + tail by {
        assert IsExcluded(kps[0].name) ==> [] + tail == tail;
      }
      assert !IsExcluded(kps[0].name) ==> Fold(acc, [kps[0]] + tail) == Fold(Add(acc, kps[0]), tail) by {
        assert ([kps[0]] + tail)[1..] == tail;
      }
      ProcessPose(Observe(acc, kps[0]), kps[1..])
  }

  /** One trial: skipped when no pose was detected, otherwise only the first pose counts. */
  function ProcessTrial(acc: WeightedSums, poses: Trial): (r: WeightedSums)
    ensures |poses| == 0 ==> r == acc
    ensures r == Fold(acc, Contributions(poses))
  {
    if |poses| == 0 then acc else ProcessPose(acc, poses[0].keypoints)
  }

  /** The trial loop, first trial to last. */
  function Accumulate(acc: WeightedSums, trials: seq<Trial>): (r: WeightedSums)
    ensures r == Fold(acc, Observations(trials))
    decreases |trials|
  {
    if trials == [] then acc
    else
      FoldAppend(acc, Contributions(trials[0]), Observations(trials[1..]));
      Accumulate(ProcessTrial(acc, trials[0]), trials[1..])
  }

  /** Folding a concatenation folds its two parts one after the other. */
  lemma {:induction false} FoldAppend(acc: WeightedSums, a: seq<Keypoint>, b: seq<Keypoint>)
    ensures Fold(acc, a + b) == Fold(Fold(acc, a), b)
    decreases |a|
  {
    if a == [] {
      assert a + b == b;
    } else {
      assert (a + b)[0] == a[0];
      assert (a + b)[1..] == a[1..] + b;
      FoldAppend(Add(acc, a[0]), a[1..], b);
    }
  }

  /** The entry of a name after a run, recomputed directly: the sum, over the
      observations of that name, of `x*score`, `y*score` and `score`. */
  function SumFor(obs: seq<Keypoint>, n: string): Entry {
    if obs == [] then Zero
    else Plus(if obs[0].name == n then Weighted(obs[0]) else Zero, SumFor(obs[1..], n))
  }

  /** Folding adds to every entry exactly the weighted sum of that name's observations. */
  lemma {:induction false} FoldGet(acc: WeightedSums, obs: seq<Keypoint>, n: string)
    ensures Fold(acc, obs).Get(n) == Plus(acc.Get(n), SumFor(obs, n))
    decreases |obs|
  {
    if obs == [] {
      assert SumFor(obs, n) == Zero;
    } else {
      var next := Add(acc, obs[0]);
      var w := if obs[0].name == n then Weighted(obs[0]) else Zero;
      assert Fold(acc, obs) == Fold(next, obs[1..]);
      assert SumFor(obs, n) == Plus(w, SumFor(obs[1..], n));
      FoldGet(next, obs[1..], n);
      assert next.Get(n) == Plus(acc.Get(n), w);
      PlusAssoc(acc.Get(n), w, SumFor(obs[1..], n));
    }
  }

  lemma {:induction false} SumForAppend(a: seq<Keypoint>, b: seq<Keypoint>, n: string)
    ensures SumFor(a + b, n) == Plus(SumFor(a, n), SumFor(b, n))
    decreases |a|
  {
    if a == [] {
      assert a + b == b;
    } else {
      assert (a + b)[0] == a[0];
      assert (a + b)[1..] == a[1..] + b;
      SumForAppend(a[1..], b, n);
    }
  }

  /** `order` lists every name of `names` once, in order of first occurrence. */
  ghost predicate FirstSightOrder(order: seq<string>, names: seq<string>) {
    && Distinct(order)
    && (forall n :: n in order <==> n in names)
    && (forall a, b :: 0 <= a < b < |order| ==> FirstIndex(names, order[a]) < FirstIndex(names, order[b]))
  }

  /** Adding one observation keeps the key order in order of first sight. */
  lemma FoldOrderStep(before: WeightedSums, pre: seq<string>, o: Keypoint)
    requires before.Valid() && FirstSightOrder(before.order, pre)
    ensures Add(before, o).Valid() && FirstSightOrder(Add(before, o).order, pre + [o.name])
  {
    forall n | n in pre
      ensures FirstIndex(pre + [o.name], n) == FirstIndex(pre, n)
    {
      FirstIndexAppend(pre, o.name, n);
    }
    if o.name in before.entries {
      SeenAgain(before.order, pre, o.name);
    } else {
      SeenFirst(before.order, pre, o.name);
    }
  }

  /** A name already in the order leaves it in order of first sight. */
  lemma SeenAgain(order: seq<string>, pre: seq<string>, m: string)
    requires FirstSightOrder(order, pre) && m in order
    requires forall n :: n in pre ==> FirstIndex(pre + [m], n) == FirstIndex(pre, n)
    ensures FirstSightOrder(order, pre + [m])
  {
    var names := pre + [m];
    forall a | 0 <= a < |order|
      ensures FirstIndex(names, order[a]) == FirstIndex(pre, order[a])
    {
      assert order[a] in pre;
    }
  }

  /** A new name appended to the order is the last to be first seen. */
  lemma SeenFirst(order: seq<string>, pre: seq<string>, m: string)
    requires FirstSightOrder(order, pre) && m !in order
    requires forall n :: n in pre ==> FirstIndex(pre + [m], n) == FirstIndex(pre, n)
    ensures FirstSightOrder(order + [m], pre + [m])
  {
    var names := pre + [m];
    var after := order + [m];
    FirstIndexAppendNew(pre, m);
    forall a | 0 <= a < |order|
      ensures after[a] == order[a] && FirstIndex(names, after[a]) == FirstIndex(pre, order[a]) < |pre|
    {
      assert order[a] in pre;
    }
    assert after[|order|] == m;
  }

  /** Starting from the empty map, the key order lists each observed name
      once, in the order of its first observation. */
  lemma {:induction false} FoldOrder(obs: seq<Keypoint>)
    ensures Fold(Empty, obs).Valid()
    ensures FirstSightOrder(Fold(Empty, obs).order, Names(obs))
    decreases |obs|
  {
    if obs == [] {
      assert Names(obs) == [];
    } else {
      var pre := obs[..|obs| - 1];
      var o := obs[|obs| - 1];
      assert obs == pre + [o];
      FoldOrder(pre);
      FoldAppend(Empty, pre, [o]);
      var before := Fold(Empty, pre);
      assert Fold(before, [o]) == Add(before, o);
      assert Names(obs) == Names(pre) + [o.name] by {
        NamesAppend(pre, [o]);
        assert Names([o]) == [o.name];
      }
      FoldOrderStep(before, Names(pre), o);
    }
  }
}
