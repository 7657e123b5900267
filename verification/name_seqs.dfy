/** Small facts about sequences of keypoint names: distinctness and the
    position of a name's first occurrence. The aggregation's output order is
    the order in which names were first seen, and these two notions are how
    that order is stated. */
module NameSeqs {

  /** No name occurs twice. */
  predicate Distinct(s: seq<string>) {
    forall i, j :: 0 <= i < j < |s| ==> s[i] != s[j]
  }

  /** The index of the first occurrence of `n` in `s`. */
  function FirstIndex(s: seq<string>, n: string): (k: nat)
    requires n in s
    ensures k < |s| && s[k] == n
    ensures n !in s[..k]
  {
    if s[0] == n then 0
    else
      var k' := FirstIndex(s[1..], n);
      assert s[..k' + 1] == [s[0]] + s[1..][..k'];
      k' + 1
  }

  /** Appending leaves the first occurrence of a name already present where it was. */
  lemma FirstIndexAppend(s: seq<string>, m: string, n: string)
    requires n in s
    ensures n in s + [m] && FirstIndex(s + [m], n) == FirstIndex(s, n)
  {
    var k := FirstIndex(s, n);
    var k' := FirstIndex(s + [m], n);
    assert (s + [m])[k] == n;
    assert (s + [m])[..k'] == s[..k'] by { assert k' <= k; }
  }

  /** A name appended for the first time occurs first at the old length. */
  lemma FirstIndexAppendNew(s: seq<string>, n: string)
    requires n !in s
    ensures FirstIndex(s + [n], n) == |s|
  {
  }

  /** In a list without repeats, the names after the head are not the head,
      and their first occurrence is one further on than in the tail. */
  lemma FirstIndexTail(s: seq<string>)
    requires Distinct(s) && s != []
    ensures forall m :: m in s[1..] ==> m != s[0] && FirstIndex(s, m) == 1 + FirstIndex(s[1..], m)
  {
    forall m | m in s[1..]
      ensures m != s[0] && FirstIndex(s, m) == 1 + FirstIndex(s[1..], m)
    {
      var k :| 0 <= k < |s[1..]| && s[1..][k] == m;
      assert s[k + 1] == m;
    }
  }
}
