/** Insertion by a key, for the samples of a percentile and for the files of a recovered queue. */
module Sorting {
  import opened Common

  predicate Ascending<T(!new)>(s: seq<T>, key: T -> nat) {
    forall i, j :: 0 <= i < j < |s| ==> key(s[i]) <= key(s[j])
  }

  function Insert<T>(s: seq<T>, x: T, key: T -> nat): seq<T> {
    if s == [] || key(x) <= key(s[0]) then [x] + s else [s[0]] + Insert(s[1..], x, key)
  }

  lemma {:induction false} InsertHolds<T>(s: seq<T>, x: T, key: T -> nat)
    ensures multiset(Insert(s, x, key)) == multiset(s) + multiset{x}
    decreases |s|
  {
    if s != [] && key(x) > key(s[0]) {
      InsertHolds(s[1..], x, key);
      assert s == [s[0]] + s[1..];
    }
  }

  lemma Prepend<T(!new)>(s: seq<T>, low: T, key: T -> nat)
    requires Ascending(s, key) && (s != [] ==> key(low) <= key(s[0]))
    ensures Ascending([low] + s, key)
  {
    forall i | 0 <= i < |s|
      ensures key(low) <= key(s[i])
    {
    }
  }

  /** Nothing in front of what it was inserted into. */
  lemma {:induction false} InsertAscends<T(!new)>(s: seq<T>, x: T, low: T, key: T -> nat)
    requires Ascending(s, key) && key(low) <= key(x) && (s != [] ==> key(low) <= key(s[0]))
    ensures Ascending([low] + Insert(s, x, key), key)
    decreases |s|
  {
    if s == [] || key(x) <= key(s[0]) {
      Prepend(s, x, key);
      Prepend([x] + s, low, key);
    } else {
      InsertAscends(s[1..], x, s[0], key);
      Prepend([s[0]] + Insert(s[1..], x, key), low, key);
    }
  }

  /** One element put in its place: still in order, and nothing lost or gained but it. */
  lemma InsertKeeps<T(!new)>(s: seq<T>, x: T, key: T -> nat)
    requires Ascending(s, key)
    ensures Ascending(Insert(s, x, key), key)
    ensures multiset(Insert(s, x, key)) == multiset(s) + multiset{x}
  {
    hide Insert;
    InsertHolds(s, x, key);
    var low := if s == [] || key(x) <= key(s[0]) then x else s[0];
    InsertAscends(s, x, low, key);
    var r := [low] + Insert(s, x, key);
    assert Insert(s, x, key) == r[1..];
  }
}
