/** Ranging over the keys of a map: every key once, in any order. */
module Listing {

  ghost predicate Lists<T>(ks: seq<T>, keys: set<T>) {
    && (forall i, j :: 0 <= i < j < |ks| ==> ks[i] != ks[j])
    && (forall i :: 0 <= i < |ks| ==> ks[i] in keys)
    && (forall k :: k in keys ==> k in ks)
  }

  method Range<T(==)>(keys: set<T>) returns (ks: seq<T>)
    ensures Lists(ks, keys)
  {
    ks := [];
    var todo := keys;
    while todo != {}
      invariant todo <= keys && Lists(ks, keys - todo)
    {
      var k :| k in todo;
      todo := todo - {k};
      ListsAdd(ks, keys - todo - {k}, k);
      ks := ks + [k];
      assert keys - todo == (keys - todo - {k}) + {k};
    }
  }

  lemma ListsAdd<T>(ks: seq<T>, keys: set<T>, k: T)
    requires Lists(ks, keys) && k !in keys
    ensures Lists(ks + [k], keys + {k})
  {
  }

  lemma ListsConcat<T>(ks: seq<T>, keys: set<T>, ls: seq<T>, more: set<T>)
    requires Lists(ks, keys) && Lists(ls, more) && keys !! more
    ensures Lists(ks + ls, keys + more)
  {
    forall i, j | 0 <= i < j < |ks + ls| ensures (ks + ls)[i] != (ks + ls)[j] {
      if i < |ks| <= j { assert ks[i] in keys && ls[j - |ks|] in more; }
    }
  }

  lemma {:induction false} ListsEachOnce<T>(ks: seq<T>, keys: set<T>, k: T)
    requires Lists(ks, keys)
    ensures multiset(ks)[k] == if k in keys then 1 else 0
    decreases |ks|
  {
    if ks != [] {
      var front, last := ks[..|ks| - 1], ks[|ks| - 1];
      assert ks == front + [last];
      ListsEachOnce(front, keys - {last}, k);
    }
  }

  lemma {:induction false} AllTheSame<T>(ks: seq<T>, k: T)
    requires forall i :: 0 <= i < |ks| ==> ks[i] == k
    ensures multiset(ks)[k] == |ks|
    decreases |ks|
  {
    if ks != [] {
      AllTheSame(ks[..|ks| - 1], k);
      assert ks == ks[..|ks| - 1] + [k];
    }
  }

  lemma ListsOne<T>(ks: seq<T>, k: T)
    requires Lists(ks, {k})
    ensures ks == [k]
  {
    AllTheSame(ks, k);
    ListsEachOnce(ks, {k}, k);
  }
}
