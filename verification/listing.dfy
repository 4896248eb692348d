/** The `.sort({ field: -1 })` step of the listing queries: the matching documents in
    descending order of a key, each exactly once. */
module Listing {
  import opened Common

  /** Every id of `s` has a key, and the keys do not increase along `s`. */
  ghost predicate SortedDesc(s: seq<Id>, key: map<Id, int>) {
    && (forall i :: 0 <= i < |s| ==> s[i] in key)
    && (forall i, j :: 0 <= i < j < |s| ==> key[s[i]] >= key[s[j]])
  }

  /** Where `x` goes: after every id whose key is above its own, before the first one whose key is not. */
  function Position(s: seq<Id>, x: Id, key: map<Id, int>): (k: nat)
    requires x in key
    requires forall i :: 0 <= i < |s| ==> s[i] in key
    ensures k <= |s|
    ensures forall i :: 0 <= i < k ==> key[s[i]] > key[x]
    ensures k < |s| ==> key[s[k]] <= key[x]
  {
    if s == [] || key[x] >= key[s[0]] then 0 else 1 + Position(s[1..], x, key)
  }

  /** `s` with `x` put in at its position. */
  function Insert(s: seq<Id>, x: Id, key: map<Id, int>): (r: seq<Id>)
    requires x in key
    requires forall i :: 0 <= i < |s| ==> s[i] in key
    ensures multiset(r) == multiset(s) + multiset{x}
  {
    var k := Position(s, x, key);
    assert s == s[..k] + s[k..];
    s[..k] + [x] + s[k..]
  }

  /** Inserting into a sorted sequence keeps it sorted. */
  lemma InsertKeepsSorted(s: seq<Id>, x: Id, key: map<Id, int>)
    requires x in key
    requires SortedDesc(s, key)
    ensures SortedDesc(Insert(s, x, key), key)
  {
    var k := Position(s, x, key);
    var r := Insert(s, x, key);
    assert |r| == |s| + 1;
    assert forall i :: 0 <= i < k ==> r[i] == s[i];
    assert r[k] == x;
    assert forall i :: k < i < |r| ==> r[i] == s[i - 1];
    forall i, j | 0 <= i < j < |r|
      ensures r[i] in key && r[j] in key && key[r[i]] >= key[r[j]]
    {
      if j < k {
      } else if j == k {
      } else if i < k {
        assert key[s[i]] > key[x] >= key[s[k]] >= key[s[j - 1]];
      } else if i == k {
        assert key[s[k]] >= key[s[j - 1]];
      } else {
      }
    }
  }

  /** The keys of `key` as a sequence, highest key first, each id once. */
  method SortByKeyDesc(key: map<Id, int>) returns (s: seq<Id>)
    ensures multiset(s) == multiset(key.Keys)
    ensures SortedDesc(s, key)
  {
    s := [];
    var rest := key.Keys;
    while rest != {}
      invariant rest <= key.Keys
      invariant multiset(s) + multiset(rest) == multiset(key.Keys)
      invariant SortedDesc(s, key)
      decreases rest
    {
      var x :| x in rest;
      assert multiset(rest) == multiset(rest - {x}) + multiset{x};
      InsertKeepsSorted(s, x, key);
      s := Insert(s, x, key);
      rest := rest - {x};
    }
  }
}
