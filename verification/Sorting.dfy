/** slices.Sort on lists of integers. */
module Sorting {

  predicate Sorted(s: seq<int>) {
    forall i, j :: 0 <= i < j < |s| ==> s[i] <= s[j]
  }

  /** The number of leading elements below `x`. */
  function Position(x: int, s: seq<int>): (i: nat)
    requires Sorted(s)
    ensures i <= |s|
    ensures forall j :: 0 <= j < i ==> s[j] < x
    ensures forall j :: i <= j < |s| ==> x <= s[j]
  {
    if s == [] || x <= s[0] then 0 else 1 + Position(x, s[1..])
  }

  lemma InsertAt(x: int, s: seq<int>, i: nat)
    requires Sorted(s) && i <= |s|
    requires forall j :: 0 <= j < i ==> s[j] < x
    requires forall j :: i <= j < |s| ==> x <= s[j]
    ensures Sorted(s[..i] + [x] + s[i..])
  {
    var r := s[..i] + [x] + s[i..];
    forall a, b | 0 <= a < b < |r| ensures r[a] <= r[b] {
      assert r[a] == if a < i then s[a] else if a == i then x else s[a-1];
      assert r[b] == if b < i then s[b] else if b == i then x else s[b-1];
    }
  }

  lemma InsertContents(x: int, s: seq<int>, i: nat)
    requires i <= |s|
    ensures multiset(s[..i] + [x] + s[i..]) == multiset(s) + multiset{x}
  {
    assert s == s[..i] + s[i..];
  }

  function Insert(x: int, s: seq<int>): (r: seq<int>)
    requires Sorted(s)
    ensures Sorted(r) && multiset(r) == multiset(s) + multiset{x}
  {
    var i := Position(x, s);
    InsertAt(x, s, i);
    InsertContents(x, s, i);
    s[..i] + [x] + s[i..]
  }

  /** Stands for slices.Sort. */
  function Sort(s: seq<int>): (r: seq<int>)
    ensures Sorted(r) && multiset(r) == multiset(s)
  {
    if s == [] then []
    else
      assert s == [s[0]] + s[1..];
      Insert(s[0], Sort(s[1..]))
  }
}
