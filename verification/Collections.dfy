/** Stock definitions: options, lists without repetition, and the iteration orders of Go maps. */
module Collections {

  datatype Option<T> = None | Some(value: T)

  ghost predicate Distinct<T>(s: seq<T>) {
    forall i, j :: 0 <= i < j < |s| ==> s[i] != s[j]
  }

  ghost function SetOf<T>(s: seq<T>): set<T> {
    set x | x in s
  }

  /** `order` visits every element of `s` exactly once: one possible iteration order of a Go map. */
  ghost predicate Enumerates<T>(order: seq<T>, s: set<T>) {
    SetOf(order) == s && Distinct(order)
  }

  lemma EnumeratesExtend<T>(order: seq<T>, s: set<T>, x: T)
    requires Enumerates(order, s) && x !in s
    ensures Enumerates(order + [x], s + {x})
  {
    assert SetOf(order + [x]) == SetOf(order) + {x};
    forall i, j | 0 <= i < j < |order + [x]|
      ensures (order + [x])[i] != (order + [x])[j]
    {
      assert (order + [x])[i] in SetOf(order);
    }
  }

  /** One more step of a range over the keys of a map. */
  lemma EnumeratesNext<T>(order: seq<T>, keys: set<T>, todo: set<T>, x: T)
    requires Enumerates(order, keys - todo) && x in todo && todo <= keys
    ensures Enumerates(order + [x], keys - (todo - {x}))
    ensures (order + [x])[..|order + [x]| - 1] == order
  {
    EnumeratesExtend(order, keys - todo, x);
    assert keys - (todo - {x}) == keys - todo + {x};
  }

  lemma {:induction false} EnumeratesSize<T>(order: seq<T>, s: set<T>)
    requires Enumerates(order, s)
    ensures |order| == |s|
    decreases |order|
  {
    if order == [] {
      assert s == {};
    } else {
      var rest := s - {order[0]};
      assert order == [order[0]] + order[1..];
      assert SetOf(order[1..]) == rest;
      EnumeratesSize(order[1..], rest);
      assert s == rest + {order[0]};
    }
  }

  /** Every finite set has an iteration order. */
  lemma EnumerationExists<T>(s: set<T>) returns (order: seq<T>)
    ensures Enumerates(order, s)
  {
    if s == {} {
      order := [];
    } else {
      var x :| x in s;
      var rest := EnumerationExists(s - {x});
      EnumeratesExtend(rest, s - {x}, x);
      order := rest + [x];
      assert s - {x} + {x} == s;
    }
  }

  /** And one that ends with a given element. */
  lemma EndingWith<T>(s: set<T>, x: T) returns (order: seq<T>)
    requires x in s
    ensures Enumerates(order, s) && order != [] && order[|order|-1] == x
  {
    var front := EnumerationExists(s - {x});
    EnumeratesExtend(front, s - {x}, x);
    order := front + [x];
    assert s - {x} + {x} == s;
  }

  lemma NonEmpty(s: set<int>)
    ensures s == {} || exists x :: x in s
  {
    if forall x: int :: x !in s {
      assert s == {};
    }
  }
}
