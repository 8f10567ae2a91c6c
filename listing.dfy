/** Sequences that list the elements of a set, each exactly once: how the
    scripts' loops over sets and dictionary keys are modelled. */
module Listing {

  /** The elements a sequence lists. */
  function Elements<T>(order: seq<T>): set<T>
  {
    set k | 0 <= k < |order| :: order[k]
  }

  predicate Distinct<T(==)>(order: seq<T>)
  {
    forall j, k :: 0 <= j < k < |order| ==> order[j] != order[k]
  }

  lemma {:induction false} ElementsOfDistinct<T>(order: seq<T>)
    requires Distinct(order)
    ensures |Elements(order)| == |order|
  {
    if order != [] {
      var prefix := order[..|order| - 1];
      ElementsOfDistinct(prefix);
      assert Elements(order) == Elements(prefix) + {order[|order| - 1]};
    }
  }

  /** A sequence without repeats, made of elements of `s` and as long as `s`
      has elements, lists every element of `s`. */
  lemma EveryElementListed<T>(order: seq<T>, s: set<T>)
    requires |order| == |s| && Distinct(order)
    requires forall k :: 0 <= k < |order| ==> order[k] in s
    ensures forall x :: x in s ==> x in order
  {
    ElementsOfDistinct(order);
    var missing := s - Elements(order);
    assert s == Elements(order) + missing;
    assert missing == {};
    forall x | x in s
      ensures x in order
    {
      var k :| 0 <= k < |order| && order[k] == x;
    }
  }

  /** Any listing of a set: each element once, in an unspecified order (the
      order Python hands out the elements of a set or the keys of a
      dictionary). */
  method ListOf<T>(s: set<T>) returns (order: seq<T>)
    ensures |order| == |s| && Distinct(order)
    ensures forall k :: 0 <= k < |order| ==> order[k] in s
  {
    var remaining := s;
    order := [];
    while remaining != {}
      invariant remaining <= s
      invariant forall x :: x in s ==> (x in order <==> x !in remaining)
      invariant forall k :: 0 <= k < |order| ==> order[k] in s
      invariant Distinct(order)
      invariant |order| + |remaining| == |s|
      decreases |remaining|
    {
      var x :| x in remaining;
      order := order + [x];
      remaining := remaining - {x};
    }
  }
}
