/** Lists a store or a table hands back: every element once, in an order of its choosing. */
module Listing {

  ghost predicate Distinct<T>(s: seq<T>) {
    forall i, j :: 0 <= i < j < |s| ==> s[i] != s[j]
  }

  /** The elements of a set in an order of the store's choosing. */
  method Enumerate<T(==)>(s: set<T>) returns (listed: seq<T>)
    ensures Distinct(listed)
    ensures forall x :: x in listed <==> x in s
  {
    listed := [];
    var rest := s;
    while rest != {}
      invariant Distinct(listed)
      invariant forall x :: x in s <==> x in listed || x in rest
      invariant forall x :: x in listed ==> x !in rest
      decreases rest
    {
      var x :| x in rest;
      listed, rest := listed + [x], rest - {x};
    }
  }
}
