/** `std::sort` followed by `std::unique` and `erase`, on identifiers. */
module SortedUnique {

  ghost predicate Increasing(s: seq<nat>) {
    forall i, j :: 0 <= i < j < |s| ==> s[i] < s[j]
  }

  function Insert(sorted: seq<nat>, x: nat): (r: seq<nat>)
    requires Increasing(sorted)
    ensures Increasing(r) && forall y :: y in r <==> y in sorted || y == x
    decreases |sorted|
  {
    if sorted == [] then [x]
    else
      var n := |sorted| - 1;
      if sorted[n] < x then sorted + [x]
      else if sorted[n] == x then sorted
      else
        var r := Insert(sorted[..n], x);
        assert sorted == sorted[..n] + [sorted[n]];
        assert forall i :: 0 <= i < |r| ==> r[i] in r;
        r + [sorted[n]]
  }

  function SortUnique(list: seq<nat>): (r: seq<nat>)
    ensures Increasing(r) && forall y :: y in r <==> y in list
  {
    if list == [] then []
    else
      assert list == list[..|list| - 1] + [list[|list| - 1]];
      Insert(SortUnique(list[..|list| - 1]), list[|list| - 1])
  }
}
