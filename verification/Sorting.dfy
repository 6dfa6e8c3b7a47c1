/** Sorting integers: `std::sort`, and the fact that a sorted arrangement is unique. */
module Sorting {

  ghost predicate Ascending(s: seq<int>) {
    forall i, k :: 0 <= i < k < |s| ==> s[i] <= s[k]
  }

  /** The ascending arrangement of `s`. */
  ghost function Sorted(s: seq<int>): (r: seq<int>)
    ensures Ascending(r) && multiset(r) == multiset(s)
  {
    var example := InsertionSorted(s);
    var r :| Ascending(r) && multiset(r) == multiset(s);
    r
  }

  function InsertionSorted(s: seq<int>): (r: seq<int>)
    ensures Ascending(r) && multiset(r) == multiset(s)
  {
    if s == [] then []
    else
      var before, x := s[..|s| - 1], s[|s| - 1];
      assert s == before + [x];
      Place(InsertionSorted(before), x)
  }

  function Place(s: seq<int>, x: int): (r: seq<int>)
    requires Ascending(s)
    ensures Ascending(r) && multiset(r) == multiset(s) + multiset{x}
    ensures r != [] && (r[|r| - 1] == x || (s != [] && r[|r| - 1] == s[|s| - 1]))
  {
    if s == [] || s[|s| - 1] <= x then s + [x]
    else
      assert s == s[..|s| - 1] + [s[|s| - 1]];
      Place(s[..|s| - 1], x) + [s[|s| - 1]]
  }

  lemma DropLast(a: seq<int>) returns (init: seq<int>, x: int)
    requires a != [] && Ascending(a)
    ensures a == init + [x] && Ascending(init)
    ensures multiset(init) == multiset(a) - multiset{x}
    ensures forall y :: y in multiset(a) ==> y <= x
    ensures x in multiset(a)
  {
    init, x := a[..|a| - 1], a[|a| - 1];
    assert a == init + [x];
  }

  lemma {:induction false} SortedUnique(a: seq<int>, b: seq<int>)
    requires Ascending(a) && Ascending(b) && multiset(a) == multiset(b)
    ensures a == b
    decreases |a|
  {
    if a == [] || b == [] {
      assert |multiset(b)| == |b| && |multiset(a)| == |a|;
    } else {
      var a', x := DropLast(a);
      var b', y := DropLast(b);
      assert x == y;
      SortedUnique(a', b');
    }
  }
}
