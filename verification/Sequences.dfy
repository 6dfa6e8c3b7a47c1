/** Sequences without duplicates: removal, order and counting facts shared by the list-based caches. */
module Sequences {

  lemma HeadTail<T(!new)>(s: seq<T>)
    requires s != []
    ensures forall x :: x in s <==> x == s[0] || x in s[1..]
  {
    assert s == [s[0]] + s[1..];
  }

  lemma ConcatAssociates<T>(a: seq<T>, b: seq<T>, c: seq<T>)
    ensures a + b + c == a + (b + c)
  {
  }

  ghost predicate NoDup<T(!new)>(s: seq<T>) {
    s != [] ==> s[0] !in s[1..] && NoDup(s[1..])
  }

  lemma {:induction false} NoDupDistinct<T(!new)>(s: seq<T>, i: nat, j: nat)
    requires NoDup(s) && i < j < |s|
    ensures s[i] != s[j]
  {
    if i == 0 {
      assert s[1..][j - 1] == s[j];
    } else {
      NoDupDistinct(s[1..], i - 1, j - 1);
    }
  }

  /** `s` without any occurrence of `x`, order kept. */
  function Without<T(!new, ==)>(s: seq<T>, x: T): (r: seq<T>)
    ensures |r| <= |s|
    ensures forall y :: y in r <==> y in s && y != x
  {
    if s == [] then []
    else
      assert forall y :: y in s <==> y == s[0] || y in s[1..];
      if s[0] == x then Without(s[1..], x) else [s[0]] + Without(s[1..], x)
  }

  lemma {:induction false} WithoutAbsent<T(!new)>(s: seq<T>, x: T)
    requires x !in s
    ensures Without(s, x) == s
  {
    if s != [] {
      WithoutAbsent(s[1..], x);
    }
  }

  lemma {:induction false} WithoutNoDup<T(!new)>(s: seq<T>, x: T)
    requires NoDup(s)
    ensures NoDup(Without(s, x))
    ensures |Without(s, x)| == if x in s then |s| - 1 else |s|
  {
    if s != [] {
      WithoutNoDup(s[1..], x);
      if s[0] != x {
        NoDupPrepend(s[0], Without(s[1..], x));
      }
    }
  }

  lemma NoDupPrepend<T(!new)>(x: T, s: seq<T>)
    requires NoDup(s) && x !in s
    ensures NoDup([x] + s)
  {
    assert ([x] + s)[1..] == s;
  }

  lemma {:induction false} NoDupAppend<T(!new)>(s: seq<T>, x: T)
    requires NoDup(s) && x !in s
    ensures NoDup(s + [x])
  {
    if s == [] {
      assert [x][1..] == [];
    } else {
      assert (s + [x])[1..] == s[1..] + [x];
      NoDupAppend(s[1..], x);
    }
  }

  /** A sequence without duplicates is as long as the set of its elements is large. */
  lemma {:induction false} NoDupCard<T(!new)>(s: seq<T>, all: set<T>)
    requires NoDup(s) && forall x :: x in s <==> x in all
    ensures |s| == |all|
  {
    if s == [] {
      assert all == {};
    } else {
      assert forall x :: x in s <==> x == s[0] || x in s[1..];
      NoDupCard(s[1..], all - {s[0]});
    }
  }

  /** `s` without the elements of `dead`, order kept. */
  function Minus<T(!new, ==)>(s: seq<T>, dead: set<T>): (r: seq<T>)
    ensures |r| <= |s|
    ensures forall y :: y in r <==> y in s && y !in dead
  {
    if s == [] then []
    else
      assert forall y :: y in s <==> y == s[0] || y in s[1..];
      if s[0] in dead then Minus(s[1..], dead) else [s[0]] + Minus(s[1..], dead)
  }

  lemma {:induction false} MinusNoDup<T(!new)>(s: seq<T>, dead: set<T>)
    requires NoDup(s)
    ensures NoDup(Minus(s, dead))
  {
    if s != [] {
      MinusNoDup(s[1..], dead);
      if s[0] !in dead {
        NoDupPrepend(s[0], Minus(s[1..], dead));
      }
    }
  }

  lemma {:induction false} MinusThenOne<T(!new)>(s: seq<T>, dead: set<T>, x: T)
    ensures Without(Minus(s, dead), x) == Minus(s, dead + {x})
  {
    if s != [] {
      MinusThenOne(s[1..], dead, x);
      if s[0] !in dead {
        assert ([s[0]] + Minus(s[1..], dead))[1..] == Minus(s[1..], dead);
      }
    }
  }

  lemma {:induction false} MinusNothing<T(!new)>(s: seq<T>)
    ensures Minus(s, {}) == s
  {
    if s != [] {
      MinusNothing(s[1..]);
    }
  }

  /** The last `n` elements, or all of them. */
  function LastN<T>(s: seq<T>, n: nat): (r: seq<T>)
    ensures |r| == if |s| < n then |s| else n
  {
    if |s| <= n then s else LastN(s[1..], n)
  }
}
