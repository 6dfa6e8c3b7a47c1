/**
  The per-channel list of known message ids (src/Core/MessageManager.cpp): batches from the
  API are merged into it, deletions prune it, and history is served from it.

  The code keeps a deque; its meaning is the set of ids it holds, listed in ascending order
  and cut to the 2000 largest.
*/
module MessageOrder {
  import opened Options
  import opened Sequences
  import opened Sorting

  type Id = int
  type Channel = int

  const MAX_CHANNEL_IDS := 2000
  const PAGE := 30

  // ------------------------------------------------------------------
  // Strictly ascending lists and the sets they list
  // ------------------------------------------------------------------

  ghost predicate Strict(s: seq<Id>) {
    s != [] ==> Strict(s[1..]) && forall x :: x in s[1..] ==> s[0] < x
  }

  ghost function Elems(s: seq<Id>): set<Id> {
    set x | x in s
  }

  lemma ElemsEmpty(s: seq<Id>)
    ensures Elems(s) == {} <==> s == []
  {
    if s != [] {
      assert s[0] in Elems(s);
    }
  }

  /** A set has one strictly ascending listing. */
  lemma {:induction false} StrictUnique(a: seq<Id>, b: seq<Id>)
    requires Strict(a) && Strict(b) && Elems(a) == Elems(b)
    ensures a == b
  {
    ElemsEmpty(a);
    ElemsEmpty(b);
    if a == [] || b == [] {
    } else {
      HeadTail(a);
      HeadTail(b);
      assert a[0] in Elems(b) && b[0] in Elems(a);
      assert Elems(a[1..]) == Elems(a) - {a[0]};
      assert Elems(b[1..]) == Elems(b) - {b[0]};
      StrictUnique(a[1..], b[1..]);
    }
  }

  /** The strictly ascending listing of a set. */
  ghost function Listing(s: set<Id>): (r: seq<Id>)
    ensures Strict(r) && Elems(r) == s
  {
    if s == {} then []
    else
      var m := Least(s);
      var rest := Listing(s - {m});
      assert ([m] + rest)[1..] == rest;
      assert forall x :: x in [m] + rest <==> x == m || x in Elems(rest);
      [m] + rest
  }

  lemma NonEmpty(s: set<Id>)
    requires s != {}
    ensures exists x :: x in s
  {
    if forall x :: x !in s {
      assert false;
    }
  }

  ghost function Least(s: set<Id>): (m: Id)
    requires s != {}
    ensures m in s && forall x :: x in s ==> m <= x
  {
    NonEmpty(s);
    var x :| x in s;
    if s == {x} then x
    else
      var y := Least(s - {x});
      assert forall z :: z in s <==> z == x || z in s - {x};
      if x < y then x else y
  }

  lemma ListingIs(s: seq<Id>)
    requires Strict(s)
    ensures Listing(Elems(s)) == s
  {
    StrictUnique(Listing(Elems(s)), s);
  }

  /** What trimming keeps: the `n` largest. */
  lemma {:induction false} LastNLargest(s: seq<Id>, n: nat)
    requires Strict(s)
    ensures Strict(LastN(s, n))
    ensures forall x :: x in LastN(s, n) ==> x in s
    ensures forall x, y :: x in LastN(s, n) && y in s && y !in LastN(s, n) ==> y < x
  {
    if |s| > n {
      LastNLargest(s[1..], n);
      HeadTail(s);
    }
  }

  // ------------------------------------------------------------------
  // Merging
  // ------------------------------------------------------------------

  /** The general two-cursor merge. */
  function Merge(a: seq<Id>, b: seq<Id>): seq<Id>
    decreases |a| + |b|
  {
    if a == [] then b
    else if b == [] then a
    else if a[0] < b[0] then [a[0]] + Merge(a[1..], b)
    else if a[0] > b[0] then [b[0]] + Merge(a, b[1..])
    else [a[0]] + Merge(a[1..], b[1..])
  }

  /** The three paths of the code. */
  function Merged(order: seq<Id>, batch: seq<Id>): seq<Id> {
    if batch == [] || order == [] then order + batch
    else if batch[0] > order[|order| - 1] then order + batch
    else if batch[|batch| - 1] < order[0] then batch + order
    else Merge(order, batch)
  }

  lemma {:induction false} LastIsLargest(s: seq<Id>)
    requires Strict(s) && s != []
    ensures forall x :: x in s ==> x <= s[|s| - 1]
  {
    if |s| > 1 {
      LastIsLargest(s[1..]);
      assert s[1..][|s| - 2] == s[|s| - 1];
      assert s[|s| - 1] in s[1..];
      HeadTail(s);
    } else {
      HeadTail(s);
    }
  }

  lemma {:induction false} MergeAppends(a: seq<Id>, b: seq<Id>)
    requires forall x, y :: x in a && y in b ==> x < y
    ensures Merge(a, b) == a + b
    decreases |a|
  {
    if a != [] && b != [] {
      HeadTail(a);
      HeadTail(b);
      assert a[0] in a && b[0] in b;
      MergeAppends(a[1..], b);
    }
  }

  lemma {:induction false} MergePrepends(a: seq<Id>, b: seq<Id>)
    requires forall x, y :: x in a && y in b ==> y < x
    ensures Merge(a, b) == b + a
    decreases |b|
  {
    if a != [] && b != [] {
      HeadTail(a);
      HeadTail(b);
      assert a[0] in a && b[0] in b;
      var rest := b[1..];
      assert forall y :: y in rest ==> y in b;
      MergePrepends(a, rest);
      assert [b[0]] + (rest + a) == b + a;
    }
  }

  /** Appending and prepending are what the general merge would do. */
  lemma FastPathsAreMerge(order: seq<Id>, batch: seq<Id>)
    requires Strict(order) && Ascending(batch)
    ensures Merged(order, batch) == Merge(order, batch)
  {
    if batch != [] && order != [] {
      LastIsLargest(order);
      assert forall y :: y in batch ==> batch[0] <= y <= batch[|batch| - 1];
      HeadTail(order);
      if batch[0] > order[|order| - 1] {
        MergeAppends(order, batch);
      } else if batch[|batch| - 1] < order[0] {
        MergePrepends(order, batch);
      }
    }
  }

  lemma {:induction false} MergeElems(a: seq<Id>, b: seq<Id>)
    ensures forall x :: x in Merge(a, b) <==> x in a || x in b
    decreases |a| + |b|
  {
    if a != [] && b != [] {
      HeadTail(a);
      HeadTail(b);
      if a[0] < b[0] {
        MergeElems(a[1..], b);
      } else if a[0] > b[0] {
        MergeElems(a, b[1..]);
      } else {
        MergeElems(a[1..], b[1..]);
      }
    }
  }

  lemma AscendingTail(b: seq<Id>)
    requires Ascending(b) && b != []
    ensures Ascending(b[1..]) && forall y :: y in b ==> b[0] <= y
  {
  }

  /** The merge of a strict list and a sorted batch is strict exactly when the batch is: when its ids are distinct. */
  lemma {:induction false} MergeStrictIff(a: seq<Id>, b: seq<Id>)
    requires Strict(a) && Ascending(b)
    ensures Strict(Merge(a, b)) <==> Strict(b)
    decreases |a| + |b|
  {
    if a != [] && b != [] {
      AscendingTail(b);
      HeadTail(a);
      HeadTail(b);
      var m := Merge(a, b);
      if a[0] < b[0] {
        MergeStrictIff(a[1..], b);
        MergeElems(a[1..], b);
        assert m[1..] == Merge(a[1..], b);
      } else if a[0] > b[0] {
        MergeStrictIff(a, b[1..]);
        MergeElems(a, b[1..]);
        assert m[1..] == Merge(a, b[1..]);
      } else {
        MergeStrictIff(a[1..], b[1..]);
        MergeElems(a[1..], b[1..]);
        assert m[1..] == Merge(a[1..], b[1..]);
      }
    }
  }

  lemma {:induction false} StrictIsNoDup(b: seq<Id>)
    requires Ascending(b)
    ensures Strict(b) <==> NoDup(b)
  {
    if b != [] {
      AscendingTail(b);
      StrictIsNoDup(b[1..]);
      HeadTail(b);
    }
  }

  /** On all three paths a batch of distinct ids yields the listing of the union. */
  lemma MergedIsListing(order: seq<Id>, batch: seq<Id>)
    requires Strict(order) && Ascending(batch) && NoDup(batch)
    ensures Merged(order, batch) == Listing(Elems(order) + Elems(batch))
    ensures Strict(Merged(order, batch))
  {
    FastPathsAreMerge(order, batch);
    StrictIsNoDup(batch);
    MergeStrictIff(order, batch);
    UnionListing(Merge(order, batch), order, batch);
  }

  lemma UnionElems(a: seq<Id>, b: seq<Id>)
    ensures Elems(Merge(a, b)) == Elems(a) + Elems(b)
  {
    MergeElems(a, b);
    var m, all := Merge(a, b), Elems(a) + Elems(b);
    forall x ensures x in Elems(m) <==> x in all {
      assert x in m <==> x in a || x in b;
    }
  }

  lemma UnionListing(m: seq<Id>, a: seq<Id>, b: seq<Id>)
    requires Strict(m) && m == Merge(a, b)
    ensures m == Listing(Elems(a) + Elems(b))
  {
    UnionElems(a, b);
    StrictUnique(Listing(Elems(a) + Elems(b)), m);
  }

  // ------------------------------------------------------------------
  // The events of one channel
  // ------------------------------------------------------------------

  datatype LoadType = Latest | History | Created | Jump

  datatype Event =
    | Received(kind: LoadType, messages: seq<Id>)     // a batch from the API, in any order
    | Erased(id: Id)                                  // one deletion, a failed or a cancelled send
    | Pruned(ids: set<Id>)                            // a bulk deletion, a preview replaced by the real message

  /** The ids below `bound`: what `lower_bound` leaves in front. */
  function Below(order: seq<Id>, bound: Id): (r: seq<Id>)
    ensures |r| <= |order| && r == order[..|r|]
  {
    if order == [] || order[0] >= bound then [] else [order[0]] + Below(order[1..], bound)
  }

  function EraseFirst(order: seq<Id>, id: Id): seq<Id> {
    if order == [] then [] else if order[0] == id then order[1..] else [order[0]] + EraseFirst(order[1..], id)
  }

  /** A batch merged in and the list cut to its bound. */
  function Cached(order: seq<Id>, batch: seq<Id>): seq<Id> {
    if batch == [] then order else LastN(Merged(order, batch), MAX_CHANNEL_IDS)
  }

  function AfterReceived(order: seq<Id>, kind: LoadType, messages: seq<Id>): seq<Id> {
    AfterSorted(order, kind, InsertionSorted(messages))
  }

  function AfterSorted(order: seq<Id>, kind: LoadType, batch: seq<Id>): seq<Id> {
    Cached(if kind.Latest? && batch != [] then Below(order, batch[0]) else order, batch)
  }

  function Next(order: seq<Id>, e: Event): seq<Id> {
    match e
    case Received(kind, messages) => AfterReceived(order, kind, messages)
    case Erased(id) => EraseFirst(order, id)
    case Pruned(ids) => Minus(order, ids)
  }

  ghost function Run(es: seq<Event>): seq<Id>
    decreases |es|
  {
    if es == [] then [] else Next(Run(es[..|es| - 1]), es[|es| - 1])
  }

  /** The same events on a bare set of known ids. */
  ghost function NextKnown(known: set<Id>, e: Event): set<Id> {
    match e
    case Received(kind, messages) =>
      if messages == [] then known else Largest(Kept(known, kind, messages) + Elems(messages))
    case Erased(id) => known - {id}
    case Pruned(ids) => known - ids
  }

  ghost function Known(es: seq<Event>): set<Id>
    decreases |es|
  {
    if es == [] then {} else NextKnown(Known(es[..|es| - 1]), es[|es| - 1])
  }

  /** The 2000 largest ids of a set. */
  ghost function Largest(s: set<Id>): set<Id> {
    Elems(LastN(Listing(s), 2000))
  }

  ghost predicate DistinctBatches(es: seq<Event>) {
    forall e :: e in es && e.Received? ==> NoDup(e.messages)
  }

  lemma {:induction false} BelowShape(order: seq<Id>, bound: Id)
    requires Strict(order)
    ensures Strict(Below(order, bound))
    ensures forall x :: x in Below(order, bound) <==> x in order && x < bound
  {
    if order != [] {
      HeadTail(order);
      if order[0] < bound {
        BelowShape(order[1..], bound);
        var rest := Below(order[1..], bound);
        assert ([order[0]] + rest)[1..] == rest;
      }
    }
  }

  lemma {:induction false} EraseFirstIsMinus(order: seq<Id>, id: Id)
    requires Strict(order)
    ensures EraseFirst(order, id) == Minus(order, {id})
  {
    if order != [] {
      if order[0] == id {
        assert id !in order[1..];
        MinusAbsent(order[1..], {id});
      } else {
        EraseFirstIsMinus(order[1..], id);
      }
    }
  }

  lemma {:induction false} MinusAbsent(order: seq<Id>, ids: set<Id>)
    requires forall x :: x in order ==> x !in ids
    ensures Minus(order, ids) == order
  {
    if order != [] {
      HeadTail(order);
      var head: Id := order[0];
      assert head in order && head !in ids;
      MinusAbsent(order[1..], ids);
    }
  }

  lemma {:induction false} MinusStrict(order: seq<Id>, ids: set<Id>)
    requires Strict(order)
    ensures Strict(Minus(order, ids)) && Elems(Minus(order, ids)) == Elems(order) - ids
  {
    if order != [] {
      HeadTail(order);
      MinusStrict(order[1..], ids);
      var rest := Minus(order[1..], ids);
      assert ([order[0]] + rest)[1..] == rest;
    }
  }

  lemma SortedBatch(messages: seq<Id>)
    ensures var batch := InsertionSorted(messages);
            && Ascending(batch) && (batch == [] <==> messages == [])
            && (forall x :: x in batch <==> x in messages)
            && (NoDup(messages) ==> NoDup(batch))
  {
    var batch := InsertionSorted(messages);
    assert |multiset(batch)| == |batch| && |multiset(messages)| == |messages|;
    forall x ensures x in batch <==> x in messages {
      assert x in multiset(batch) <==> x in multiset(messages);
    }
    NoDupMultiset(batch);
    NoDupMultiset(messages);
  }

  lemma {:induction false} NoDupMultiset(s: seq<Id>)
    ensures NoDup(s) <==> forall x :: multiset(s)[x] <= 1
  {
    if s != [] {
      var rest := s[1..];
      NoDupMultiset(rest);
      assert s == [s[0]] + rest;
      assert multiset(s) == multiset{s[0]} + multiset(rest);
      assert s[0] in rest <==> multiset(rest)[s[0]] >= 1;
      assert multiset(s)[s[0]] == 1 + multiset(rest)[s[0]];
      if forall x :: multiset(s)[x] <= 1 {
        forall x ensures multiset(rest)[x] <= 1 {
          assert multiset(rest)[x] <= multiset(s)[x];
        }
      }
    }
  }

  /** What a batch is merged into: on a latest page, the known ids below the page. */
  ghost function Kept(known: set<Id>, kind: LoadType, messages: seq<Id>): set<Id> {
    if kind.Latest? then set x | x in known && forall m :: m in messages ==> x < m else known
  }

  lemma KeptIsBelow(order: seq<Id>, messages: seq<Id>)
    requires Strict(order) && messages != []
    ensures var batch := InsertionSorted(messages);
            && batch != []
            && Strict(Below(order, batch[0])) && Elems(Below(order, batch[0])) == Kept(Elems(order), Latest, messages)
  {
    var batch := InsertionSorted(messages);
    SortedBatch(messages);
    BelowShape(order, batch[0]);
    AscendingTail(batch);
    assert batch[0] in messages;
  }

  lemma CachedIsListing(order: seq<Id>, batch: seq<Id>)
    requires Strict(order) && Ascending(batch) && NoDup(batch) && batch != []
    ensures Cached(order, batch) == Listing(Largest(Elems(order) + Elems(batch)))
    ensures Strict(Cached(order, batch)) && |Cached(order, batch)| <= MAX_CHANNEL_IDS
  {
    MergedIsListing(order, batch);
    var all := Merged(order, batch);
    LastNLargest(all, MAX_CHANNEL_IDS);
    ListingIs(LastN(all, MAX_CHANNEL_IDS));
  }

  lemma SortedElems(messages: seq<Id>) returns (batch: seq<Id>)
    requires NoDup(messages) && messages != []
    ensures batch == InsertionSorted(messages)
    ensures Ascending(batch) && NoDup(batch) && batch != [] && Elems(batch) == Elems(messages)
  {
    SortedBatch(messages);
    batch := InsertionSorted(messages);
    SameElems(batch, messages);
  }

  lemma SameElems(a: seq<Id>, b: seq<Id>)
    requires forall x :: x in a <==> x in b
    ensures Elems(a) == Elems(b)
  {
    forall x: Id ensures x in Elems(a) <==> x in Elems(b) {
      assert x in a <==> x in b;
    }
  }

  /** One batch of distinct ids: the list becomes the listing of the 2000 largest known ids. */
  lemma ReceivedIsListing(order: seq<Id>, kind: LoadType, messages: seq<Id>)
    requires Strict(order) && NoDup(messages) && messages != []
    ensures AfterReceived(order, kind, messages) ==
            Listing(Largest(Kept(Elems(order), kind, messages) + Elems(messages)))
    ensures Strict(AfterReceived(order, kind, messages)) && |AfterReceived(order, kind, messages)| <= MAX_CHANNEL_IDS
  {
    var batch := SortedElems(messages);
    if kind.Latest? {
      KeptIsBelow(order, messages);
      CachedIsListing(Below(order, batch[0]), batch);
    } else {
      CachedIsListing(order, batch);
    }
  }

  lemma StepKeepsListing(order: seq<Id>, e: Event)
    requires Strict(order) && |order| <= MAX_CHANNEL_IDS && (e.Received? ==> NoDup(e.messages))
    ensures Strict(Next(order, e)) && |Next(order, e)| <= MAX_CHANNEL_IDS
    ensures Next(order, e) == Listing(NextKnown(Elems(order), e))
  {
    match e {
      case Received(kind, messages) =>
        SortedBatch(messages);
        if messages == [] {
          ListingIs(order);
        } else {
          ReceivedIsListing(order, kind, messages);
        }
      case Erased(id) =>
        EraseFirstIsMinus(order, id);
        MinusStrict(order, {id});
        ListingIs(Minus(order, {id}));
      case Pruned(ids) =>
        MinusStrict(order, ids);
        ListingIs(Minus(order, ids));
    }
  }

  /** Whatever arrives, while batches hold distinct ids the list is the strictly ascending listing of the known set. */
  lemma {:induction false} RunsKeepListing(es: seq<Event>)
    requires DistinctBatches(es)
    ensures Strict(Run(es)) && |Run(es)| <= 2000 && Run(es) == Listing(Known(es))
    decreases |es|
  {
    if es == [] {
      ElemsEmpty([]);
      ListingIs([]);
    } else {
      var before, e := es[..|es| - 1], es[|es| - 1];
      assert e in es;
      RunsKeepListing(before);
      StepKeepsListing(Run(before), e);
    }
  }

  /** Before trimming, a batch leaves the list strictly ascending exactly when its ids are distinct. */
  lemma StrictIffDistinct(order: seq<Id>, messages: seq<Id>)
    requires Strict(order)
    ensures Strict(Merged(order, InsertionSorted(messages))) <==> NoDup(messages)
  {
    var batch := InsertionSorted(messages);
    SortedBatch(messages);
    FastPathsAreMerge(order, batch);
    MergeStrictIff(order, batch);
    StrictIsNoDup(batch);
    NoDupMultiset(batch);
    NoDupMultiset(messages);
  }

  // ------------------------------------------------------------------
  // Batches that repeat an id
  // ------------------------------------------------------------------

  lemma AscendingPrepend(x: Id, s: seq<Id>)
    requires Ascending(s) && forall y :: y in s ==> x <= y
    ensures Ascending([x] + s)
  {
    var t := [x] + s;
    forall i, k | 0 <= i < k < |t| ensures t[i] <= t[k] {
      assert t[k] == s[k - 1] && s[k - 1] in s;
    }
  }

  lemma AscendingConcat(a: seq<Id>, b: seq<Id>)
    requires Ascending(a) && Ascending(b) && (a != [] && b != [] ==> a[|a| - 1] <= b[0])
    ensures Ascending(a + b)
  {
  }

  lemma {:induction false} MergeAscending(a: seq<Id>, b: seq<Id>)
    requires Ascending(a) && Ascending(b)
    ensures Ascending(Merge(a, b))
    decreases |a| + |b|
  {
    if a != [] && b != [] {
      AscendingTail(a);
      AscendingTail(b);
      if a[0] < b[0] {
        MergeAscending(a[1..], b);
        MergeElems(a[1..], b);
        AscendingPrepend(a[0], Merge(a[1..], b));
      } else if a[0] > b[0] {
        MergeAscending(a, b[1..]);
        MergeElems(a, b[1..]);
        AscendingPrepend(b[0], Merge(a, b[1..]));
      } else {
        MergeAscending(a[1..], b[1..]);
        MergeElems(a[1..], b[1..]);
        AscendingPrepend(a[0], Merge(a[1..], b[1..]));
      }
    }
  }

  lemma MergedAscending(order: seq<Id>, batch: seq<Id>)
    requires Ascending(order) && Ascending(batch)
    ensures Ascending(Merged(order, batch))
  {
    MergeAscending(order, batch);
    if batch == [] || order == [] {
      assert order + batch == if batch == [] then order else batch;
    } else if batch[0] > order[|order| - 1] {
      AscendingConcat(order, batch);
    } else if batch[|batch| - 1] < order[0] {
      AscendingConcat(batch, order);
    }
  }

  lemma EraseFirstAscending(order: seq<Id>, id: Id)
    requires Ascending(order)
    ensures Ascending(EraseFirst(order, id)) && |EraseFirst(order, id)| <= |order|
    ensures forall x :: x in EraseFirst(order, id) ==> x in order
  {
    if order != [] && order[0] != id {
      AscendingTail(order);
      EraseFirstAscending(order[1..], id);
      AscendingPrepend(order[0], EraseFirst(order[1..], id));
    }
  }

  lemma {:induction false} MinusAscending(order: seq<Id>, ids: set<Id>)
    requires Ascending(order)
    ensures Ascending(Minus(order, ids)) && |Minus(order, ids)| <= |order|
    ensures forall x :: x in Minus(order, ids) ==> x in order
  {
    if order != [] {
      AscendingTail(order);
      HeadTail(order);
      MinusAscending(order[1..], ids);
      AscendingPrepend(order[0], Minus(order[1..], ids));
    }
  }

  lemma CachedAscending(base: seq<Id>, batch: seq<Id>)
    requires Ascending(base) && Ascending(batch) && |base| <= MAX_CHANNEL_IDS
    ensures Ascending(Cached(base, batch)) && |Cached(base, batch)| <= MAX_CHANNEL_IDS
  {
    var m := Merged(base, batch);
    MergedAscending(base, batch);
    LastNOfPrefix(m, MAX_CHANNEL_IDS);
    SuffixAscending(m, if |m| < MAX_CHANNEL_IDS then 0 else |m| - MAX_CHANNEL_IDS);
  }

  lemma SuffixAscending(s: seq<Id>, i: nat)
    requires Ascending(s) && i <= |s|
    ensures Ascending(s[i..])
  {
  }

  lemma StepKeepsAscending(order: seq<Id>, e: Event)
    requires Ascending(order) && |order| <= MAX_CHANNEL_IDS
    ensures Ascending(Next(order, e)) && |Next(order, e)| <= MAX_CHANNEL_IDS
  {
    match e {
      case Received(kind, messages) =>
        var batch := InsertionSorted(messages);
        var base := if kind.Latest? && batch != [] then Below(order, batch[0]) else order;
        CachedAscending(base, batch);
      case Erased(id) =>
        EraseFirstAscending(order, id);
      case Pruned(ids) => MinusAscending(order, ids);
    }
  }

  /** Every run, whatever its batches repeat, keeps the list ascending and bounded, as the binary search demands. */
  lemma {:induction false} RunsKeepAscending(es: seq<Event>)
    ensures Ascending(Run(es)) && |Run(es)| <= 2000
    decreases |es|
  {
    if es != [] {
      RunsKeepAscending(es[..|es| - 1]);
      StepKeepsAscending(Run(es[..|es| - 1]), es[|es| - 1]);
    }
  }

  ghost function Count(s: seq<Id>, x: Id): nat {
    if s == [] then 0 else (if s[0] == x then 1 else 0) + Count(s[1..], x)
  }

  lemma {:induction false} CountOccurs(s: seq<Id>, x: Id)
    ensures multiset(s)[x] == Count(s, x)
  {
    if s != [] {
      var tail := s[1..];
      CountOccurs(tail, x);
      assert s == [s[0]] + tail;
    }
  }

  lemma {:induction false} CountAbsent(s: seq<Id>, x: Id)
    requires x !in s
    ensures Count(s, x) == 0
  {
    if s != [] {
      HeadTail(s);
      CountAbsent(s[1..], x);
    }
  }

  lemma {:induction false} CountStrict(s: seq<Id>, x: Id)
    requires Strict(s)
    ensures Count(s, x) <= 1
  {
    if s != [] {
      CountStrict(s[1..], x);
      if s[0] == x {
        CountAbsent(s[1..], x);
      }
    }
  }

  /** The ids above `x`. */
  ghost function Higher(known: set<Id>, x: Id): set<Id> {
    set y | y in known && y > x
  }

  lemma {:induction false} HigherFits(s: seq<Id>, x: Id)
    ensures |Higher(Elems(s), x)| + Count(s, x) <= |s|
  {
    if s == [] {
      assert Higher(Elems(s), x) == {};
    } else {
      HeadTail(s);
      HigherFits(s[1..], x);
      var above := Higher(Elems(s[1..]), x);
      if s[0] > x {
        assert Higher(Elems(s), x) == above + {s[0]};
      } else {
        assert Higher(Elems(s), x) == above;
      }
    }
  }

  /** Every id repeated in `s` has at least `n - 1` ids above it. */
  ghost predicate RepeatsLow(s: seq<Id>, n: nat) {
    forall x :: Count(s, x) >= 2 ==> |Higher(Elems(s), x)| >= n - 1
  }

  lemma SmallRepeats(s: seq<Id>, n: nat)
    requires Ascending(s) && |s| <= n
    ensures Strict(s) <==> RepeatsLow(s, n)
  {
    StrictIsNoDup(s);
    NoDupMultiset(s);
    forall x ensures Count(s, x) >= 2 ==> |Higher(Elems(s), x)| < n - 1 {
      HigherFits(s, x);
    }
    forall x ensures multiset(s)[x] == Count(s, x) {
      CountOccurs(s, x);
    }
  }

  lemma HigherInTail(s: seq<Id>, x: Id)
    requires Ascending(s) && s != [] && x in s
    ensures Higher(Elems(s), x) == Higher(Elems(s[1..]), x)
  {
    AscendingTail(s);
    HeadTail(s);
  }

  /** Of `n` distinct ids none below `x`, at least `n - 1` are above it. */
  lemma StrictIsHigh(t: seq<Id>, known: set<Id>, x: Id)
    requires Strict(t) && forall y :: y in t ==> x <= y && y in known
    ensures |Higher(known, x)| >= |t| - 1
  {
    StrictNoDup(t);
    NoDupCard(t, Elems(t));
    var above := Higher(known, x);
    forall y | y in Elems(t) ensures y in above + {x} {
      assert y in t;
    }
    SubsetCard(Elems(t), above + {x});
  }

  lemma {:induction false} SubsetCard(a: set<Id>, b: set<Id>)
    requires a <= b
    ensures |a| <= |b|
  {
    assert b == a + (b - a);
  }

  /** Trimming an ascending list to its last `n` ids leaves it strict exactly if its repeated ids are low enough. */
  lemma {:induction false} TrimmedStrictIff(s: seq<Id>, n: nat)
    requires Ascending(s) && n > 0
    ensures Strict(LastN(s, n)) <==> RepeatsLow(s, n)
    decreases |s|
  {
    if |s| <= n {
      SmallRepeats(s, n);
    } else {
      var tail := s[1..];
      AscendingTail(s);
      HeadTail(s);
      TrimmedStrictIff(tail, n);
      TailRepeats(s, n);
    }
  }

  lemma TailRepeats(s: seq<Id>, n: nat)
    requires Ascending(s) && |s| > n > 0
    requires Strict(LastN(s[1..], n)) <==> RepeatsLow(s[1..], n)
    ensures RepeatsLow(s, n) <==> RepeatsLow(s[1..], n)
  {
    var tail := s[1..];
    if RepeatsLow(s, n) {
      forall x | Count(tail, x) >= 2 ensures |Higher(Elems(tail), x)| >= n - 1 {
        if x !in s {
          CountAbsent(s, x);
        }
        HigherInTail(s, x);
      }
    } else if RepeatsLow(tail, n) {
      var x :| Count(s, x) >= 2 && |Higher(Elems(s), x)| < n - 1;
      HighOrFirst(s, n, x);
      assert false;
    }
  }

  /** Where the repeats of the tail are low, those of the whole list are: they are the same, but for the first id. */
  lemma HighOrFirst(s: seq<Id>, n: nat, x: Id)
    requires Ascending(s) && |s| > n > 0 && Count(s, x) >= 2
    requires Strict(LastN(s[1..], n)) && RepeatsLow(s[1..], n)
    ensures |Higher(Elems(s), x)| >= n - 1
  {
    var tail := s[1..];
    if x !in s {
      CountAbsent(s, x);
    }
    HigherInTail(s, x);
    if Count(tail, x) < 2 {
      AscendingTail(s);
      HeadTail(s);
      LastNOfPrefix(tail, n);
      StrictIsHigh(LastN(tail, n), Elems(s), x);
    }
  }

  /** The merge of a strict list and a sorted batch repeats what the batch repeats. */
  lemma {:induction false} MergeCounts(a: seq<Id>, b: seq<Id>, x: Id)
    requires Strict(a) && Ascending(b)
    ensures Count(Merge(a, b), x) >= 2 <==> Count(b, x) >= 2
    decreases |a| + |b|
  {
    CountStrict(a, x);
    if a != [] && b != [] {
      AscendingTail(b);
      HeadTail(b);
      if a[0] < b[0] {
        MergeCounts(a[1..], b, x);
        MergeElems(a[1..], b);
        assert Merge(a, b)[1..] == Merge(a[1..], b);
        if x == a[0] {
          CountAbsent(Merge(a[1..], b), x);
          CountAbsent(b, x);
        }
      } else if a[0] > b[0] {
        assert Merge(a, b)[1..] == Merge(a, b[1..]);
        MergeCounts(a, b[1..], x);
        if x == b[0] {
          HeadTail(a);
          SmallerIsFromBatch(a, b[1..], x);
        }
      } else {
        assert Merge(a, b)[1..] == Merge(a[1..], b[1..]);
        MergeCounts(a[1..], b[1..], x);
        if x == b[0] {
          SmallerIsFromBatch(a[1..], b[1..], x);
        }
      }
    }
  }

  /** An id below the list occurs in the merge as often as in the batch. */
  lemma {:induction false} SmallerIsFromBatch(a: seq<Id>, b: seq<Id>, x: Id)
    requires Ascending(b) && (forall y :: y in b ==> x <= y) && forall y :: y in a ==> x < y
    ensures Count(Merge(a, b), x) == Count(b, x)
    decreases |b|
  {
    if b == [] {
      CountAbsent(a, x);
    } else if a != [] {
      AscendingTail(b);
      HeadTail(b);
      assert a[0] in a && b[0] in b;
      if b[0] == x {
        assert Merge(a, b)[1..] == Merge(a, b[1..]);
        SmallerIsFromBatch(a, b[1..], x);
      } else {
        MergeElems(a, b);
        CountAbsent(b, x);
        CountAbsent(Merge(a, b), x);
      }
    }
  }

  /** Every id the messages repeat has 1999 known ids or more above it, so that trimming takes all but one of it. */
  ghost predicate RepeatsGo(known: set<Id>, messages: seq<Id>) {
    forall x :: multiset(messages)[x] >= 2 ==> |Higher(known, x)| >= 1999
  }

  ghost predicate RepeatsTrimmed(order: seq<Id>, kind: LoadType, messages: seq<Id>) {
    RepeatsGo(Kept(Elems(order), kind, messages) + Elems(messages), messages)
  }

  lemma RepeatsAlike(m: seq<Id>, known: set<Id>, batch: seq<Id>)
    requires Elems(m) == known && forall x :: Count(m, x) >= 2 <==> multiset(batch)[x] >= 2
    ensures RepeatsLow(m, MAX_CHANNEL_IDS) <==> RepeatsGo(known, batch)
  {
  }

  lemma MergedStrictIff(base: seq<Id>, batch: seq<Id>)
    requires Strict(base) && Ascending(batch)
    ensures Strict(LastN(Merged(base, batch), MAX_CHANNEL_IDS)) <==> RepeatsGo(Elems(base) + Elems(batch), batch)
  {
    var m := Merge(base, batch);
    FastPathsAreMerge(base, batch);
    MergeAscendsFromStrict(base, batch);
    TrimmedStrictIff(m, MAX_CHANNEL_IDS);
    UnionElems(base, batch);
    forall x ensures Count(m, x) >= 2 <==> multiset(batch)[x] >= 2 {
      MergeCounts(base, batch, x);
      CountOccurs(batch, x);
    }
    RepeatsAlike(m, Elems(base) + Elems(batch), batch);
  }

  /** One batch leaves a strict list strict exactly if the ids it repeats fall to the trimming. */
  lemma ReceivedStrictIff(order: seq<Id>, kind: LoadType, messages: seq<Id>)
    requires Strict(order)
    ensures Strict(AfterReceived(order, kind, messages)) <==> RepeatsTrimmed(order, kind, messages)
  {
    var batch := InsertionSorted(messages);
    SortedBatch(messages);
    SameElems(batch, messages);
    if messages != [] {
      KeptIsBelow(order, messages);
      MergedStrictIff(if kind.Latest? then Below(order, batch[0]) else order, batch);
    }
  }

  lemma MergeAscendsFromStrict(a: seq<Id>, b: seq<Id>)
    requires Strict(a) && Ascending(b)
    ensures Ascending(Merge(a, b))
  {
    StrictAscends(a);
    MergeAscending(a, b);
  }

  lemma {:induction false} StrictAscends(a: seq<Id>)
    requires Strict(a)
    ensures Ascending(a)
  {
    if a != [] {
      StrictAscends(a[1..]);
      AscendingPrepend(a[0], a[1..]);
      assert a == [a[0]] + a[1..];
    }
  }

  /** A first batch that repeats an id leaves it repeated. */
  lemma RepeatIsKept(x: Id)
    ensures !Strict(Run([Received(Created, [x, x])]))
  {
    var none: seq<Event>, twice := [], [x, x];
    var es := none + [Received(Created, twice)];
    assert es[..|es| - 1] == none;
    ReceivedStrictIff([], Created, twice);
    assert multiset(twice) == multiset{x, x};
    assert Elems(twice) == {x} && Kept(Elems([]), Created, twice) + Elems(twice) == {x};
    assert Higher({x}, x) == {};
  }

  ghost predicate AlwaysStrict(es: seq<Event>)
    decreases |es|
  {
    Strict(Run(es)) && (es != [] ==> AlwaysStrict(es[..|es| - 1]))
  }

  ghost predicate AlwaysTrimmed(es: seq<Event>)
    decreases |es|
  {
    es != [] ==>
      var before, e := es[..|es| - 1], es[|es| - 1];
      AlwaysTrimmed(before) && (e.Received? ==> RepeatsTrimmed(Run(before), e.kind, e.messages))
  }

  /** The list stays strictly ascending throughout a run exactly if what its batches repeat falls to the trimming. */
  lemma {:induction false} RunsStayStrictIff(es: seq<Event>)
    ensures AlwaysStrict(es) <==> AlwaysTrimmed(es)
    decreases |es|
  {
    if es != [] {
      var before, e := es[..|es| - 1], es[|es| - 1];
      RunsStayStrictIff(before);
      RunsKeepAscending(before);
      if AlwaysStrict(before) {
        if e.Received? {
          ReceivedStrictIff(Run(before), e.kind, e.messages);
        } else {
          StepKeepsListing(Run(before), e);
        }
      }
    }
  }

  /** What a sorted batch says about how far back a channel goes: only history pages prove anything. */
  function Noted(lowest: map<Channel, Option<Id>>, c: Channel, kind: LoadType, batch: seq<Id>)
    : map<Channel, Option<Id>>
  {
    if !kind.History? || |batch| >= PAGE then lowest
    else lowest[c := if batch == [] then None else Some(batch[0])]
  }

  // ------------------------------------------------------------------
  // What is known about the beginning of a channel
  // ------------------------------------------------------------------

  /** The code takes it that the channel has nothing below the id. */
  predicate SaysNothingOlder(lowest: map<Channel, Option<Id>>, c: Channel, beforeId: Id) {
    c in lowest && (lowest[c].None? || lowest[c].value >= beforeId)
  }

  ghost function OlderThan(server: set<Id>, bound: Id): set<Id> {
    set x | x in server && x < bound
  }

  /** A history page: the server's last 30 ids below the bound, or all of them. */
  ghost function OlderPage(server: set<Id>, bound: Id): seq<Id> {
    LastN(Listing(OlderThan(server, bound)), 30)
  }

  /** What is noted about the channel after history pages at these bounds. */
  ghost function NotedRun(server: set<Id>, c: Channel, bounds: seq<Id>): map<Channel, Option<Id>>
    decreases |bounds|
  {
    if bounds == [] then map[]
    else
      Noted(NotedRun(server, c, bounds[..|bounds| - 1]), c, History,
            InsertionSorted(OlderPage(server, bounds[|bounds| - 1])))
  }

  ghost predicate NoneBelow(server: set<Id>, id: Id) {
    forall x :: x in server ==> id <= x
  }

  /** This page shows that nothing lies below the id: it is empty, or it is short and begins there or later. */
  ghost predicate PageShows(server: set<Id>, bound: Id, id: Id) {
    var page := OlderPage(server, bound);
    if page == [] then id <= bound else |page| < 30 && id <= page[0]
  }

  ghost predicate SomeShows(server: set<Id>, bounds: seq<Id>, id: Id) {
    exists b :: b in bounds && PageShows(server, b, id)
  }

  /** Another server that would have sent the same pages. */
  ghost predicate SamePages(server: set<Id>, other: set<Id>, bounds: seq<Id>) {
    forall b :: b in bounds ==> OlderPage(server, b) == OlderPage(other, b)
  }

  lemma OlderPageShape(server: set<Id>, bound: Id)
    ensures var page, older := OlderPage(server, bound), OlderThan(server, bound);
            && Strict(page) && Ascending(page) && InsertionSorted(page) == page
            && (forall x :: x in page ==> x in server && x < bound)
            && (page == [] <==> older == {})
            && (page != [] ==> page[0] in server)
            && (|page| < 30 ==> Elems(page) == older)
  {
    var all := Listing(OlderThan(server, bound));
    var page := OlderPage(server, bound);
    LastNLargest(all, 30);
    ElemsEmpty(all);
    StrictAscends(page);
    SortedUnique(InsertionSorted(page), page);
    forall x | x in page ensures x in server && x < bound {
      assert x in all && x in Elems(all);
    }
    if page != [] {
      assert page[0] in page;
    }
  }

  lemma ShownIsRight(server: set<Id>, bound: Id, id: Id)
    requires PageShows(server, bound, id)
    ensures NoneBelow(server, id)
  {
    var page := OlderPage(server, bound);
    OlderPageShape(server, bound);
    if page != [] {
      HeadTail(page);
    }
    forall x | x in server ensures id <= x {
      if x < bound {
        assert x in OlderThan(server, bound);
        assert page != [] && x in Elems(page) && x in page;
      }
    }
  }

  /** An id below a full page is not seen in it. */
  lemma {:induction false} LowIdUnseen(all: seq<Id>, x: Id, n: nat)
    requires |all| >= n
    ensures LastN([x] + all, n) == LastN(all, n)
  {
    assert ([x] + all)[1..] == all;
    assert |[x] + all| > n;
  }

  lemma ListingWithLower(s: set<Id>, x: Id)
    requires forall y :: y in s ==> x < y
    ensures Listing(s + {x}) == [x] + Listing(s)
  {
    var all := Listing(s);
    var lower := [x] + all;
    assert lower[1..] == all;
    assert forall y :: y in all ==> y in Elems(all);
    assert Strict(lower);
    HeadTail(lower);
    forall y ensures y in Elems(lower) <==> y in s + {x} {
      assert y in lower <==> y == x || y in all;
      assert y in all <==> y in Elems(all);
    }
    StrictUnique(Listing(s + {x}), lower);
  }

  lemma OlderThanWith(server: set<Id>, bound: Id, x: Id)
    ensures OlderThan(server + {x}, bound)
            == if x < bound then OlderThan(server, bound) + {x} else OlderThan(server, bound)
  {
  }

  lemma FullPageUnchanged(older: set<Id>, x: Id)
    requires |LastN(Listing(older), 30)| >= 30 && forall y :: y in older ==> x < y
    ensures LastN(Listing(older + {x}), 30) == LastN(Listing(older), 30)
  {
    ListingWithLower(older, x);
    LowIdUnseen(Listing(older), x, 30);
  }

  lemma LowerServer(server: set<Id>, bound: Id, id: Id)
    requires NoneBelow(server, id) && !PageShows(server, bound, id)
    ensures OlderPage(server + {id - 1}, bound) == OlderPage(server, bound)
  {
    var older, page := OlderThan(server, bound), OlderPage(server, bound);
    OlderPageShape(server, bound);
    OlderThanWith(server, bound, id - 1);
    if page != [] {
      var first: Id := page[0];
      assert first in page && id <= first < bound;
      FullPageUnchanged(older, id - 1);
    }
  }

  /**
    The pages seen prove that the server has nothing below an id exactly if one of them does by itself: an empty
    page at the id or above, or a short page that begins there or later.
  */
  lemma PagesProveIff(server: set<Id>, bounds: seq<Id>, id: Id)
    ensures (forall other :: SamePages(server, other, bounds) ==> NoneBelow(other, id))
            <==> SomeShows(server, bounds, id)
  {
    if SomeShows(server, bounds, id) {
      var b :| b in bounds && PageShows(server, b, id);
      forall other | SamePages(server, other, bounds) ensures NoneBelow(other, id) {
        assert OlderPage(server, b) == OlderPage(other, b);
        assert PageShows(other, b, id);
        ShownIsRight(other, b, id);
      }
    } else {
      var other := if NoneBelow(server, id) then server + {id - 1} else server;
      if NoneBelow(server, id) {
        forall b | b in bounds ensures OlderPage(server, b) == OlderPage(other, b) {
          LowerServer(server, b, id);
        }
        assert id - 1 in other;
      }
      assert SamePages(server, other, bounds) && !NoneBelow(other, id);
    }
  }

  /** What is noted about the channel was seen: a lowest id begins a short page, no lowest id means an empty page. */
  ghost predicate NotedWasSeen(server: set<Id>, c: Channel, bounds: seq<Id>, lowest: map<Channel, Option<Id>>) {
    c in lowest ==>
      if lowest[c].Some? then SomeShows(server, bounds, lowest[c].value)
      else exists b :: b in bounds && OlderPage(server, b) == []
  }

  lemma StillSeen(server: set<Id>, c: Channel, before: seq<Id>, b: Id, lowest: map<Channel, Option<Id>>)
    requires NotedWasSeen(server, c, before, lowest)
    ensures NotedWasSeen(server, c, before + [b], lowest)
  {
    var bounds := before + [b];
    assert forall x :: x in before ==> x in bounds;
    if c in lowest && lowest[c].Some? {
      var x :| x in before && PageShows(server, x, lowest[c].value);
      assert x in bounds;
    }
  }

  lemma NowSeen(server: set<Id>, c: Channel, before: seq<Id>, b: Id, lowest: map<Channel, Option<Id>>)
    requires NotedWasSeen(server, c, before, lowest)
    ensures NotedWasSeen(server, c, before + [b], Noted(lowest, c, History, InsertionSorted(OlderPage(server, b))))
  {
    var page := OlderPage(server, b);
    OlderPageShape(server, b);
    assert b in before + [b];
    if |page| >= 30 {
      StillSeen(server, c, before, b, lowest);
    } else if page != [] {
      assert PageShows(server, b, page[0]);
    }
  }

  lemma {:induction false} NotedIsShown(server: set<Id>, c: Channel, bounds: seq<Id>)
    ensures NotedWasSeen(server, c, bounds, NotedRun(server, c, bounds))
    decreases |bounds|
  {
    if bounds != [] {
      var before, b := bounds[..|bounds| - 1], bounds[|bounds| - 1];
      NotedIsShown(server, c, before);
      assert bounds == before + [b];
      NowSeen(server, c, before, b, NotedRun(server, c, before));
    }
  }

  /**
    When the code answers that nothing is older than an id, this is right if a lowest id was noted, or if the id
    is not above any bound asked for: scrolling back only, the answer is always right.
  */
  lemma ExhaustedIsRight(server: set<Id>, c: Channel, bounds: seq<Id>, beforeId: Id)
    requires var lowest := NotedRun(server, c, bounds);
             && SaysNothingOlder(lowest, c, beforeId)
             && (lowest[c].Some? || forall b :: b in bounds ==> beforeId <= b)
    ensures NoneBelow(server, beforeId) && SomeShows(server, bounds, beforeId)
  {
    var lowest := NotedRun(server, c, bounds);
    NotedIsShown(server, c, bounds);
    if lowest[c].Some? {
      var b :| b in bounds && PageShows(server, b, lowest[c].value);
      assert PageShows(server, b, beforeId);
      ShownIsRight(server, b, beforeId);
    } else {
      var b :| b in bounds && OlderPage(server, b) == [];
      assert PageShows(server, b, beforeId);
      ShownIsRight(server, b, beforeId);
    }
  }

  /** Right after a page of fewer than 30 ids exactly what is asked for at or below its first id is answered at once. */
  lemma ShortPageEndsHistory(server: set<Id>, c: Channel, bounds: seq<Id>, bound: Id, beforeId: Id)
    requires |OlderPage(server, bound)| < 30
    ensures SaysNothingOlder(NotedRun(server, c, bounds + [bound]), c, beforeId)
            <==> OlderPage(server, bound) == [] || beforeId <= OlderPage(server, bound)[0]
  {
    var all := bounds + [bound];
    assert all[..|all| - 1] == bounds;
    OlderPageShape(server, bound);
  }

  /** A full page proves nothing and changes nothing. */
  lemma FullPageGoesOn(server: set<Id>, c: Channel, bounds: seq<Id>, bound: Id)
    requires |OlderPage(server, bound)| == 30
    ensures NotedRun(server, c, bounds + [bound]) == NotedRun(server, c, bounds)
  {
    var all := bounds + [bound];
    assert all[..|all| - 1] == bounds;
    OlderPageShape(server, bound);
  }

  /** An empty page below everything is taken to mean that nothing is older than any id, even a later one. */
  lemma EmptyPageHidesTheRest(c: Channel, x: Id)
    ensures SaysNothingOlder(NotedRun({x}, c, [x]), c, x + 1) && !NoneBelow({x}, x + 1)
  {
    var bounds := [x];
    assert bounds[..0] == [];
    assert OlderThan({x}, x) == {};
    OlderPageShape({x}, x);
    assert x in {x};
  }

  // ------------------------------------------------------------------
  // The history window
  // ------------------------------------------------------------------

  function Window(order: seq<Id>, beforeId: Id): seq<Id> {
    LastN(Below(order, beforeId), PAGE)
  }

  /** The window is the last (up to) 30 known ids below the requested one, in order. */
  lemma WindowIsLastKnown(order: seq<Id>, beforeId: Id)
    requires Strict(order)
    ensures var w, older := Window(order, beforeId), set x | x in order && x < beforeId;
            && Strict(w) && |w| == (if |older| < 30 then |older| else 30)
            && (forall x :: x in w ==> x in older)
            && (forall x, y :: x in w && y in older && y !in w ==> y < x)
  {
    var below, older := Below(order, beforeId), set x | x in order && x < beforeId;
    BelowShape(order, beforeId);
    LastNLargest(below, PAGE);
    StrictNoDup(below);
    NoDupCard(below, older);
  }

  lemma {:induction false} StrictNoDup(s: seq<Id>)
    requires Strict(s)
    ensures NoDup(s)
  {
    if s != [] {
      StrictNoDup(s[1..]);
      var head: Id := s[0];
      assert head !in s[1..];
    }
  }

  // ------------------------------------------------------------------
  // The code
  // ------------------------------------------------------------------

  datatype PendingSend = PendingSend(channel: Channel, id: Id)

  /** The preview that a message with this nonce replaces. */
  function Preview(pending: map<string, PendingSend>, nonce: Option<string>): Option<PendingSend> {
    if nonce.Some? && nonce.value != "" && nonce.value in pending then Some(pending[nonce.value]) else None
  }

  /** A channel's list once the preview is gone. */
  ghost function WithoutPreview(order: seq<Id>, d: Channel, preview: Option<PendingSend>): seq<Id> {
    if preview.Some? && preview.value.channel == d then Next(order, Pruned({preview.value.id})) else order
  }

  lemma {:induction false} MinusElems(order: seq<Id>, ids: set<Id>, x: Id)
    ensures x in Minus(order, ids) <==> x in order && x !in ids
  {
    if order != [] {
      HeadTail(order);
      MinusElems(order[1..], ids, x);
    }
  }

  /** The message with a pending nonce takes away its preview and nothing else; any other takes away nothing. */
  lemma PreviewIsReplaced(order: seq<Id>, d: Channel, pending: map<string, PendingSend>, nonce: string, x: Id)
    requires nonce in pending && nonce != ""
    ensures x in WithoutPreview(order, d, Preview(pending, Some(nonce)))
            <==> x in order && !(d == pending[nonce].channel && x == pending[nonce].id)
    ensures WithoutPreview(order, d, Preview(pending - {nonce}, Some(nonce))) == order
    ensures WithoutPreview(order, d, Preview(pending, None)) == order
    ensures WithoutPreview(order, d, Preview(pending, Some(""))) == order
  {
    MinusElems(order, {pending[nonce].id}, x);
  }

  datatype HistoryAnswer =
    | Debounced                    // a fetch for this channel is already under way
    | Exhausted                    // nothing older exists: an empty page
    | FromRam(ids: seq<Id>)
    | FromDisk
    | Fetching

  /** The message cache once a batch is entered, less what the cache gave up to stay within its bound. */
  ghost function Entered(cache: set<Id>, batch: seq<Id>, evicted: set<Id>): set<Id> {
    if batch == [] then cache else cache + Elems(batch) - evicted
  }

  lemma EnteredHolds(cache: set<Id>, batch: seq<Id>, evicted: set<Id>, x: Id)
    ensures x !in evicted ==> (x in Entered(cache, batch, evicted) <==> x in cache || x in batch)
    ensures x in evicted && batch != [] ==> x !in Entered(cache, batch, evicted)
    ensures Entered(cache, [], evicted) == cache
  {
  }

  lemma EnteredSorted(cache: set<Id>, messages: seq<Id>, evicted: set<Id>)
    ensures Entered(cache, InsertionSorted(messages), evicted) == Entered(cache, messages, evicted)
  {
    SortedBatch(messages);
    var batch := InsertionSorted(messages);
    forall x ensures x in Elems(batch) <==> x in Elems(messages) {
      assert x in batch <==> x in messages;
    }
  }

  class MessageManager {
    var messageCache: set<Id>                        // message objects at hand; may be evicted at any time
    var channelMessages: map<Channel, seq<Id>>
    var pendingSends: map<string, PendingSend>
    var fetchedChannels: set<Channel>
    var lowestKnownId: map<Channel, Option<Id>>      // None: the whole history is known
    var historyDebounce: set<Channel>

    /** The known ids of a channel, in order. */
    function Order(c: Channel): seq<Id>
      reads this
    {
      if c in channelMessages then channelMessages[c] else []
    }

    constructor ()
      ensures forall c :: Order(c) == []
    {
      messageCache, channelMessages, pendingSends := {}, map[], map[];
      fetchedChannels, lowestKnownId, historyDebounce := {}, map[], {};
    }

    /**
      Merges a sorted batch into a channel by whichever of the three paths applies, then trims the front.
      `evicted` is what the bounded message cache gives up while the batch is entered.
    */
    method CacheMessages(c: Channel, msgs: seq<Id>, evicted: set<Id>)
      modifies this`messageCache, this`channelMessages
      ensures Order(c) == Cached(old(Order(c)), msgs)
      ensures forall d :: d != c ==> Order(d) == old(Order(d))
      ensures messageCache == Entered(old(messageCache), msgs, evicted)
    {
      if msgs == [] {
        return;
      }
      messageCache := messageCache + (set m | m in msgs) - evicted;
      var order := Order(c);
      if order == [] {
        order := msgs;
      } else if msgs[0] > order[|order| - 1] {
        order := order + msgs;
      } else if msgs[|msgs| - 1] < order[0] {
        order := msgs + order;
      } else {
        order := MergeLists(order, msgs);
      }
      assert order == Merged(old(Order(c)), msgs);
      ghost var whole := order;
      while |order| > MAX_CHANNEL_IDS
        invariant LastN(order, MAX_CHANNEL_IDS) == LastN(whole, MAX_CHANNEL_IDS)
      {
        order := order[1..];
      }
      channelMessages := channelMessages[c := order];
    }

    /** A batch from the API: put in order, its consequences for the history noted, then cached. */
    method OnApiMessagesReceived(messages: seq<Id>, kind: LoadType, c: Channel, evicted: set<Id>)
      modifies this`messageCache, this`channelMessages, this`lowestKnownId, this`fetchedChannels
      ensures Order(c) == Next(old(Order(c)), Received(kind, messages))
      ensures forall d :: d != c ==> Order(d) == old(Order(d))
      ensures lowestKnownId == Noted(old(lowestKnownId), c, kind, InsertionSorted(messages))
      ensures fetchedChannels == if kind.Latest? then old(fetchedChannels) + {c} else old(fetchedChannels)
      ensures messageCache == Entered(old(messageCache), messages, evicted)
    {
      var sortedMessages := InsertionSorted(messages);
      NoteHistory(sortedMessages, kind, c);
      CacheSorted(sortedMessages, kind, c, evicted);
      EnteredSorted(old(messageCache), messages, evicted);
    }

    /** A latest page first replaces the tail it covers; every batch is then merged in. */
    method CacheSorted(sortedMessages: seq<Id>, kind: LoadType, c: Channel, evicted: set<Id>)
      modifies this`messageCache, this`channelMessages, this`fetchedChannels
      ensures Order(c) == AfterSorted(old(Order(c)), kind, sortedMessages)
      ensures forall d :: d != c ==> Order(d) == old(Order(d))
      ensures fetchedChannels == if kind.Latest? then old(fetchedChannels) + {c} else old(fetchedChannels)
      ensures messageCache == Entered(old(messageCache), sortedMessages, evicted)
    {
      if kind.Latest? {
        fetchedChannels := fetchedChannels + {c};
        if sortedMessages != [] {
          channelMessages := channelMessages[c := Below(Order(c), sortedMessages[0])];
        }
      }
      CacheMessages(c, sortedMessages, evicted);
    }

    /** A short history page reveals how far back the channel goes. */
    method NoteHistory(sortedMessages: seq<Id>, kind: LoadType, c: Channel)
      modifies this`lowestKnownId
      ensures lowestKnownId == Noted(old(lowestKnownId), c, kind, sortedMessages)
    {
      if kind.History? {
        if sortedMessages == [] {
          lowestKnownId := lowestKnownId[c := None];
        } else if |sortedMessages| < PAGE {
          lowestKnownId := lowestKnownId[c := Some(sortedMessages[0])];
        }
      }
    }

    /** Drops one id from a channel's list. */
    method Erase(c: Channel, id: Id)
      modifies this`channelMessages
      ensures Order(c) == Next(old(Order(c)), Erased(id))
      ensures forall d :: d != c ==> Order(d) == old(Order(d))
    {
      if c in channelMessages {
        channelMessages := channelMessages[c := EraseFirst(channelMessages[c], id)];
      }
    }

    method OnMessageDeleted(c: Channel, id: Id)
      modifies this`messageCache, this`channelMessages
      ensures Order(c) == Next(old(Order(c)), Erased(id))
      ensures forall d :: d != c ==> Order(d) == old(Order(d))
      ensures messageCache == old(messageCache) - {id}
    {
      messageCache := messageCache - {id};
      Erase(c, id);
    }

    method OnMessagesDeletedBulk(c: Channel, ids: seq<Id>)
      modifies this`messageCache, this`channelMessages
      ensures Order(c) == Next(old(Order(c)), Pruned(set id | id in ids))
      ensures forall d :: d != c ==> Order(d) == old(Order(d))
      ensures messageCache == old(messageCache) - set id | id in ids
    {
      var deletedIds := set id | id in ids;
      if c in channelMessages {
        channelMessages := channelMessages[c := Minus(channelMessages[c], deletedIds)];
      }
      messageCache := messageCache - deletedIds;
    }

    /** A failed send leaves no trace of its preview. */
    method OnMessageSendFailed(nonce: string)
      modifies this`messageCache, this`channelMessages, this`pendingSends
      ensures pendingSends == old(pendingSends) - {nonce}
      ensures nonce !in old(pendingSends) ==>
                channelMessages == old(channelMessages) && messageCache == old(messageCache)
      ensures nonce in old(pendingSends) ==>
                var p := old(pendingSends)[nonce];
                && Order(p.channel) == Next(old(Order(p.channel)), Erased(p.id))
                && messageCache == old(messageCache) - {p.id}
                && forall d :: d != p.channel ==> Order(d) == old(Order(d))
    {
      if nonce !in pendingSends {
        return;
      }
      var p := pendingSends[nonce];
      pendingSends := pendingSends - {nonce};
      messageCache := messageCache - {p.id};
      Erase(p.channel, p.id);
    }

    /** The pending send a nonce confirms is forgotten, with its preview. */
    method DropPreview(nonce: Option<string>)
      modifies this`messageCache, this`channelMessages, this`pendingSends
      ensures var preview := Preview(old(pendingSends), nonce);
              && (forall d :: Order(d) == WithoutPreview(old(Order(d)), d, preview))
              && messageCache == old(messageCache) - (if preview.Some? then {preview.value.id} else {})
              && pendingSends == old(pendingSends) - (if preview.Some? then {nonce.value} else {})
    {
      if nonce.Some? && nonce.value != "" && nonce.value in pendingSends {
        var p := pendingSends[nonce.value];
        pendingSends := pendingSends - {nonce.value};
        messageCache := messageCache - {p.id};
        if p.channel in channelMessages {
          channelMessages := channelMessages[p.channel := Minus(channelMessages[p.channel], {p.id})];
        }
      }
    }

    /** A message from the gateway; its nonce, if pending, identifies the preview it replaces. */
    method OnMessageCreated(id: Id, c: Channel, nonce: Option<string>, evicted: set<Id>)
      modifies this`messageCache, this`channelMessages, this`pendingSends, this`lowestKnownId, this`fetchedChannels
      ensures var preview := Preview(old(pendingSends), nonce);
              && (forall d :: Order(d) ==
                    (var rest := WithoutPreview(old(Order(d)), d, preview);
                     if d == c then Next(rest, Received(Created, [id])) else rest))
              && messageCache ==
                 Entered(old(messageCache) - (if preview.Some? then {preview.value.id} else {}), [id], evicted)
              && pendingSends == old(pendingSends) - (if preview.Some? then {nonce.value} else {})
      ensures lowestKnownId == old(lowestKnownId) && fetchedChannels == old(fetchedChannels)
    {
      DropPreview(nonce);
      OnApiMessagesReceived([id], Created, c, evicted);
    }

    /** One page of history below an id: from RAM if every message of the window is at hand. */
    method RequestLoadHistory(c: Channel, beforeId: Id, onDisk: bool) returns (answer: HistoryAnswer)
      requires Ascending(Order(c))
      modifies this`historyDebounce
      ensures answer == Debounced <==> c in old(historyDebounce)
      ensures answer == Exhausted <==> c !in old(historyDebounce) && NothingOlder(c, beforeId)
      ensures answer.FromRam? <==>
              && c !in old(historyDebounce) && !NothingOlder(c, beforeId) && c in fetchedChannels
              && Window(Order(c), beforeId) != []
              && forall x :: x in Window(Order(c), beforeId) ==> x in messageCache
      ensures answer.FromRam? ==> answer.ids == Window(Order(c), beforeId)
      ensures historyDebounce == if answer.Fetching? then old(historyDebounce) + {c} else old(historyDebounce)
      ensures answer.FromDisk? <==>
              && c !in old(historyDebounce) && !NothingOlder(c, beforeId) && c in fetchedChannels && onDisk
              && !(Window(Order(c), beforeId) != []
                   && forall x :: x in Window(Order(c), beforeId) ==> x in messageCache)
    {
      if c in historyDebounce {
        return Debounced;
      }
      if c in lowestKnownId && (lowestKnownId[c].None? || lowestKnownId[c].value >= beforeId) {
        return Exhausted;
      }
      if c in fetchedChannels {
        var ids := LastBefore(Order(c), beforeId);
        if ids != [] && forall x :: x in ids ==> x in messageCache {
          return FromRam(ids);
        }
        if onDisk {
          return FromDisk;
        }
      }
      historyDebounce := historyDebounce + {c};
      return Fetching;
    }

    /** The channel's history is known not to reach below the id. */
    predicate NothingOlder(c: Channel, beforeId: Id)
      reads this
    {
      SaysNothingOlder(lowestKnownId, c, beforeId)
    }
  }

  lemma {:induction false} LastNOfPrefix(s: seq<Id>, n: nat)
    ensures LastN(s, n) == s[if |s| < n then 0 else |s| - n..]
  {
    if |s| <= n {
      assert s[0..] == s;
    } else {
      var tail := s[1..];
      LastNOfPrefix(tail, n);
      assert LastN(s, n) == LastN(tail, n);
      assert tail[|tail| - n..] == s[|s| - n..];
    }
  }

  /** The window is the slice before the position of the bound. */
  lemma WindowSlice(order: seq<Id>, beforeId: Id, index: nat)
    requires index <= |order| && order[..index] == Below(order, beforeId)
    ensures Window(order, beforeId) == order[index - (if index < PAGE then index else PAGE)..index]
  {
    LastNOfPrefix(order[..index], PAGE);
  }

  /** std::lower_bound by bisection. */
  method LowerBound(order: seq<Id>, bound: Id) returns (index: nat)
    requires Ascending(order)
    ensures index <= |order| && order[..index] == Below(order, bound)
  {
    var lo, hi := 0, |order|;
    while lo < hi
      invariant 0 <= lo <= hi <= |order|
      invariant forall i :: 0 <= i < lo ==> order[i] < bound
      invariant forall i :: hi <= i < |order| ==> order[i] >= bound
    {
      var mid := (lo + hi) / 2;
      if order[mid] < bound {
        lo := mid + 1;
      } else {
        hi := mid;
      }
    }
    index := lo;
    BelowIsPrefix(order, bound, index);
  }

  lemma {:induction false} BelowIsPrefix(s: seq<Id>, bound: Id, k: nat)
    requires k <= |s|
    requires (forall i :: 0 <= i < k ==> s[i] < bound) && (k < |s| ==> s[k] >= bound)
    ensures s[..k] == Below(s, bound)
  {
    if k > 0 {
      BelowIsPrefix(s[1..], bound, k - 1);
      assert s[..k] == [s[0]] + s[1..][..k - 1];
    }
  }

  /** The ids just before a bound, a page at most. */
  method LastBefore(order: seq<Id>, beforeId: Id) returns (ids: seq<Id>)
    requires Ascending(order)
    ensures ids == Window(order, beforeId)
  {
    var index := LowerBound(order, beforeId);
    var count := if index < PAGE then index else PAGE;
    ids := order[index - count..index];
    WindowSlice(order, beforeId, index);
  }

  /** One step of the two cursors takes the head of the merge. */
  lemma MergeStep(order: seq<Id>, msgs: seq<Id>, o: nat, m: nat, before: seq<Id>) returns (left: seq<Id>)
    requires o <= |order| && m <= |msgs| && (o < |order| || m < |msgs|)
    ensures var fromOrder := o < |order| && (m == |msgs| || order[o] <= msgs[m]);
            var fromMsgs := m < |msgs| && (o == |order| || msgs[m] <= order[o]);
            var x := if fromOrder then order[o] else msgs[m];
            && left == Merge(order[if fromOrder then o + 1 else o..], msgs[if fromMsgs then m + 1 else m..])
            && before + Merge(order[o..], msgs[m..]) == before + [x] + left
  {
    left := Merge(order[if o < |order| && (m == |msgs| || order[o] <= msgs[m]) then o + 1 else o..],
                  msgs[if m < |msgs| && (o == |order| || msgs[m] <= order[o]) then m + 1 else m..]);
    var a, b := order[o..], msgs[m..];
    if o < |order| {
      assert a[1..] == order[o + 1..];
    }
    if m < |msgs| {
      assert b[1..] == msgs[m + 1..];
    }
    if o == |order| {
      assert b == [msgs[m]] + msgs[m + 1..];
      ConcatAssociates(before, [msgs[m]], msgs[m + 1..]);
    } else if m == |msgs| {
      assert a == [order[o]] + order[o + 1..];
      ConcatAssociates(before, [order[o]], order[o + 1..]);
    } else if order[o] < msgs[m] {
      ConcatAssociates(before, [order[o]], Merge(order[o + 1..], b));
    } else if order[o] > msgs[m] {
      ConcatAssociates(before, [msgs[m]], Merge(a, msgs[m + 1..]));
    } else {
      ConcatAssociates(before, [order[o]], Merge(order[o + 1..], msgs[m + 1..]));
    }
  }

  /** The general path: two cursors, duplicates taken once. */
  method MergeLists(order: seq<Id>, msgs: seq<Id>) returns (merged: seq<Id>)
    ensures merged == Merge(order, msgs)
  {
    merged := [];
    var o, m := 0, 0;
    assert order[0..] == order && msgs[0..] == msgs;
    ghost var left := Merge(order, msgs);          // what is still to be merged
    ghost var all := merged + left;
    while o < |order| && m < |msgs|
      invariant 0 <= o <= |order| && 0 <= m <= |msgs|
      invariant left == Merge(order[o..], msgs[m..]) && merged + left == all
      decreases |order| - o + |msgs| - m
    {
      left := MergeStep(order, msgs, o, m, merged);
      if order[o] < msgs[m] {
        merged := merged + [order[o]];
        o := o + 1;
      } else if order[o] > msgs[m] {
        merged := merged + [msgs[m]];
        m := m + 1;
      } else {
        merged := merged + [order[o]];
        o, m := o + 1, m + 1;
      }
    }
    while o < |order|
      invariant 0 <= o <= |order| && 0 <= m <= |msgs| && (o < |order| ==> m == |msgs|)
      invariant left == Merge(order[o..], msgs[m..]) && merged + left == all
    {
      left := MergeStep(order, msgs, o, m, merged);
      merged := merged + [order[o]];
      o := o + 1;
    }
    while m < |msgs|
      invariant o == |order| && 0 <= m <= |msgs|
      invariant left == Merge(order[o..], msgs[m..]) && merged + left == all
    {
      left := MergeStep(order, msgs, o, m, merged);
      merged := merged + [msgs[m]];
      m := m + 1;
    }
    assert left == [] && merged + [] == merged;
  }
}
