/**
  The sparse row map of one virtual member list and the op streams that edit it
  (src/Core/MemberListManager.cpp).

  A list is a finite map from row index to row; every index outside the map is a
  placeholder.  `RowAfter` is the reference meaning of an op stream: it replays the
  ops one at a time on an unbounded list of optional rows.  `ListData` is the code:
  it collects runs of INSERTs and runs of DELETEs, sorts the latter, and rebuilds the
  map once per run.
*/
module MemberRows {
  import opened Options
  import opened Sorting

  /** One op of a GUILD_MEMBER_LIST_UPDATE, its rows already resolved; absent fields are None. */
  datatype ListOp<Row> =
    | Sync(range: Option<(int, int)>, rows: Option<seq<Row>>)
    | Insert(index: Option<int>, row: Option<Row>)
    | Update(index: Option<int>, row: Option<Row>)
    | Delete(index: Option<int>)
    | Invalidate(range: Option<(int, int)>)
    | Other

  function At<Row>(m: map<int, Row>, j: int): Option<Row> {
    if j in m then Some(m[j]) else None
  }

  // ------------------------------------------------------------------
  // Reference: one op at a time on an unbounded list of optional rows
  // ------------------------------------------------------------------

  /** Where the row at an index comes from: written by the op itself, or an earlier row. */
  datatype Provenance<Row> = Written(row: Option<Row>) | MovedFrom(index: int)

  ghost function Where<Row>(op: ListOp<Row>, j: int): Provenance<Row> {
    match op
    case Sync(Some(r), Some(rows)) =>
      if rows == [] && r.0 <= j <= r.1 then Written(None)
      else if r.0 <= j < r.0 + |rows| then Written(Some(rows[j - r.0]))
      else MovedFrom(j)
    case Insert(Some(i), Some(row)) =>
      if j < i then MovedFrom(j) else if j == i then Written(Some(row)) else MovedFrom(j - 1)
    case Update(Some(i), Some(row)) => if j == i then Written(Some(row)) else MovedFrom(j)
    case Delete(Some(d)) => MovedFrom(if j < d then j else j + 1)
    case Invalidate(Some(r)) => if r.0 <= j <= r.1 then Written(None) else MovedFrom(j)
    case _ => MovedFrom(j)
  }

  /** The row at index `j` after applying one op to the list `m`. */
  ghost function RowAfterOp<Row>(op: ListOp<Row>, m: map<int, Row>, j: int): Option<Row> {
    match Where(op, j)
    case Written(row) => row
    case MovedFrom(k) => At(m, k)
  }

  /** The row at index `j` after replaying `ops` in arrival order on the list `m`. */
  ghost function RowAfter<Row>(ops: seq<ListOp<Row>>, m: map<int, Row>, j: int): Option<Row>
    decreases |ops|
  {
    if ops == [] then At(m, j)
    else
      match Where(ops[|ops| - 1], j)
      case Written(row) => row
      case MovedFrom(k) => RowAfter(ops[..|ops| - 1], m, k)
  }

  /** The rows of a list all of which are loaded. */
  function Loaded<Row>(s: seq<Row>): map<int, Row> {
    map j | 0 <= j < |s| :: s[j]
  }

  /** On a loaded list each op is the plain edit of the sequence: insert, remove, replace, overwrite. */
  lemma OpsOnLoadedList<Row>(s: seq<Row>, i: nat, row: Row, last: int, rows: seq<Row>, j: int)
    ensures i <= |s| ==> RowAfterOp(Insert(Some(i), Some(row)), Loaded(s), j) == At(Loaded(s[..i] + [row] + s[i..]), j)
    ensures i < |s| ==>
              && RowAfterOp(Delete(Some(i)), Loaded(s), j) == At(Loaded(s[..i] + s[i + 1..]), j)
              && RowAfterOp(Update(Some(i), Some(row)), Loaded(s), j) == At(Loaded(s[i := row]), j)
    ensures rows != [] && i + |rows| <= |s| ==>
              RowAfterOp(Sync(Some((i as int, last)), Some(rows)), Loaded(s), j)
              == At(Loaded(s[..i] + rows + s[i + |rows|..]), j)
  {
  }

  /** Emptying a range, by INVALIDATE or by a SYNC without rows, and ops that lack a field. */
  lemma OpsOnRanges<Row>(m: map<int, Row>, lo: int, hi: int, index: Option<int>, row: Option<Row>, j: int)
    ensures RowAfterOp(Invalidate(Some((lo, hi))), m, j) == if lo <= j <= hi then None else At(m, j)
    ensures RowAfterOp(Sync(Some((lo, hi)), Some([])), m, j) == if lo <= j <= hi then None else At(m, j)
    ensures RowAfterOp(Invalidate(None), m, j) == RowAfterOp(Delete(None), m, j) == RowAfterOp(Other, m, j) == At(m, j)
    ensures index.None? || row.None? ==>
              RowAfterOp(Insert(index, row), m, j) == RowAfterOp(Update(index, row), m, j) == At(m, j)
  {
  }

  /** Replaying `b` on a list that already is the result of `a` replays `a + b`. */
  lemma {:induction false} ReplayConcat<Row>(a: seq<ListOp<Row>>, b: seq<ListOp<Row>>, m: map<int, Row>,
                                             mid: map<int, Row>, j: int)
    requires forall k {:trigger At(mid, k)} :: At(mid, k) == RowAfter(a, m, k)
    ensures RowAfter(b, mid, j) == RowAfter(a + b, m, j)
    decreases |b|
  {
    if b == [] {
      assert a + b == a;
    } else {
      var before := b[..|b| - 1];
      assert (a + b)[..|a + b| - 1] == a + before;
      match Where(b[|b| - 1], j) {
        case Written(_) =>
        case MovedFrom(k) => ReplayConcat(a, before, m, mid, k);
      }
    }
  }

  // ------------------------------------------------------------------
  // Runs of deletions
  // ------------------------------------------------------------------

  function DeleteOps<Row>(ds: seq<int>): seq<ListOp<Row>> {
    if ds == [] then [] else DeleteOps<Row>(ds[..|ds| - 1]) + [Delete(Some(ds[|ds| - 1]))]
  }

  lemma {:induction false} DeleteOpsLength<Row>(ds: seq<int>)
    ensures |DeleteOps<Row>(ds)| == |ds|
  {
    if ds != [] {
      DeleteOpsLength<Row>(ds[..|ds| - 1]);
    }
  }

  /** How many of the deleted indices are at most `j`. */
  ghost function CountAtMost(ds: seq<int>, j: int): nat {
    if ds == [] then 0
    else CountAtMost(ds[..|ds| - 1], j) + if ds[|ds| - 1] <= j then 1 else 0
  }

  /** The index, before deleting `ds` in arrival order, of the row that ends up at `j`. */
  ghost function Origin(ds: seq<int>, j: int): int
    decreases |ds|
  {
    if ds == [] then j
    else Origin(ds[..|ds| - 1], if j < ds[|ds| - 1] then j else j + 1)
  }

  lemma {:induction false} ReplayDeletes<Row>(ds: seq<int>, m: map<int, Row>, j: int)
    ensures RowAfter(DeleteOps<Row>(ds), m, j) == At(m, Origin(ds, j))
    decreases |ds|
  {
    if ds != [] {
      var d := ds[|ds| - 1];
      ReplayDeletes(ds[..|ds| - 1], m, if j < d then j else j + 1);
      DeleteOpsLength<Row>(ds);
      assert DeleteOps<Row>(ds)[..|ds| - 1] == DeleteOps<Row>(ds[..|ds| - 1]);
    }
  }

  lemma {:induction false} CountMonotone(ds: seq<int>, j: int, k: int)
    requires j <= k
    ensures CountAtMost(ds, j) <= CountAtMost(ds, k) <= |ds|
    ensures (exists i :: 0 <= i < |ds| && j < ds[i] <= k) ==> CountAtMost(ds, j) < CountAtMost(ds, k)
    ensures (forall i :: 0 <= i < |ds| ==> ds[i] <= j) ==> CountAtMost(ds, j) == |ds|
  {
    if ds != [] {
      CountMonotone(ds[..|ds| - 1], j, k);
    }
  }

  /** Arrival order never skips fewer rows than the closed form. */
  lemma {:induction false} OriginAtLeast(ds: seq<int>, j: int)
    ensures Origin(ds, j) >= j + CountAtMost(ds, j)
    decreases |ds|
  {
    if ds != [] {
      var before, d := ds[..|ds| - 1], ds[|ds| - 1];
      var j' := if j < d then j else j + 1;
      OriginAtLeast(before, j');
      CountMonotone(before, j, j');
    }
  }

  /** An ascending run deletes exactly the rows the closed form skips. */
  lemma {:induction false} OriginAscending(ds: seq<int>, j: int)
    requires Ascending(ds)
    ensures Origin(ds, j) == j + CountAtMost(ds, j)
    decreases |ds|
  {
    if ds != [] {
      var before, d := ds[..|ds| - 1], ds[|ds| - 1];
      OriginAscending(before, if j < d then j else j + 1);
      if d <= j {
        CountMonotone(before, j, j + 1);
        CountMonotone(before, j + 1, j + 1);
      }
    }
  }

  /** A run with a descent deletes some other row than the closed form does. */
  lemma {:induction false} OriginDescent(ds: seq<int>) returns (j: int)
    requires !Ascending(ds)
    ensures Origin(ds, j) > j + CountAtMost(ds, j)
    ensures exists i :: 0 <= i < |ds| && j < ds[i]
    decreases |ds|
  {
    var before, d := ds[..|ds| - 1], ds[|ds| - 1];
    if i :| 0 <= i < |before| && d < before[i] {
      j := before[i] - 1;
      OriginAtLeast(before, j + 1);
      CountMonotone(before, j, j + 1);
      assert ds[i] == before[i];
    } else {
      assert !Ascending(before) by {
        if Ascending(before) {
          assert forall i, k :: 0 <= i < k < |ds| ==> ds[i] <= ds[k];
        }
      }
      j := OriginDescent(before);
      assert j < d;
    }
  }

  /** The number of deletions at or below an index depends only on which indices are deleted. */
  lemma {:induction false} CountPermutation(a: seq<int>, b: seq<int>, j: int)
    requires multiset(a) == multiset(b)
    ensures CountAtMost(a, j) == CountAtMost(b, j)
    decreases |a|
  {
    if a == [] {
      assert |multiset(b)| == 0;
    } else {
      var before, x := a[..|a| - 1], a[|a| - 1];
      assert a == before + [x];
      assert x in multiset(a) && x in b;
      var i :| 0 <= i < |b| && b[i] == x;
      var rest := b[..i] + b[i + 1..];
      assert b == b[..i] + [x] + b[i + 1..];
      assert multiset(before) == multiset(a) - multiset{x};
      assert multiset(rest) == multiset(b) - multiset{x};
      CountPermutation(before, rest, j);
      CountConcat(b[..i], b[i + 1..], j);
      CountConcat(b[..i] + [x], b[i + 1..], j);
      assert (b[..i] + [x])[..i] == b[..i];
    }
  }

  lemma {:induction false} CountConcat(a: seq<int>, b: seq<int>, j: int)
    ensures CountAtMost(a + b, j) == CountAtMost(a, j) + CountAtMost(b, j)
    decreases |b|
  {
    if b == [] {
      assert a + b == a;
    } else {
      assert (a + b)[..|a + b| - 1] == a + b[..|b| - 1];
      CountConcat(a, b[..|b| - 1], j);
    }
  }

  // ------------------------------------------------------------------
  // The meaning of a whole batched stream
  // ------------------------------------------------------------------

  /** The ops whose effect is settled, and the DELETE run still being collected after them. */
  datatype Runs<Row> = Runs(settled: seq<ListOp<Row>>, open: seq<int>)

  ghost function SplitRuns<Row>(ops: seq<ListOp<Row>>): Runs<Row>
    decreases |ops|
  {
    if ops == [] then Runs([], [])
    else ExtendRuns(SplitRuns(ops[..|ops| - 1]), ops[|ops| - 1])
  }

  /** A DELETE joins the open run; any other op closes it; a DELETE without index or an unknown op does neither. */
  ghost function ExtendRuns<Row>(p: Runs<Row>, op: ListOp<Row>): Runs<Row> {
    match op
    case Delete(Some(d)) => Runs(p.settled, p.open + [d])
    case Delete(None) => p
    case Other => p
    case _ => Runs(p.settled + DeleteOps(Sorted(p.open)) + [op], [])
  }

  /** A DELETE without index and an unknown op do not even part a run: the stream means the same without them. */
  lemma {:induction false} IgnoredOpsPartNothing<Row>(a: seq<ListOp<Row>>, op: ListOp<Row>, b: seq<ListOp<Row>>)
    requires op == Delete(None) || op == Other
    ensures SplitRuns(a + [op] + b) == SplitRuns(a + b)
    decreases |b|
  {
    var with, without := a + [op] + b, a + b;
    if b == [] {
      assert with[..|with| - 1] == a && without == a;
    } else {
      var before := b[..|b| - 1];
      assert with[..|with| - 1] == a + [op] + before && without[..|without| - 1] == a + before;
      IgnoredOpsPartNothing(a, op, before);
    }
  }

  /** Every op but a DELETE ends a run. */
  lemma OtherOpsEndRuns<Row>(a: seq<ListOp<Row>>, op: ListOp<Row>)
    requires !op.Delete? && !op.Other?
    ensures SplitRuns(a + [op]).open == [] && SortedRuns(a + [op]) == SortedRuns(a) + [op]
  {
    var ops := a + [op];
    assert ops[..|a|] == a;
    assert Sorted([]) == [] by { SortedUnique(Sorted([]), []); }
  }

  /** The stream with every maximal run of DELETEs put in ascending order. */
  ghost function SortedRuns<Row>(ops: seq<ListOp<Row>>): seq<ListOp<Row>> {
    var p := SplitRuns(ops);
    p.settled + DeleteOps(Sorted(p.open))
  }

  /** Every maximal run of DELETEs arrives in ascending order. */
  ghost predicate RunsAscending<Row>(ops: seq<ListOp<Row>>)
    decreases |ops|
  {
    ops != [] ==>
      && RunsAscending(ops[..|ops| - 1])
      && Ascending(SplitRuns(ops).open)
  }

  /** Appending one op to two streams with the same effect keeps their effects the same. */
  lemma ReplayCongruence<Row>(a: seq<ListOp<Row>>, b: seq<ListOp<Row>>, op: ListOp<Row>, m: map<int, Row>)
    requires forall k :: RowAfter(a, m, k) == RowAfter(b, m, k)
    ensures forall k :: RowAfter(a + [op], m, k) == RowAfter(b + [op], m, k)
  {
    assert (a + [op])[..|a|] == a && (b + [op])[..|b|] == b;
  }

  lemma SortedRunsStep<Row>(before: seq<ListOp<Row>>, op: ListOp<Row>)
    requires RunsAscending(before + [op])
    ensures RunsAscending(before)
    ensures SortedRuns(before + [op]) ==
            SortedRuns(before) + if op.Other? || (op.Delete? && op.index.None?) then [] else [op]
  {
    var ops := before + [op];
    assert ops[..|ops| - 1] == before;
    SortedUnique(Sorted(SplitRuns(ops).open), SplitRuns(ops).open);
    if op.Delete? && op.index.Some? {
      var p, q := SplitRuns(before), SplitRuns(ops);
      assert q.open[..|q.open| - 1] == p.open;
      SortedUnique(Sorted(p.open), p.open);
    }
  }

  /** With every DELETE run ascending the batched stream is the arrival-order stream. */
  lemma {:induction false} AscendingRunsReplay<Row>(ops: seq<ListOp<Row>>, m: map<int, Row>)
    requires RunsAscending(ops)
    ensures forall j :: RowAfter(SortedRuns(ops), m, j) == RowAfter(ops, m, j)
    decreases |ops|
  {
    if ops != [] {
      var before, op := ops[..|ops| - 1], ops[|ops| - 1];
      assert ops == before + [op];
      SortedRunsStep(before, op);
      AscendingRunsReplay(before, m);
      if op.Other? || (op.Delete? && op.index.None?) {
        assert SortedRuns(ops) == SortedRuns(before);
      } else {
        ReplayCongruence(SortedRuns(before), before, op, m);
      }
    }
  }

  /** Any ascending arrangement of a run moves a row to where the closed form over the run says. */
  lemma SortedDeleteAt<Row>(ds: seq<int>, order: seq<int>, m: map<int, Row>, j: int)
    requires Ascending(order) && multiset(order) == multiset(ds)
    ensures RowAfter(DeleteOps<Row>(order), m, j) == At(m, j + CountAtMost(ds, j))
  {
    ReplayDeletes(order, m, j);
    OriginAscending(order, j);
    CountPermutation(order, ds, j);
  }

  lemma SortedDeletes<Row>(ds: seq<int>, order: seq<int>, m: map<int, Row>)
    requires Ascending(order) && multiset(order) == multiset(ds)
    ensures forall j {:trigger RowAfter(DeleteOps(order), m, j)} ::
              RowAfter(DeleteOps(order), m, j) == At(m, j + CountAtMost(ds, j))
  {
    forall j ensures RowAfter(DeleteOps(order), m, j) == At(m, j + CountAtMost(ds, j)) {
      SortedDeleteAt(ds, order, m, j);
    }
  }

  lemma DeleteOpsStep<Row>(order: seq<int>, n: nat)
    requires n < |order|
    ensures DeleteOps<Row>(order[..n + 1]) == DeleteOps<Row>(order[..n]) + [Delete(Some(order[n]))]
  {
    assert order[..n + 1][..n] == order[..n];
  }

  lemma {:induction false} DeletesAreOneRun<Row>(ds: seq<int>)
    ensures SplitRuns(DeleteOps<Row>(ds)) == Runs([], ds)
    decreases |ds|
  {
    if ds != [] {
      var ops := DeleteOps<Row>(ds);
      assert ops[..|ops| - 1] == DeleteOps<Row>(ds[..|ds| - 1]);
      DeletesAreOneRun<Row>(ds[..|ds| - 1]);
      assert ds[..|ds| - 1] + [ds[|ds| - 1]] == ds;
    }
  }

  /** Where a row of a batched DELETE run comes from, whatever the order of arrival. */
  lemma BatchedRunClosedForm<Row>(ds: seq<int>, m: map<int, Row>, j: int)
    ensures RowAfter(SortedRuns(DeleteOps<Row>(ds)), m, j) == At(m, j + CountAtMost(ds, j))
  {
    var order := Sorted(ds);
    SortedDeleteAt(ds, order, m, j);
    DeletesAreOneRun<Row>(ds);
    assert SortedRuns(DeleteOps<Row>(ds)) == DeleteOps<Row>(order);
  }

  lemma {:induction false} BatchVersusArrival<Row>(ds: seq<int>, m: map<int, Row>, j: int)
    ensures RowAfter(SortedRuns(DeleteOps<Row>(ds)), m, j) == At(m, j + CountAtMost(ds, j))
    ensures RowAfter(DeleteOps<Row>(ds), m, j) == At(m, Origin(ds, j))
  {
    BatchedRunClosedForm(ds, m, j);
    ReplayDeletes(ds, m, j);
  }

  /** The batched and the arrival-order meaning of a DELETE run agree on every list exactly when the run ascends. */
  lemma BatchMatchesArrivalIffAscending(ds: seq<int>)
    ensures Ascending(ds) <==>
            forall m: map<int, int>, j :: RowAfter(SortedRuns(DeleteOps(ds)), m, j) == RowAfter(DeleteOps(ds), m, j)
  {
    if Ascending(ds) {
      forall m: map<int, int>, j
        ensures RowAfter(SortedRuns(DeleteOps(ds)), m, j) == RowAfter(DeleteOps(ds), m, j)
      {
        BatchVersusArrival(ds, m, j);
        OriginAscending(ds, j);
      }
    } else {
      var j := OriginDescent(ds);
      var m := map[Origin(ds, j) := 0];
      BatchVersusArrival(ds, m, j);
      assert RowAfter(SortedRuns(DeleteOps(ds)), m, j) != RowAfter(DeleteOps(ds), m, j);
    }
  }

  // ------------------------------------------------------------------
  // The code
  // ------------------------------------------------------------------

  /** The rows of one list and the operations that edit them in place. */
  class ListData<Row> {
    var items: map<int, Row>

    constructor ()
      ensures items == map[]
    {
      items := map[];
    }

    /** Writes the rows of a SYNC; one with no rows empties its range instead. */
    method ProcessSync(op: ListOp<Row>)
      requires op.Sync?
      modifies this
      ensures forall j {:trigger At(items, j)} :: At(items, j) == RowAfterOp(op, old(items), j)
    {
      if op.range.None? || op.rows.None? {
        return;
      }
      var r, rows := op.range.value, op.rows.value;
      if rows == [] {
        RemoveRange(r.0, r.1);
        return;
      }
      var idx := r.0;
      while idx < r.0 + |rows|
        invariant r.0 <= idx <= r.0 + |rows|
        invariant forall j {:trigger At(items, j)} ::
                    At(items, j) == if r.0 <= j < idx then Some(rows[j - r.0]) else At(old(items), j)
      {
        ghost var was := items;
        items := items[idx := rows[idx - r.0]];
        assert forall j {:trigger At(items, j)} ::
            At(items, j) == if j == idx then Some(rows[idx - r.0]) else At(was, j);
        idx := idx + 1;
      }
    }

    method ProcessUpdate(op: ListOp<Row>)
      requires op.Update?
      modifies this
      ensures forall j {:trigger At(items, j)} :: At(items, j) == RowAfterOp(op, old(items), j)
    {
      if op.index.None? || op.row.None? {
        return;
      }
      items := items[op.index.value := op.row.value];
    }

    method ProcessInvalidate(op: ListOp<Row>)
      requires op.Invalidate?
      modifies this
      ensures forall j {:trigger At(items, j)} :: At(items, j) == RowAfterOp(op, old(items), j)
    {
      if op.range.None? {
        return;
      }
      RemoveRange(op.range.value.0, op.range.value.1);
    }

    /** Drops the materialised rows `first..last`, both ends included. */
    method RemoveRange(first: int, last: int)
      modifies this
      ensures forall j {:trigger At(items, j)} :: At(items, j) == if first <= j <= last then None else At(old(items), j)
    {
      var i := first;
      while i <= last
        invariant first <= i
        invariant i <= last + 1 || i == first
        invariant forall j {:trigger At(items, j)} :: At(items, j) == if first <= j < i then None else At(old(items), j)
      {
        ghost var was := items;
        items := items - {i};
        assert forall j {:trigger At(items, j)} :: At(items, j) == if j == i then None else At(was, j);
        i := i + 1;
      }
    }

    /** Applies a run of INSERTs, each shifting every row at or after its index up by one. */
    method ProcessBatchInserts(ops: seq<ListOp<Row>>)
      requires forall op :: op in ops ==> op.Insert?
      modifies this
      ensures forall j {:trigger At(items, j)} :: At(items, j) == RowAfter(ops, old(items), j)
    {
      var sorted := items;
      var n := 0;
      while n < |ops|
        invariant 0 <= n <= |ops|
        invariant items == old(items)
        invariant forall j {:trigger At(sorted, j)} :: At(sorted, j) == RowAfter(ops[..n], old(items), j)
      {
        var op := ops[n];
        assert op in ops;
        ghost var was := sorted;
        if op.index.Some? && op.row.Some? {
          sorted := InsertRow(sorted, op.index.value, op.row.value);
        }
        SettleOp(ops[..n], op, old(items), was, sorted);
        n := n + 1;
        assert ops[..n - 1] + [op] == ops[..n];
      }
      assert ops[..n] == ops;
      items := sorted;
    }

    /** Applies a run of DELETEs in ascending order, each shifting every later row down by one. */
    method ProcessBatchDeletes(indices: seq<int>)
      modifies this
      ensures forall j {:trigger At(items, j)} :: At(items, j) == At(old(items), j + CountAtMost(indices, j))
    {
      var order := SortAscending(indices);
      var sorted := items;
      ghost var done: seq<ListOp<Row>> := [];
      var n := 0;
      while n < |order|
        invariant 0 <= n <= |order|
        invariant items == old(items)
        invariant done == DeleteOps(order[..n])
        invariant forall j {:trigger At(sorted, j)} :: At(sorted, j) == RowAfter(done, old(items), j)
      {
        ghost var was := sorted;
        sorted := DeleteRow(sorted, order[n]);
        SettleOp(done, Delete(Some(order[n])), old(items), was, sorted);
        DeleteOpsStep<Row>(order, n);
        done := done + [Delete(Some(order[n]))];
        n := n + 1;
      }
      assert order[..n] == order;
      items := sorted;
      SortedDeletes(indices, order, old(items));
    }

    static method SortAscending(s: seq<int>) returns (r: seq<int>)
      ensures Ascending(r) && multiset(r) == multiset(s)
    {
      r := InsertionSorted(s);
    }

    /** One insertion: the suffix moves up, then the row is put in the hole. */
    static method InsertRow(m: map<int, Row>, insertIdx: int, row: Row) returns (r: map<int, Row>)
      ensures forall j {:trigger At(r, j)} :: At(r, j) == RowAfterOp(Insert(Some(insertIdx), Some(row)), m, j)
    {
      var shifted := ShiftSuffix(m, insertIdx, 1);
      r := shifted[insertIdx := row];
      assert forall j {:trigger At(r, j)} :: At(r, j) == if j == insertIdx then Some(row) else At(shifted, j);
    }

    /** One deletion: the row is dropped, then the suffix moves down. */
    static method DeleteRow(m: map<int, Row>, deleteIdx: int) returns (r: map<int, Row>)
      ensures forall j {:trigger At(r, j)} :: At(r, j) == RowAfterOp(Delete(Some(deleteIdx)), m, j)
    {
      var rest := m - {deleteIdx};
      assert forall j {:trigger At(rest, j)} :: At(rest, j) == if j == deleteIdx then None else At(m, j);
      r := ShiftSuffix(rest, deleteIdx + 1, -1);
    }

    /** Moves every key from `from` on by `delta`; the key a downward move lands on must be free. */
    static method ShiftSuffix(m: map<int, Row>, from: int, delta: int) returns (r: map<int, Row>)
      requires delta == 1 || (delta == -1 && from - 1 !in m)
      ensures forall j {:trigger At(r, j)} :: At(r, j) ==
                if from + delta <= j then At(m, j - delta)
                else if j < from then At(m, j)
                else None
    {
      var suffix := set k | k in m && from <= k;
      r := m - suffix;
      var left := suffix;
      while left != {}
        invariant left <= suffix
        invariant forall j :: j < from + delta ==> At(r, j) == if j < from then At(m, j) else None
        invariant forall j :: from + delta <= j ==> At(r, j) == if j - delta in left then None else At(m, j - delta)
        decreases left
      {
        var k :| k in left;
        ghost var was, wasLeft := r, left;
        r := r[k + delta := m[k]];
        left := left - {k};
        assert forall j {:trigger At(r, j)} :: At(r, j) == if j == k + delta then At(m, k) else At(was, j);
        forall j | from + delta <= j ensures At(r, j) == if j - delta in left then None else At(m, j - delta) {
          assert At(was, j) == if j - delta in wasLeft then None else At(m, j - delta);
        }
      }
      forall j | from + delta <= j ensures At(r, j) == At(m, j - delta) {
        assert j - delta !in left;
      }
    }

    /** Applies and empties the pending INSERT run. */
    method FlushInserts(batch: seq<ListOp<Row>>, ghost settled: seq<ListOp<Row>>, ghost start: map<int, Row>)
      requires forall op :: op in batch ==> op.Insert?
      requires forall j {:trigger At(items, j)} :: At(items, j) == RowAfter(settled, start, j)
      modifies this
      ensures forall j {:trigger At(items, j)} :: At(items, j) == RowAfter(settled + batch, start, j)
    {
      if batch != [] {
        ProcessBatchInserts(batch);
        Settle(settled, batch, start, old(items), items);
      } else {
        assert settled + batch == settled;
      }
    }

    /** Applies and empties the pending DELETE run. */
    method FlushDeletes(batch: seq<int>, ghost settled: seq<ListOp<Row>>, ghost start: map<int, Row>)
      requires forall j {:trigger At(items, j)} :: At(items, j) == RowAfter(settled, start, j)
      modifies this
      ensures forall j {:trigger At(items, j)} :: At(items, j) == RowAfter(settled + DeleteOps(Sorted(batch)), start, j)
    {
      if batch != [] {
        ProcessBatchDeletes(batch);
        SortedDeletes(batch, Sorted(batch), old(items));
        Settle(settled, DeleteOps(Sorted(batch)), start, old(items), items);
      } else {
        assert settled + DeleteOps<Row>(Sorted(batch)) == settled;
      }
    }

    /** Flushes whichever run is pending, then applies an op that is never batched. */
    method FlushAndApply(op: ListOp<Row>, inserts: seq<ListOp<Row>>, deletes: seq<int>,
                         ghost settled: seq<ListOp<Row>>, ghost start: map<int, Row>)
      requires op.Sync? || op.Update? || op.Invalidate?
      requires inserts == [] || deletes == []
      requires forall op :: op in inserts ==> op.Insert?
      requires forall j {:trigger At(items, j)} :: At(items, j) == RowAfter(settled, start, j)
      modifies this
      ensures forall j {:trigger At(items, j)} :: At(items, j) ==
                RowAfter(settled + inserts + DeleteOps(Sorted(deletes)) + [op], start, j)
    {
      FlushInserts(inserts, settled, start);
      FlushDeletes(deletes, settled + inserts, start);
      ghost var mid := items;
      match op {
        case Sync(_, _) => ProcessSync(op);
        case Update(_, _) => ProcessUpdate(op);
        case Invalidate(_) => ProcessInvalidate(op);
      }
      SettleOp(settled + inserts + DeleteOps(Sorted(deletes)), op, start, mid, items);
    }

    /** The op loop of one update: consecutive INSERTs and consecutive DELETEs are applied as batches. */
    method ApplyOps(ops: seq<ListOp<Row>>)
      modifies this
      ensures forall j {:trigger At(items, j)} :: At(items, j) == RowAfter(SortedRuns(ops), old(items), j)
      ensures RunsAscending(ops) ==>
                forall j {:trigger At(items, j)} :: At(items, j) == RowAfter(ops, old(items), j)
    {
      var insertBatch: seq<ListOp<Row>> := [];
      var deleteBatch: seq<int> := [];
      ghost var settled: seq<ListOp<Row>> := [];   // what the current items are the result of
      var n := 0;
      while n < |ops|
        invariant 0 <= n <= |ops|
        invariant insertBatch == [] || deleteBatch == []
        invariant forall op :: op in insertBatch ==> op.Insert?
        invariant SplitRuns(ops[..n]) == Runs(settled + insertBatch, deleteBatch)
        invariant forall j {:trigger At(items, j)} :: At(items, j) == RowAfter(settled, old(items), j)
      {
        var op := ops[n];
        SplitRunsStep(ops, n);
        n := n + 1;
        match op {
          case Insert(_, _) =>
            FlushDeletes(deleteBatch, settled, old(items));
            settled := SettleDeletes(settled, insertBatch, deleteBatch, op);
            insertBatch, deleteBatch := insertBatch + [op], [];
          case Delete(index) =>
            FlushInserts(insertBatch, settled, old(items));
            settled := SettleInserts(settled, insertBatch);
            insertBatch := [];
            if index.Some? {
              deleteBatch := deleteBatch + [index.value];
            }
          case Other =>
          case _ =>
            FlushAndApply(op, insertBatch, deleteBatch, settled, old(items));
            settled := SettleAll(settled, insertBatch, deleteBatch, op);
            insertBatch, deleteBatch := [], [];
        }
      }
      assert ops[..n] == ops;
      FlushInserts(insertBatch, settled, old(items));
      FlushDeletes(deleteBatch, settled + insertBatch, old(items));
      if RunsAscending(ops) {
        AscendingRunsReplay(ops, old(items));
      }
    }
  }

  lemma SettleInserts<Row>(settled: seq<ListOp<Row>>, inserts: seq<ListOp<Row>>) returns (now: seq<ListOp<Row>>)
    ensures now == settled + inserts == now + []
  {
    now := settled + inserts;
  }

  lemma SettleAll<Row>(settled: seq<ListOp<Row>>, inserts: seq<ListOp<Row>>, deletes: seq<int>, op: ListOp<Row>)
      returns (now: seq<ListOp<Row>>)
    requires op.Sync? || op.Update? || op.Invalidate?
    ensures now == settled + inserts + DeleteOps(Sorted(deletes)) + [op]
    ensures ExtendRuns(Runs(settled + inserts, deletes), op) == Runs(now + [], [])
  {
    now := settled + inserts + DeleteOps(Sorted(deletes)) + [op];
  }

  /** What is settled once an INSERT has closed the DELETE run: that run too, if it was not empty. */
  lemma SettleDeletes<Row>(settled: seq<ListOp<Row>>, inserts: seq<ListOp<Row>>, deletes: seq<int>, op: ListOp<Row>)
      returns (now: seq<ListOp<Row>>)
    requires op.Insert?
    requires inserts == [] || deletes == []
    ensures now == settled + DeleteOps(Sorted(deletes))
    ensures ExtendRuns(Runs(settled + inserts, deletes), op) == Runs(now + (inserts + [op]), [])
  {
    now := settled + DeleteOps(Sorted(deletes));
    SortedUnique(Sorted([]), []);
    if deletes == [] {
      assert now == settled;
    } else {
      assert settled + inserts == settled;
    }
    assert now + (inserts + [op]) == settled + inserts + DeleteOps(Sorted(deletes)) + [op];
  }

  lemma SplitRunsStep<Row>(ops: seq<ListOp<Row>>, n: nat)
    requires n < |ops|
    ensures SplitRuns(ops[..n + 1]) == ExtendRuns(SplitRuns(ops[..n]), ops[n])
  {
    assert ops[..n + 1][..n] == ops[..n];
  }

  /** Appends to what has been replayed the ops that led from `mid` to `now`. */
  lemma Settle<Row>(settled: seq<ListOp<Row>>, b: seq<ListOp<Row>>, start: map<int, Row>, mid: map<int, Row>,
                    now: map<int, Row>)
    requires forall j {:trigger At(mid, j)} :: At(mid, j) == RowAfter(settled, start, j)
    requires forall j {:trigger At(now, j)} :: At(now, j) == RowAfter(b, mid, j)
    ensures forall j {:trigger At(now, j)} :: At(now, j) == RowAfter(settled + b, start, j)
  {
    forall j ensures At(now, j) == RowAfter(settled + b, start, j) {
      ReplayConcat(settled, b, start, mid, j);
    }
  }

  lemma SettleOp<Row>(settled: seq<ListOp<Row>>, op: ListOp<Row>, start: map<int, Row>, mid: map<int, Row>,
                      now: map<int, Row>)
    requires forall j {:trigger At(mid, j)} :: At(mid, j) == RowAfter(settled, start, j)
    requires forall j {:trigger At(now, j)} :: At(now, j) == RowAfterOp(op, mid, j)
    ensures forall j {:trigger At(now, j)} :: At(now, j) == RowAfter(settled + [op], start, j)
  {
    assert (settled + [op])[..|settled|] == settled;
  }
}
