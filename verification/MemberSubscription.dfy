/**
  Which rows of the open member list are asked for, and when
  (src/Core/MemberListManager.cpp).

  Scrolling wants a set of 100-row blocks.  At most one request is awaited at a time;
  what the view wants meanwhile is kept in `pendingRanges` and sent when the reply or
  the response timer frees the slot.  Sending new ranges evicts every row outside them.
*/
module MemberSubscription {
  import opened Options
  import opened MemberRows

  type Range = (int, int)

  /** C++ integer division: rounds toward zero. */
  function TruncDiv(a: int, b: int): int
    requires b > 0
  {
    if a >= 0 then a / b else -((-a) / b)
  }

  predicate InRanges(row: int, ranges: seq<Range>) {
    exists i :: 0 <= i < |ranges| && ranges[i].0 <= row <= ranges[i].1
  }

  /** The blocks `block .. lastBlock` that start above row 0, one range each. */
  function BlockRanges(block: int, lastBlock: int): seq<Range>
    decreases lastBlock - block + 1
  {
    if block > lastBlock then []
    else (if block <= 0 then [] else [(block * 100, block * 100 + 99)]) + BlockRanges(block + 1, lastBlock)
  }

  /** What a window showing rows `first..last` wants: the first block, and every block it touches. */
  function WantedRanges(first: int, last: int): seq<Range> {
    [(0, 99)] + BlockRanges(TruncDiv(first, 100), TruncDiv(last, 100))
  }

  lemma {:induction false} BlockRangesCover(block: int, lastBlock: int, row: int)
    ensures InRanges(row, BlockRanges(block, lastBlock)) <==> row >= 100 && block <= row / 100 <= lastBlock
    decreases lastBlock - block + 1
  {
    if block <= lastBlock {
      var head: seq<Range> := if block <= 0 then [] else [(block * 100, block * 100 + 99)];
      var rest := BlockRanges(block + 1, lastBlock);
      BlockRangesCover(block + 1, lastBlock, row);
      InRangesConcat(row, head, rest);
      assert InRanges(row, head) <==> block > 0 && block == row / 100;
    }
  }

  lemma InRangesConcat(row: int, a: seq<Range>, b: seq<Range>)
    ensures InRanges(row, a + b) <==> InRanges(row, a) || InRanges(row, b)
  {
    if i :| 0 <= i < |a| && a[i].0 <= row <= a[i].1 {
      assert (a + b)[i] == a[i];
    }
    if i :| 0 <= i < |b| && b[i].0 <= row <= b[i].1 {
      assert (a + b)[|a| + i] == b[i];
    }
  }

  /** From block 1 on, the blocks between the quotients are those with a row in the window. */
  lemma BlockTouched(first: int, last: int, block: int)
    ensures block >= 1 ==>
              (TruncDiv(first, 100) <= block <= TruncDiv(last, 100)
               <==> block * 100 <= last && first <= block * 100 + 99)
  {
  }

  /** Exactly the rows asked for: the first hundred, and the hundreds the window touches. */
  lemma WantedRangesExact(first: int, last: int, row: int)
    ensures InRanges(row, WantedRanges(first, last)) <==>
            0 <= row <= 99 || (row >= 100 && TruncDiv(first, 100) <= row / 100 <= TruncDiv(last, 100))
    ensures InRanges(row, WantedRanges(first, last)) <==>
            0 <= row <= 99 || (row >= 100 && row / 100 * 100 <= last && first <= row / 100 * 100 + 99)
  {
    BlockTouched(first, last, row / 100);
    var blocks := BlockRanges(TruncDiv(first, 100), TruncDiv(last, 100));
    InRangesConcat(row, [(0, 99)], blocks);
    BlockRangesCover(TruncDiv(first, 100), TruncDiv(last, 100), row);
    var head: seq<Range> := [(0, 99)];
    assert head[0] == (0, 99);
    assert InRanges(row, head) <==> 0 <= row <= 99;
  }

  /** Every row index inside the window is asked for. */
  lemma VisibleRowsWanted(first: int, last: int, row: int)
    requires first <= row <= last && 0 <= row
    ensures InRanges(row, WantedRanges(first, last))
  {
    WantedRangesExact(first, last, row);
  }

  // ------------------------------------------------------------------
  // The request state machine
  // ------------------------------------------------------------------

  /** `channel` is the open guild channel; `requested` the trace of subscriptionRequested signals. */
  datatype Sub = Sub(channel: Option<int>, ranges: seq<Range>, awaiting: bool,
                     hasPending: bool, pending: seq<Range>, requested: seq<seq<Range>>)

  datatype Event =
    | Open(channel: int)                // setActiveChannel
    | Close                             // clear
    | Scroll(first: int, last: int)     // updateSubscriptionRange
    | Answer                            // an update for the open list
    | Timeout                           // the response timer
    | Refresh                           // refreshActiveSubscription

  ghost function Request(s: Sub, ranges: seq<Range>): Sub {
    s.(ranges := ranges, awaiting := true, hasPending := false, requested := s.requested + [ranges])
  }

  ghost function Next(s: Sub, e: Event): Sub {
    match e
    case Open(c) =>
      if s.channel == Some(c) then s
      else Request(s.(channel := Some(c)), [(0, 99)])
    case Close => s.(channel := None, ranges := [], awaiting := false, hasPending := false)
    case Scroll(first, last) =>
      var wanted := WantedRanges(first, last);
      if s.channel.None? || (wanted == s.ranges && !s.hasPending) then s
      else if s.awaiting then s.(pending := wanted, hasPending := true)
      else if wanted == s.ranges then s
      else Request(s, wanted)
    case Answer =>
      if s.hasPending && s.pending != s.ranges then Request(s, s.pending)
      else s.(awaiting := false, hasPending := false)
    case Timeout =>
      if s.hasPending && s.pending != s.ranges then Request(s, s.pending)
      else if s.channel.Some? && s.ranges != [] then Request(s, s.ranges)
      else s.(awaiting := false, hasPending := false)
    case Refresh =>
      if s.channel.Some? && s.ranges != [] then Request(s, s.ranges) else s
  }

  ghost function Run(s: Sub, es: seq<Event>): Sub
    decreases |es|
  {
    if es == [] then s else Next(Run(s, es[..|es| - 1]), es[|es| - 1])
  }

  /** Holds of a manager that has just been built, and is kept by every event. */
  ghost predicate Coherent(s: Sub) {
    && (s.hasPending ==> s.awaiting && s.pending != [])
    && (s.awaiting ==> s.channel.Some?)
    && (s.channel.Some? ==> s.requested != [] && s.ranges == s.requested[|s.requested| - 1] && s.ranges != [])
    && (s.channel.None? ==> s.ranges == [])
  }

  const INITIAL := Sub(None, [], false, false, [], [])

  /** In every run a range waits only while a reply is awaited, and the ranges in force are those last requested. */
  lemma {:induction false} RunsAreCoherent(es: seq<Event>)
    ensures Coherent(Run(INITIAL, es))
    decreases |es|
  {
    if es != [] {
      RunsAreCoherent(es[..|es| - 1]);
    }
  }

  /** The range the view will end up with: the one waiting, or the one in force. */
  ghost function Effective(s: Sub): seq<Range> {
    if s.hasPending then s.pending else s.ranges
  }

  /** The range last wanted by a run of scrolls, replies and timeouts; `otherwise` if it has no scroll. */
  ghost function LastWanted(es: seq<Event>, otherwise: seq<Range>): seq<Range>
    decreases |es|
  {
    if es == [] then otherwise
    else match es[|es| - 1]
      case Scroll(first, last) => WantedRanges(first, last)
      case _ => LastWanted(es[..|es| - 1], otherwise)
  }

  ghost predicate ScrollAnswerTimeout(es: seq<Event>) {
    forall e :: e in es ==> e.Scroll? || e.Answer? || e.Timeout?
  }

  lemma StepKeepsWanted(s: Sub, e: Event)
    requires Coherent(s) && s.channel.Some? && (e.Scroll? || e.Answer? || e.Timeout?)
    ensures Coherent(Next(s, e)) && Next(s, e).channel == s.channel
    ensures Effective(Next(s, e)) == if e.Scroll? then WantedRanges(e.first, e.last) else Effective(s)
  {
  }

  /** However scrolls, replies and timeouts interleave, the last wanted range is never lost. */
  lemma {:induction false} LastScrollWins(s: Sub, es: seq<Event>)
    requires Coherent(s) && s.channel.Some? && ScrollAnswerTimeout(es)
    ensures Coherent(Run(s, es)) && Run(s, es).channel == s.channel
    ensures Effective(Run(s, es)) == LastWanted(es, Effective(s))
    decreases |es|
  {
    if es != [] {
      var before, e := es[..|es| - 1], es[|es| - 1];
      assert e in es;
      LastScrollWins(s, before);
      StepKeepsWanted(Run(s, before), e);
    }
  }

  /** Once the reply or the timer frees the slot, the range last sent is the range last wanted. */
  lemma SentOnceAnswered(s: Sub, es: seq<Event>, last: Event)
    requires Coherent(s) && s.channel.Some? && ScrollAnswerTimeout(es)
    requires last.Answer? || last.Timeout?
    ensures var sent := Run(s, es + [last]).requested;
            sent != [] && sent[|sent| - 1] == LastWanted(es, Effective(s))
  {
    var all := es + [last];
    assert all[..|all| - 1] == es;
    LastScrollWins(s, all);
    LastScrollWins(s, es);
  }

  /** A refresh keeps the wanted range exactly when no different range is waiting. */
  lemma RefreshKeepsWantedIff(s: Sub)
    requires Coherent(s)
    ensures Effective(Next(s, Refresh)) == Effective(s) <==> !(s.hasPending && s.pending != s.ranges)
  {
  }

  /** A range dropped by a refresh: scroll while the first request is still awaited, then reconnect. */
  lemma RefreshDropsPending()
    ensures var s := Run(INITIAL, [Open(1), Scroll(250, 260)]);
            Effective(s) == [(0, 99), (200, 299)] && Effective(Next(s, Refresh)) == [(0, 99)]
  {
    var es := [Open(1), Scroll(250, 260)];
    assert es[..1] == [Open(1)] && [Open(1)][..0] == [];
    var s := Run(INITIAL, [Open(1)]);
    assert s.ranges == [(0, 99)];
    assert BlockRanges(3, 2) == [];
    assert BlockRanges(2, 2) == [(200, 299)];
    assert WantedRanges(250, 260) == [(0, 99), (200, 299)];
    assert WantedRanges(250, 260)[1] == (200, 299);
    assert WantedRanges(250, 260) != s.ranges;
    assert Run(INITIAL, es) == Next(s, Scroll(250, 260));
  }

  /** What each way of asking again sends: a refresh the ranges in force, the timer the range wanted. */
  lemma WhatIsSent(s: Sub)
    requires Coherent(s)
    ensures s.channel.Some? ==>
              && Next(s, Refresh).requested == s.requested + [s.ranges] && Next(s, Refresh).awaiting
              && Next(s, Timeout).requested == s.requested + [Effective(s)] && Next(s, Timeout).awaiting
              && Next(s, Answer).requested == s.requested + (if Effective(s) != s.ranges then [Effective(s)] else [])
              && (Next(s, Answer).awaiting <==> Effective(s) != s.ranges)
    ensures s.channel.None? ==>
              && Next(s, Refresh).requested == s.requested && Next(s, Timeout).requested == s.requested
              && Next(s, Answer).requested == s.requested
  {
  }

  /** Opening another channel asks for its first hundred rows, and waits. */
  lemma OpeningAsksForTheTop(s: Sub, c: int)
    requires Coherent(s) && s.channel != Some(c)
    ensures var t := Next(s, Open(c));
            && t.channel == Some(c) && t.requested == s.requested + [[(0, 99)]]
            && t.awaiting && Effective(t) == [(0, 99)]
  {
  }

  /** Closing forgets channel and ranges: nothing is wanted, and opening the same channel asks again. */
  lemma ClosingForgets(s: Sub, c: int)
    requires Coherent(s)
    ensures var t := Next(s, Close);
            && t.channel == None && Effective(t) == [] && !t.awaiting && t.requested == s.requested
            && Next(t, Open(c)).requested == s.requested + [[(0, 99)]]
    ensures s.channel == Some(c) ==> Next(s, Open(c)) == s
  {
  }

  /** A scroll asks at once while nothing is awaited, and only for a range not in force. */
  lemma ScrollAsksIffFree(s: Sub, first: int, last: int)
    requires Coherent(s) && s.channel.Some?
    ensures var wanted := WantedRanges(first, last);
            Next(s, Scroll(first, last)).requested ==
            s.requested + (if !s.awaiting && wanted != s.ranges then [wanted] else [])
  {
  }

  ghost function NonScrolls(es: seq<Event>): nat {
    if es == [] then 0 else NonScrolls(es[..|es| - 1]) + if es[|es| - 1].Scroll? then 0 else 1
  }

  /** Scrolling is coalesced: no run sends more than one request per reply, timeout, refresh or switch, plus one. */
  lemma {:induction false} RequestsBounded(s: Sub, es: seq<Event>)
    ensures var t := Run(s, es);
            |t.requested| + (if t.awaiting then 0 else 1)
            <= |s.requested| + (if s.awaiting then 0 else 1) + NonScrolls(es)
    decreases |es|
  {
    if es != [] {
      RequestsBounded(s, es[..|es| - 1]);
    }
  }

  // ------------------------------------------------------------------
  // The code
  // ------------------------------------------------------------------

  class MemberListManager<Row> {
    var channel: Option<int>
    var list: ListData?<Row>      // the rows of the open list
    var ranges: seq<Range>
    var awaitingResponse: bool
    var hasPendingRanges: bool
    var pendingRanges: seq<Range>
    var requested: seq<seq<Range>>

    ghost function View(): Sub
      reads this
    {
      Sub(channel, ranges, awaitingResponse, hasPendingRanges, pendingRanges, requested)
    }

    constructor ()
      ensures View() == INITIAL && list == null
    {
      channel, list := None, null;
      ranges, pendingRanges, requested := [], [], [];
      awaitingResponse, hasPendingRanges := false, false;
    }

    /** Opens `c`, whose rows are kept in `ld`; reopening the open channel changes nothing. */
    method SetActiveChannel(c: int, ld: ListData<Row>)
      modifies this
      ensures View() == Next(old(View()), Open(c))
      ensures list == if old(channel) == Some(c) then old(list) else ld
    {
      if channel == Some(c) {
        return;
      }
      awaitingResponse := false;
      hasPendingRanges := false;
      channel := Some(c);
      list := ld;
      ranges := [(0, 99)];
      awaitingResponse := true;
      requested := requested + [ranges];
    }

    method Clear()
      modifies this
      ensures View() == Next(old(View()), Close) && list == null
    {
      awaitingResponse := false;
      hasPendingRanges := false;
      channel, list := None, null;
      ranges := [];
    }

    method UpdateSubscriptionRange(firstVisible: int, lastVisible: int)
      modifies this, list
      ensures View() == Next(old(View()), Scroll(firstVisible, lastVisible)) && list == old(list)
      ensures list != null ==> forall j {:trigger At(list.items, j)} ::
                At(list.items, j) ==
                if |requested| > |old(requested)| && !InRanges(j, ranges) then None else old(At(list.items, j))
    {
      if channel.None? {
        return;
      }
      var newRanges: seq<Range> := [(0, 99)];
      var firstBlock, lastBlock := TruncDiv(firstVisible, 100), TruncDiv(lastVisible, 100);
      var block := firstBlock;
      while block <= lastBlock
        invariant firstBlock <= block
        invariant newRanges + BlockRanges(block, lastBlock) == WantedRanges(firstVisible, lastVisible)
      {
        var start := block * 100;
        if start > 0 {
          newRanges := newRanges + [(start, start + 99)];
        }
        block := block + 1;
      }
      assert newRanges == WantedRanges(firstVisible, lastVisible);

      if newRanges == ranges && !hasPendingRanges {
        return;
      }
      if awaitingResponse {
        pendingRanges := newRanges;
        hasPendingRanges := true;
        return;
      }
      if newRanges == ranges {
        return;
      }
      ApplyAndSendRanges(newRanges);
    }

    method ApplyAndSendRanges(newRanges: seq<Range>)
      modifies this, list
      ensures View() == Request(old(View()), newRanges) && list == old(list)
      ensures list != null ==> forall j {:trigger At(list.items, j)} ::
                At(list.items, j) == if InRanges(j, newRanges) then old(At(list.items, j)) else None
    {
      ranges := newRanges;
      hasPendingRanges := false;
      EvictUnsubscribedItems(newRanges);
      awaitingResponse := true;
      requested := requested + [ranges];
    }

    /** Drops exactly the loaded rows outside the ranges. */
    method EvictUnsubscribedItems(newRanges: seq<Range>)
      modifies list
      ensures list != null ==> forall j {:trigger At(list.items, j)} ::
                At(list.items, j) == if InRanges(j, newRanges) then old(At(list.items, j)) else None
    {
      if list == null {
        return;
      }
      var toRemove := set k | k in list.items && !InRanges(k, newRanges);
      list.items := list.items - toRemove;
      forall j ensures At(list.items, j) == if InRanges(j, newRanges) then old(At(list.items, j)) else None {
        assert j in old(list.items) && !InRanges(j, newRanges) <==> j in toRemove;
      }
    }

    /** The response timer fired. */
    method FlushPendingRanges()
      modifies this, list
      ensures View() == Next(old(View()), Timeout) && list == old(list)
      ensures list != null ==> forall j {:trigger At(list.items, j)} ::
                At(list.items, j) ==
                if old(hasPendingRanges && pendingRanges != ranges) && !InRanges(j, ranges) then None
                else old(At(list.items, j))
    {
      awaitingResponse := false;
      if hasPendingRanges && pendingRanges != ranges {
        ApplyAndSendRanges(pendingRanges);
        return;
      }
      hasPendingRanges := false;
      if channel.Some? && ranges != [] {
        awaitingResponse := true;
        requested := requested + [ranges];
      }
    }

    /** A fresh IDENTIFY dropped every subscription: ask again for the ranges in force. */
    method RefreshActiveSubscription()
      modifies this
      ensures View() == Next(old(View()), Refresh) && list == old(list)
    {
      if channel.None? || ranges == [] {
        return;
      }
      awaitingResponse := true;
      hasPendingRanges := false;
      requested := requested + [ranges];
    }

    /** An update for the list held in `ld`: its ops first, then the range that was waiting for the reply. */
    method HandleMemberListUpdate(ld: ListData<Row>, ops: seq<ListOp<Row>>)
      modifies this, ld
      ensures list == old(list)
      ensures View() == if ld == list then Next(old(View()), Answer) else old(View())
      ensures forall j {:trigger At(ld.items, j)} ::
                At(ld.items, j) ==
                if ld == list && old(hasPendingRanges && pendingRanges != ranges) && !InRanges(j, ranges) then None
                else RowAfter(SortedRuns(ops), old(ld.items), j)
    {
      var isActiveList := ld == list;
      if isActiveList {
        awaitingResponse := false;
      }
      ld.ApplyOps(ops);
      if isActiveList && hasPendingRanges && pendingRanges != ranges {
        ApplyAndSendRanges(pendingRanges);
      } else if isActiveList {
        hasPendingRanges := false;
      }
    }
  }
}
