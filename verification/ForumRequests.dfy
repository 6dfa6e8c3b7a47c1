/**
  Batching of per-thread requests by forum (src/Core/ForumManager.hpp and .cpp).

  A batch collects thread ids for one forum; ids for other forums are parked and queued
  again by `take`.  `Batch` and the functions on it are the specification, `RequestBatch`
  and `ForumManager` the code.
*/
module ForumRequests {
  import opened Sequences

  type Snowflake = nat

  const INVALID: Snowflake := 0xFFFF_FFFF_FFFF_FFFF
  const POST_DATA_BATCH := 10
  const MAX_UNREAD_REQUEST := 180
  const UNREAD_REPLY_TIMEOUT_MS := 30000

  datatype Parked = Parked(forum: Snowflake, thread: Snowflake)

  datatype Batch = Batch(
    requested: set<Snowflake>, pending: seq<Snowflake>, lastTaken: seq<Snowflake>, outstandingSince: int,
    overflow: seq<Parked>, forum: Snowflake, flushScheduled: bool)

  const EMPTY := Batch({}, [], [], 0, [], INVALID, false)

  predicate HasPending(b: Batch) {
    b.pending != [] || b.overflow != []
  }

  function Added(b: Batch, p: Parked): Batch {
    if p.thread in b.requested then b
    else if b.pending != [] && b.forum != p.forum then b.(overflow := b.overflow + [p])
    else b.(requested := b.requested + {p.thread}, pending := b.pending + [p.thread], forum := p.forum,
            flushScheduled := true)
  }

  /** `add` asks its caller to schedule a flush exactly when it queued an id and none was scheduled. */
  function AddSchedules(b: Batch, p: Parked): bool {
    p.thread !in b.requested && !(b.pending != [] && b.forum != p.forum) && !b.flushScheduled
  }

  function Requeued(b: Batch, parked: seq<Parked>): Batch
    decreases |parked|
  {
    if parked == [] then b else Requeued(Added(b, parked[0]), parked[1..])
  }

  function Taken(b: Batch, now: int): Batch {
    var emptied := b.(flushScheduled := false, pending := [], overflow := []);
    Requeued(emptied, b.overflow).(lastTaken := b.pending,
                                   outstandingSince := if b.pending != [] then now else b.outstandingSince)
  }

  function RemoveFirst(s: seq<Snowflake>, x: Snowflake): seq<Snowflake> {
    if s == [] then [] else if s[0] == x then s[1..] else [s[0]] + RemoveFirst(s[1..], x)
  }

  function WithoutThread(s: seq<Parked>, thread: Snowflake): seq<Parked> {
    if s == [] then []
    else if s[0].thread == thread then WithoutThread(s[1..], thread)
    else [s[0]] + WithoutThread(s[1..], thread)
  }

  function Forgotten(b: Batch, thread: Snowflake): Batch {
    b.(requested := b.requested - {thread}, pending := RemoveFirst(b.pending, thread),
       overflow := WithoutThread(b.overflow, thread))
  }

  function Answered(b: Batch, ids: seq<Snowflake>): Batch {
    b.(requested := b.requested - set id | id in ids)
  }

  function AnsweredLast(b: Batch): Batch {
    Answered(b, b.lastTaken).(lastTaken := [], outstandingSince := 0)
  }

  // ------------------------------------------------------------------
  // Requeuing
  // ------------------------------------------------------------------

  /** The threads of a list of parked requests. */
  ghost function Threads(parked: seq<Parked>): (r: set<Snowflake>)
    ensures forall t :: t in r <==> exists p :: p in parked && p.thread == t
  {
    if parked == [] then {}
    else
      assert forall p :: p in parked <==> p == parked[0] || p in parked[1..];
      {parked[0].thread} + Threads(parked[1..])
  }

  /** A queued id is marked as requested. */
  ghost predicate Marked(b: Batch) {
    NoDup(b.pending) && forall t :: t in b.pending ==> t in b.requested
  }

  /** Requeuing loses only what is already requested, and every step shrinks the queue or fills the batch. */
  lemma {:induction false} RequeuedShape(b: Batch, parked: seq<Parked>)
    requires b.pending == [] ==> b.overflow == [] && !b.flushScheduled
    ensures var c := Requeued(b, parked);
            && |c.pending| + |c.overflow| <= |b.pending| + |b.overflow| + |parked|
            && (parked != [] && c.pending == [] ==> |c.pending| + |c.overflow| < |b.pending| + |b.overflow| + |parked|)
            && (c.pending == [] ==> c == b)
            && c.lastTaken == b.lastTaken && c.outstandingSince == b.outstandingSince
    decreases |parked|
  {
    if parked != [] {
      RequeuedShape(Added(b, parked[0]), parked[1..]);
    }
  }

  /** The measure under which a drain loop terminates. */
  ghost function Load(b: Batch): nat {
    |b.pending| + |b.overflow|
  }

  /** Taking from a batch lightens it, or fills its pending list. */
  lemma TakeShrinks(b: Batch, now: int)
    requires HasPending(b)
    ensures var c := Taken(b, now);
            && Load(c) <= Load(b) - |b.pending|
            && (b.pending == [] && c.pending == [] ==> Load(c) < Load(b))
            && (c.pending == [] ==> c.overflow == [] && !c.flushScheduled)
  {
    RequeuedShape(b.(flushScheduled := false, pending := [], overflow := []), b.overflow);
  }

  /** What requeuing does with each parked request: queue it, keep it parked, or drop it as already requested. */
  lemma {:induction false} RequeuedContents(b: Batch, parked: seq<Parked>) returns (queued: seq<Snowflake>)
    ensures var c := Requeued(b, parked);
            && c.pending == b.pending + queued && NoDup(queued)
            && (forall t :: t in queued ==> t !in b.requested && Parked(c.forum, t) in parked)
            && (forall t :: t in c.requested <==> t in b.requested || t in queued)
            && (forall p :: p in c.overflow ==> p in b.overflow || p in parked)
            && (forall p :: p in b.overflow ==> p in c.overflow)
            && (forall p :: p in parked ==> p.thread in c.requested || p in c.overflow)
            && (b.pending != [] ==> c.forum == b.forum)
    decreases |parked|
  {
    if parked == [] {
      queued := [];
    } else {
      var p, b' := parked[0], Added(b, parked[0]);
      assert forall q :: q in parked <==> q == p || q in parked[1..];
      var later := RequeuedContents(b', parked[1..]);
      if p.thread in b.requested || (b.pending != [] && b.forum != p.forum) {
        queued := later;
      } else {
        queued := [p.thread] + later;
        NoDupPrepend(p.thread, later);
        assert b.pending + [p.thread] + later == b.pending + queued;
      }
    }
  }

  /**
    `take` hands out the pending ids, and of the parked requests drops only those whose thread is
    already requested; the others are queued for their own forum or stay parked.
  */
  lemma TakeKeepsParked(b: Batch, now: int)
    ensures var c := Taken(b, now);
            && c.lastTaken == b.pending
            && (forall p :: p in b.overflow && p.thread !in b.requested ==>
                  p in c.overflow || p.thread in c.pending)
            && (forall t :: t in c.pending ==> t !in b.requested && Parked(c.forum, t) in b.overflow)
            && (forall p :: p in c.overflow ==> p in b.overflow)
            && Marked(c)
            && (forall t :: t in c.requested <==> t in b.requested || t in c.pending)
  {
    var emptied := b.(flushScheduled := false, pending := [], overflow := []);
    var queued := RequeuedContents(emptied, b.overflow);
    assert [] + queued == queued;
  }

  // ------------------------------------------------------------------
  // Draining
  // ------------------------------------------------------------------

  /** Ids handed out together by one `take`. */
  datatype Handout = Handout(forum: Snowflake, ids: seq<Snowflake>)

  const NOTHING := Handout(INVALID, [])

  datatype Drained = Drained(batch: Batch, handouts: seq<Handout>)

  /** Taking until nothing is left. */
  ghost function Drain(b: Batch, now: int): Drained
    decreases Load(b), if b.pending == [] then 1 else 0
  {
    if !HasPending(b) then Drained(b, [])
    else
      TakeShrinks(b, now);
      var rest := Drain(Taken(b, now), now);
      Drained(rest.batch, [Handout(b.forum, b.pending)] + rest.handouts)
  }

  ghost function AllIds(hs: seq<Handout>): seq<Snowflake> {
    if hs == [] then [] else hs[0].ids + AllIds(hs[1..])
  }

  /** Everything a batch still owes an answer for. */
  ghost predicate Owed(b: Batch, t: Snowflake) {
    t in b.pending || (t in Threads(b.overflow) && t !in b.requested)
  }

  lemma DrainUnfold(b: Batch, now: int) returns (c: Batch, rest: Drained)
    requires HasPending(b)
    ensures c == Taken(b, now) && rest == Drain(c, now) && Drain(b, now).batch == rest.batch
    ensures Drain(b, now).handouts == [Handout(b.forum, b.pending)] + rest.handouts
    ensures Drain(b, now).handouts[1..] == rest.handouts
    ensures AllIds(Drain(b, now).handouts) == b.pending + AllIds(rest.handouts)
    ensures Load(c) < Load(b) || (Load(c) == Load(b) && b.pending == [] && c.pending != [])
    ensures !HasPending(c) ==> !c.flushScheduled
  {
    TakeShrinks(b, now);
    c := Taken(b, now);
    rest := Drain(c, now);
    var first := [Handout(b.forum, b.pending)];
    assert (first + rest.handouts)[1..] == rest.handouts;
  }

  /** Draining leaves nothing queued and no flush scheduled. */
  lemma {:induction false} DrainEmpties(b: Batch, now: int)
    ensures !HasPending(Drain(b, now).batch)
    ensures HasPending(b) ==> !Drain(b, now).batch.flushScheduled
    ensures !HasPending(b) ==> Drain(b, now).batch == b
    decreases Load(b), if b.pending == [] then 1 else 0
  {
    if HasPending(b) {
      var c, rest := DrainUnfold(b, now);
      DrainEmpties(c, now);
    }
  }

  /** Every id of a handout was queued or parked for its forum. */
  ghost predicate Attributed(h: Handout, b: Batch) {
    forall t :: t in h.ids ==> (h.forum == b.forum && t in b.pending) || Parked(h.forum, t) in b.overflow
  }

  /** Every id is handed out for a forum that asked for it. */
  lemma {:induction false} DrainAttributes(b: Batch, now: int)
    ensures forall h :: h in Drain(b, now).handouts ==> Attributed(h, b)
    decreases Load(b), if b.pending == [] then 1 else 0
  {
    if HasPending(b) {
      var c, rest := DrainUnfold(b, now);
      TakeKeepsParked(b, now);
      DrainAttributes(c, now);
      forall h | h in Drain(b, now).handouts ensures Attributed(h, b) {
        if h in rest.handouts {
          assert Attributed(h, c);
        } else {
          assert h == Drain(b, now).handouts[0];
        }
      }
    } else {
      assert Drain(b, now).handouts == [];
    }
  }

  /** With its queued ids marked, a batch hands out each owed id once and only once. */
  lemma {:induction false} MarkedDrain(b: Batch, now: int)
    requires Marked(b)
    ensures NoDup(AllIds(Drain(b, now).handouts))
    ensures forall t :: t in AllIds(Drain(b, now).handouts) <==> Owed(b, t)
    decreases Load(b), if b.pending == [] then 1 else 0
  {
    if HasPending(b) {
      var c, rest := DrainUnfold(b, now);
      TakeKeepsParked(b, now);
      MarkedDrain(c, now);
      OwedAfterTake(b, c);
      NoDupConcat(b.pending, AllIds(rest.handouts));
    }
  }

  /** What a take leaves owed is what was parked and not yet requested. */
  lemma OwedAfterTake(b: Batch, c: Batch)
    requires forall p :: p in b.overflow && p.thread !in b.requested ==> p in c.overflow || p.thread in c.pending
    requires forall t :: t in c.pending ==> t !in b.requested && Parked(c.forum, t) in b.overflow
    requires forall p :: p in c.overflow ==> p in b.overflow
    requires forall t :: t in c.requested <==> t in b.requested || t in c.pending
    ensures forall t :: Owed(c, t) <==> t in Threads(b.overflow) && t !in b.requested
  {
    forall t ensures Owed(c, t) <==> t in Threads(b.overflow) && t !in b.requested {
      if t in Threads(b.overflow) && t !in b.requested {
        var p :| p in b.overflow && p.thread == t;
        assert p in c.overflow ==> t in Threads(c.overflow);
      }
    }
  }

  lemma {:induction false} NoDupConcat(a: seq<Snowflake>, b: seq<Snowflake>)
    ensures NoDup(a + b) <==> NoDup(a) && NoDup(b) && forall x :: x in a ==> x !in b
  {
    if a == [] {
      assert a + b == b;
    } else {
      assert (a + b)[1..] == a[1..] + b;
      NoDupConcat(a[1..], b);
      HeadTail(a);
    }
  }

  /**
    From any batch: the first handout is the pending list as it stands, and after it every thread that
    was parked and not yet requested is handed out exactly once.
  */
  lemma DrainHandsOutEverything(b: Batch, now: int)
    requires HasPending(b)
    ensures var hs := Drain(b, now).handouts;
            && hs != [] && hs[0] == Handout(b.forum, b.pending)
            && NoDup(AllIds(hs[1..]))
            && forall t :: t in AllIds(hs[1..]) <==> t in Threads(b.overflow) && t !in b.requested
  {
    var c, rest := DrainUnfold(b, now);
    TakeKeepsParked(b, now);
    MarkedDrain(c, now);
    OwedAfterTake(b, c);
  }

  /** No id is queued twice, and a queued id that is also parked is marked. */
  ghost predicate Unrepeated(b: Batch) {
    NoDup(b.pending) && forall t :: t in b.pending && t in Threads(b.overflow) ==> t in b.requested
  }

  /** From any batch a drain hands out exactly the owed ids, and each only once exactly if none is queued repeatedly. */
  lemma DrainExactlyOnce(b: Batch, now: int)
    ensures forall t :: t in AllIds(Drain(b, now).handouts) <==> Owed(b, t)
    ensures NoDup(AllIds(Drain(b, now).handouts)) <==> Unrepeated(b)
  {
    if HasPending(b) {
      var c, rest := DrainUnfold(b, now);
      DrainHandsOutEverything(b, now);
      NoDupConcat(b.pending, AllIds(rest.handouts));
    } else {
      assert Drain(b, now).handouts == [];
    }
  }

  /** The forum and thread stand for a request still to be made. */
  ghost predicate Waits(b: Batch, p: Parked) {
    (p.thread in b.pending && b.forum == p.forum) || p in b.overflow
  }

  /** Adding: what was already requested changes nothing; anything else waits for its forum, and is all that is new. */
  lemma AddOutcome(b: Batch, p: Parked, q: Parked)
    ensures p.thread in b.requested ==> Added(b, p) == b
    ensures p.thread !in b.requested ==> Waits(Added(b, p), p)
    ensures b.pending != [] && q != p ==> (Waits(Added(b, p), q) <==> Waits(b, q))
    ensures Added(b, p).requested == b.requested + if |Added(b, p).pending| > |b.pending| then {p.thread} else {}
    ensures p.thread !in b.requested && (b.pending == [] || b.forum == p.forum) ==> |Added(b, p).pending| > |b.pending|
    ensures AddSchedules(b, p) <==> Added(b, p).flushScheduled && !b.flushScheduled
    ensures Added(b, p).lastTaken == b.lastTaken && Added(b, p).outstandingSince == b.outstandingSince
    ensures b.pending <= Added(b, p).pending && b.overflow <= Added(b, p).overflow   // earlier ones keep their place
  {
    if p.thread !in b.requested && b.pending != [] && b.forum == p.forum {
      var more := b.pending + [p.thread];
      assert forall t :: t in more <==> t in b.pending || t == p.thread;
    }
  }

  /** Forgetting one thread of a batch with distinct queued ids: it is not waited for, and all others are as before. */
  lemma ForgetOutcome(b: Batch, t: Snowflake, q: Parked)
    requires NoDup(b.pending)
    ensures var c := Forgotten(b, t);
            && t !in c.requested && t !in c.pending && t !in Threads(c.overflow)
            && (q.thread != t ==>
                  (Waits(c, q) <==> Waits(b, q)) && (q.thread in c.requested <==> q.thread in b.requested))
            && c.flushScheduled == b.flushScheduled && c.lastTaken == b.lastTaken && c.forum == b.forum
  {
    RemoveFirstShape(b.pending, t);
    WithoutThreadShape(b.overflow, t, q);
    assert t !in Threads(WithoutThread(b.overflow, t));
  }

  lemma {:induction false} WithoutThreadShape(s: seq<Parked>, t: Snowflake, q: Parked)
    ensures forall p :: p in WithoutThread(s, t) ==> p.thread != t
    ensures q.thread != t ==> (q in WithoutThread(s, t) <==> q in s)
  {
    if s != [] {
      HeadTail(s);
      WithoutThreadShape(s[1..], t, q);
    }
  }

  // ------------------------------------------------------------------
  // Requests sent
  // ------------------------------------------------------------------

  datatype Request = Request(forum: Snowflake, ids: seq<Snowflake>)

  function Min(a: nat, b: nat): nat {
    if a < b then a else b
  }

  /** The ids in pieces of `n`, the last one possibly shorter. */
  function Chunks(ids: seq<Snowflake>, n: nat): seq<seq<Snowflake>>
    requires n > 0
    decreases |ids|
  {
    if ids == [] then []
    else [ids[..Min(n, |ids|)]] + Chunks(ids[Min(n, |ids|)..], n)
  }

  /** Every piece holds between one and `n` ids, and one piece is enough exactly up to `n` ids. */
  lemma {:induction false} ChunkSizes(ids: seq<Snowflake>, n: nat)
    requires n > 0
    ensures forall c :: c in Chunks(ids, n) ==> 1 <= |c| <= n
    ensures |Chunks(ids, n)| == 1 <==> 1 <= |ids| <= n
    decreases |ids|
  {
    if ids != [] {
      ChunkSizes(ids[Min(n, |ids|)..], n);
    }
  }

  ghost function Flatten(cs: seq<seq<Snowflake>>): seq<Snowflake> {
    if cs == [] then [] else cs[0] + Flatten(cs[1..])
  }

  lemma {:induction false} ChunksFlatten(ids: seq<Snowflake>, n: nat)
    requires n > 0
    ensures Flatten(Chunks(ids, n)) == ids
    decreases |ids|
  {
    if ids != [] {
      var k := Min(n, |ids|);
      ChunksFlatten(ids[k..], n);
      assert Chunks(ids, n)[1..] == Chunks(ids[k..], n);
      assert ids == ids[..k] + ids[k..];
    }
  }

  function RequestsFor(forum: Snowflake, chunks: seq<seq<Snowflake>>): seq<Request> {
    if chunks == [] then [] else [Request(forum, chunks[0])] + RequestsFor(forum, chunks[1..])
  }

  /** The requests of one handout: none for an invalid forum. */
  function SentFor(h: Handout, n: nat): seq<Request>
    requires n > 0
  {
    if h.ids == [] || h.forum == INVALID then [] else RequestsFor(h.forum, Chunks(h.ids, n))
  }

  ghost function AllSent(hs: seq<Handout>, n: nat): seq<Request>
    requires n > 0
  {
    if hs == [] then [] else SentFor(hs[0], n) + AllSent(hs[1..], n)
  }

  ghost function SentIds(rs: seq<Request>): seq<Snowflake> {
    if rs == [] then [] else rs[0].ids + SentIds(rs[1..])
  }

  lemma {:induction false} SentIdsConcat(a: seq<Request>, b: seq<Request>)
    ensures SentIds(a + b) == SentIds(a) + SentIds(b)
  {
    if a == [] {
      assert a + b == b;
    } else {
      assert (a + b)[1..] == a[1..] + b;
      SentIdsConcat(a[1..], b);
      assert a[0].ids + (SentIds(a[1..]) + SentIds(b)) == a[0].ids + SentIds(a[1..]) + SentIds(b);
    }
  }

  lemma {:induction false} RequestsFlatten(forum: Snowflake, chunks: seq<seq<Snowflake>>)
    ensures SentIds(RequestsFor(forum, chunks)) == Flatten(chunks)
  {
    if chunks != [] {
      RequestsFlatten(forum, chunks[1..]);
      assert ([Request(forum, chunks[0])] + RequestsFor(forum, chunks[1..]))[1..] == RequestsFor(forum, chunks[1..]);
    }
  }

  ghost predicate ValidForums(hs: seq<Handout>) {
    forall h :: h in hs && h.ids != [] ==> h.forum != INVALID
  }

  /** Sending in pieces neither loses nor repeats an id of a valid forum. */
  lemma {:induction false} SentIsHandedOut(hs: seq<Handout>, n: nat)
    requires n > 0 && ValidForums(hs)
    ensures SentIds(AllSent(hs, n)) == AllIds(hs)
  {
    if hs != [] {
      assert hs[0] in hs;
      assert ValidForums(hs[1..]);
      SentIsHandedOut(hs[1..], n);
      SentIdsConcat(SentFor(hs[0], n), AllSent(hs[1..], n));
      if hs[0].ids != [] {
        ChunksFlatten(hs[0].ids, n);
        RequestsFlatten(hs[0].forum, Chunks(hs[0].ids, n));
      }
    }
  }

  /** No request is empty or longer than the piece size, and none goes to an invalid forum. */
  lemma {:induction false} SentSizes(hs: seq<Handout>, n: nat)
    requires n > 0
    ensures forall r :: r in AllSent(hs, n) ==> 1 <= |r.ids| <= n && r.forum != INVALID
  {
    if hs != [] {
      SentSizes(hs[1..], n);
      ChunkSizes(hs[0].ids, n);
      RequestCount(hs[0].forum, Chunks(hs[0].ids, n));
    }
  }

  /** Every queued or parked id is for a real forum. */
  ghost predicate RealForums(b: Batch) {
    (b.pending != [] ==> b.forum != INVALID) && forall p :: p in b.overflow ==> p.forum != INVALID
  }

  /** With real forums a flush sends exactly the owed ids, and each only once exactly if none is queued repeatedly. */
  lemma FlushSendsEachIdOnce(b: Batch, now: int)
    requires RealForums(b)
    ensures var sent := SentIds(AllSent(Drain(b, now).handouts, POST_DATA_BATCH));
            (forall t :: t in sent <==> Owed(b, t)) && (NoDup(sent) <==> Unrepeated(b))
  {
    var hs := Drain(b, now).handouts;
    DrainExactlyOnce(b, now);
    DrainAttributes(b, now);
    forall h | h in hs && h.ids != [] ensures h.forum != INVALID {
      assert Attributed(h, b);
      assert h.ids[0] in h.ids;
    }
    SentIsHandedOut(hs, POST_DATA_BATCH);
  }

  // ------------------------------------------------------------------
  // Runs
  // ------------------------------------------------------------------

  /** The starter batch, the flushes scheduled and not yet run, and the requests not yet answered. */
  datatype System = System(batch: Batch, timers: nat, inFlight: multiset<Request>)

  datatype Event = Add(p: Parked) | FlushDue(now: int) | Forget(thread: Snowflake) | Answer(request: Request)

  /** A flush runs because it was scheduled, a reply answers a request in flight; the rest can happen at any time. */
  ghost predicate Enabled(s: System, e: Event) {
    match e
    case FlushDue(_) => s.timers > 0
    case Answer(request) => request in s.inFlight
    case _ => true
  }

  ghost function Next(s: System, e: Event): System
    requires Enabled(s, e)
  {
    match e
    case Add(p) => s.(batch := Added(s.batch, p), timers := s.timers + if AddSchedules(s.batch, p) then 1 else 0)
    case FlushDue(now) =>
      var d := Drain(s.batch, now);
      System(d.batch, s.timers - 1, s.inFlight + multiset(AllSent(d.handouts, POST_DATA_BATCH)))
    case Forget(t) => s.(batch := Forgotten(s.batch, t))
    case Answer(request) =>
      s.(batch := Answered(s.batch, request.ids), inFlight := s.inFlight - multiset{request})
  }

  /** A reply uses up one request in flight, unmarks the ids of that request and no others, and queues nothing. */
  lemma AnswerOutcome(s: System, request: Request, t: Snowflake)
    requires request in s.inFlight
    ensures var u := Next(s, Answer(request));
            && u.inFlight + multiset{request} == s.inFlight && u.timers == s.timers
            && (t in u.batch.requested <==> t in s.batch.requested && t !in request.ids)
            && u.batch.(requested := s.batch.requested) == s.batch
  {
    assert t in request.ids <==> t in (set id | id in request.ids);
  }

  /** A reply that names no id queued again since its request. */
  ghost predicate Timely(s: System, e: Event) {
    e.Answer? ==> forall t :: t in e.request.ids ==> t !in s.batch.pending
  }

  lemma {:induction false} RemoveFirstShape(s: seq<Snowflake>, x: Snowflake)
    requires NoDup(s)
    ensures NoDup(RemoveFirst(s, x)) && forall y :: y in RemoveFirst(s, x) <==> y in s && y != x
  {
    if s != [] && s[0] != x {
      RemoveFirstShape(s[1..], x);
      NoDupPrepend(s[0], RemoveFirst(s[1..], x));
      assert forall y :: y in s <==> y == s[0] || y in s[1..];
    } else if s != [] {
      assert forall y :: y in s <==> y == s[0] || y in s[1..];
    }
  }

  /** Of all steps only an untimely reply takes the mark from a queued id. */
  lemma StepKeepsMarkedIff(s: System, e: Event)
    requires Marked(s.batch) && Enabled(s, e)
    ensures Marked(Next(s, e).batch) <==> Timely(s, e)
  {
    match e {
      case Add(p) =>
        if p.thread !in s.batch.requested {
          NoDupAppend(s.batch.pending, p.thread);
        }
      case FlushDue(now) => DrainEmpties(s.batch, now);
      case Forget(t) => RemoveFirstShape(s.batch.pending, t);
      case Answer(request) => AnswerKeepsMarkedIff(s.batch, request.ids);
    }
  }

  ghost predicate ValidRun(es: seq<Event>)
    decreases |es|, 0
  {
    es != [] ==> ValidRun(es[..|es| - 1]) && Enabled(Run(es[..|es| - 1]), es[|es| - 1])
  }

  ghost function Run(es: seq<Event>): System
    requires ValidRun(es)
    decreases |es|, 1
  {
    if es == [] then System(EMPTY, 0, multiset{}) else Next(Run(es[..|es| - 1]), es[|es| - 1])
  }

  /** In every state of the run the queued ids are distinct and marked. */
  ghost predicate AlwaysMarked(es: seq<Event>)
    requires ValidRun(es)
    decreases |es|
  {
    Marked(Run(es).batch) && (es != [] ==> AlwaysMarked(es[..|es| - 1]))
  }

  ghost predicate AlwaysTimely(es: seq<Event>)
    requires ValidRun(es)
    decreases |es|
  {
    es != [] ==> AlwaysTimely(es[..|es| - 1]) && Timely(Run(es[..|es| - 1]), es[|es| - 1])
  }

  /** Queued ids stay distinct and marked throughout a run exactly if no reply in it names a queued id. */
  lemma {:induction false} RunsStayMarkedIff(es: seq<Event>)
    requires ValidRun(es)
    ensures AlwaysMarked(es) <==> AlwaysTimely(es)
    decreases |es|
  {
    if es != [] {
      RunsStayMarkedIff(es[..|es| - 1]);
      if AlwaysTimely(es[..|es| - 1]) {
        StepKeepsMarkedIff(Run(es[..|es| - 1]), es[|es| - 1]);
      }
    }
  }

  /** After such a run a flush hands out each owed id once and only once. */
  lemma TimelyRunsFlushOnce(es: seq<Event>, now: int)
    requires ValidRun(es) && AlwaysTimely(es)
    ensures var hs := Drain(Run(es).batch, now).handouts;
            NoDup(AllIds(hs)) && forall t :: t in AllIds(hs) <==> Owed(Run(es).batch, t)
  {
    RunsStayMarkedIff(es);
    MarkedDrain(Run(es).batch, now);
  }

  /** A reply keeps the queued ids marked exactly when it answers none of them. */
  lemma AnswerKeepsMarkedIff(b: Batch, ids: seq<Snowflake>)
    requires Marked(b)
    ensures Marked(Answered(b, ids)) <==> forall t :: t in ids ==> t !in b.pending
  {
  }

  /** What leads to the late reply: asked for, flushed, forgotten and asked for again. */
  function AskedAgain(p: Parked, now: int): seq<Event> {
    [Add(p)] + [FlushDue(now)] + [Forget(p.thread)] + [Add(p)]
  }

  /** The starter batch of forum `p.forum` with the given ids queued, and one request of thread `p.thread` in flight. */
  ghost function InFlightWith(p: Parked, requested: set<Snowflake>, pending: seq<Snowflake>, now: int): System {
    System(Batch(requested, pending, [p.thread], now, [], p.forum, pending != []), if pending != [] then 1 else 0,
           multiset{Request(p.forum, [p.thread])})
  }

  lemma AskedAndFlushed(p: Parked, now: int)
    requires p.forum != INVALID
    ensures ValidRun([Add(p)] + [FlushDue(now)])
    ensures Run([Add(p)] + [FlushDue(now)]) == InFlightWith(p, {p.thread}, [], now)
  {
    var none: seq<Event> := [];
    assert none + [Add(p)] == [Add(p)];
    var asked := Step(none, Add(p));
    assert asked == System(Batch({p.thread}, [p.thread], [], 0, [], p.forum, true), 1, multiset{});
    var flushed := Step([Add(p)], FlushDue(now));
    FlushOne(asked.batch, p.thread, now);
  }

  lemma ForgottenAndAsked(p: Parked, now: int)
    ensures var s := InFlightWith(p, {p.thread}, [], now);
            Next(Next(s, Forget(p.thread)), Add(p)) == InFlightWith(p, {p.thread}, [p.thread], now)
  {
    var forgotten := Next(InFlightWith(p, {p.thread}, [], now), Forget(p.thread));
    assert forgotten == InFlightWith(p, {}, [], now);
  }

  lemma AskedAgainInFlight(p: Parked, now: int) returns (s: System)
    requires p.forum != INVALID
    ensures ValidRun(AskedAgain(p, now)) && s == Run(AskedAgain(p, now))
    ensures s == InFlightWith(p, {p.thread}, [p.thread], now)
  {
    AskedAndFlushed(p, now);
    ForgottenAndAsked(p, now);
    var forgotten := Step([Add(p)] + [FlushDue(now)], Forget(p.thread));
    s := Step([Add(p)] + [FlushDue(now)] + [Forget(p.thread)], Add(p));
  }

  /** A thread forgotten while in flight and asked for again is queued twice once the late reply arrives. */
  lemma LateReplyQueuesTwice(f: Snowflake, t: Snowflake, now: int)
    requires f != INVALID
    ensures var p := Parked(f, t);
            var late := AskedAgain(p, now) + [Answer(Request(f, [t]))];
            && ValidRun(late) && !AlwaysTimely(late)
            && ValidRun(late + [Add(p)]) && Run(late + [Add(p)]).batch.pending == [t, t]
  {
    var p := Parked(f, t);
    var again := AskedAgainInFlight(p, now);
    var answer := Answer(Request(f, [t]));
    var late := AskedAgain(p, now) + [answer];
    var answered := Step(AskedAgain(p, now), answer);
    assert t in [t] && t in again.batch.pending && !Timely(again, answer);
    assert late[..|late| - 1] == AskedAgain(p, now);
    var twice := Step(late, Add(p));
  }

  lemma Step(es: seq<Event>, e: Event) returns (t: System)
    requires ValidRun(es) && Enabled(Run(es), e)
    ensures ValidRun(es + [e]) && t == Run(es + [e]) == Next(Run(es), e)
  {
    assert (es + [e])[..|es|] == es;
    t := Run(es + [e]);
  }

  lemma OneRequest(forum: Snowflake, t: Snowflake, n: nat)
    requires forum != INVALID && n > 0
    ensures SentFor(Handout(forum, [t]), n) == [Request(forum, [t])]
  {
    var ids := [t];
    assert Min(n, |ids|) == 1 && ids[..1] == ids && ids[1..] == [];
    var chunks := Chunks(ids, n);
    assert chunks == [ids[..1]] + Chunks(ids[1..], n);
    assert chunks == [ids] && chunks[1..] == [];
    assert RequestsFor(forum, chunks) == [Request(forum, ids)] + RequestsFor(forum, chunks[1..]);
  }

  /** A flush of a batch that holds one id. */
  lemma FlushOne(b: Batch, t: Snowflake, now: int)
    requires b.pending == [t] && b.overflow == [] && b.forum != INVALID
    ensures Drain(b, now).batch == Taken(b, now)
    ensures AllSent(Drain(b, now).handouts, POST_DATA_BATCH) == [Request(b.forum, [t])]
  {
    var c, rest := DrainUnfold(b, now);
    var h := Handout(b.forum, b.pending);
    assert rest.handouts == [];
    assert Drain(b, now).handouts == [h] && [h][1..] == [];
    OneRequest(b.forum, t, POST_DATA_BATCH);
    assert AllSent([h], POST_DATA_BATCH) == SentFor(h, POST_DATA_BATCH) + AllSent([], POST_DATA_BATCH);
  }

  /** After a flush one is still marked as scheduled exactly when it was and the flush found nothing to do. */
  lemma FlushScheduledAfter(b: Batch, now: int)
    ensures Drain(b, now).batch.flushScheduled <==> !HasPending(b) && b.flushScheduled
  {
    DrainEmpties(b, now);
  }

  // ------------------------------------------------------------------
  // Does what is queued get flushed?
  // ------------------------------------------------------------------

  /** The mark stands for exactly one scheduled flush, and whatever is queued has it. */
  ghost predicate Armed(s: System) {
    && s.timers == (if s.batch.flushScheduled then 1 else 0)
    && (HasPending(s.batch) ==> s.batch.flushScheduled)
  }

  /** The mark stands for no flush at all. */
  ghost predicate Stuck(s: System) {
    s.batch.flushScheduled && s.timers == 0
  }

  /** A flush that finds nothing to do. */
  ghost predicate IdleFlush(s: System, e: Event) {
    e.FlushDue? && !HasPending(s.batch)
  }

  /** Of all steps only an idle flush disarms: it uses up the flush and leaves the mark. */
  lemma StepKeepsArmedIff(s: System, e: Event)
    requires Armed(s) && Enabled(s, e)
    ensures Armed(Next(s, e)) <==> !IdleFlush(s, e)
    ensures IdleFlush(s, e) ==> Stuck(Next(s, e))
  {
    if e.FlushDue? {
      DrainEmpties(s.batch, e.now);
    }
  }

  ghost predicate NoIdleFlush(es: seq<Event>)
    requires ValidRun(es)
    decreases |es|
  {
    es != [] ==> NoIdleFlush(es[..|es| - 1]) && !IdleFlush(Run(es[..|es| - 1]), es[|es| - 1])
  }

  /** After any run the batch is armed exactly if no flush in it was idle, and stuck otherwise. */
  lemma {:induction false} RunsArmedIff(es: seq<Event>)
    requires ValidRun(es)
    ensures Armed(Run(es)) <==> NoIdleFlush(es)
    ensures Armed(Run(es)) <==> !Stuck(Run(es))
    decreases |es|
  {
    if es != [] {
      var before := es[..|es| - 1];
      RunsArmedIff(before);
      if Armed(Run(before)) {
        StepKeepsArmedIff(Run(before), es[|es| - 1]);
      } else {
        StuckStays(Run(before), es[|es| - 1]);
      }
    }
  }

  /** A stuck batch runs no flush, schedules none and sends nothing, whatever happens. */
  lemma StuckStays(s: System, e: Event)
    requires Stuck(s) && Enabled(s, e)
    ensures Stuck(Next(s, e)) && !e.FlushDue? && Next(s, e).inFlight <= s.inFlight
  {
  }

  /**
    Over runs: the next thread asked for that is not already requested is queued, and a flush is coming for it
    exactly if no flush so far was idle.
  */
  lemma QueuedIsFlushedIff(es: seq<Event>, p: Parked)
    requires ValidRun(es) && p.thread !in Run(es).batch.requested
    ensures var t := Next(Run(es), Add(p));
            && (p.thread in t.batch.pending || p in t.batch.overflow)
            && (t.timers > 0 <==> NoIdleFlush(es))
  {
    RunsArmedIff(es);
  }

  /** After an idle flush among the first `n` events the rest of a run flushes and requests nothing any more. */
  lemma {:induction false} IdleFlushIsForEver(es: seq<Event>, n: nat)
    requires n <= |es| && ValidRun(es) && ValidRun(es[..n]) && !NoIdleFlush(es[..n])
    ensures Stuck(Run(es)) && Run(es).inFlight <= Run(es[..n]).inFlight
    ensures forall i :: n <= i < |es| ==> !es[i].FlushDue?
    decreases |es|
  {
    if n == |es| {
      assert es[..n] == es;
      RunsArmedIff(es);
    } else {
      var before := es[..|es| - 1];
      assert before[..n] == es[..n];
      IdleFlushIsForEver(before, n);
      StuckStays(Run(before), es[|es| - 1]);
      assert forall i :: n <= i < |before| ==> es[i] == before[i];
    }
  }

  /** It happens: a thread is queued and forgotten before its flush; the next one asked for waits for ever. */
  lemma ForgottenBatchStaysSilent(f: Snowflake, t: Snowflake, now: int, p: Parked)
    ensures var es := [Add(Parked(f, t))] + [Forget(t)] + [FlushDue(now)];
            && ValidRun(es) && !NoIdleFlush(es) && p.thread !in Run(es).batch.requested
            && Next(Run(es), Add(p)).batch.pending == [p.thread] && Next(Run(es), Add(p)).timers == 0
  {
    var none: seq<Event> := [];
    var ask := Add(Parked(f, t));
    var s0 := Run(none);
    var s1 := Step(none, ask);
    assert s1.batch.pending == [t];
    var s2 := Step([ask], Forget(t));
    assert s2.batch.pending == [] && s2.batch.overflow == [];
    var s3 := Step([ask] + [Forget(t)], FlushDue(now));
    DrainEmpties(s2.batch, now);
    var es := [ask] + [Forget(t)] + [FlushDue(now)];
    assert es[..2] == [ask] + [Forget(t)];
    RunsArmedIff(es);
  }

  // ------------------------------------------------------------------
  // Unread requests: one forum at a time
  // ------------------------------------------------------------------

  /** Takes until a forum with something to ask for turns up; that is the one sent. */
  ghost function UnreadTurn(b: Batch, now: int): (Batch, Handout)
    decreases Load(b), if b.pending == [] then 1 else 0
  {
    if !HasPending(b) then (b, NOTHING)
    else
      TakeShrinks(b, now);
      var h := Handout(b.forum, b.pending);
      if h.ids == [] || h.forum == INVALID then UnreadTurn(Taken(b, now), now) else (Taken(b, now), h)
  }

  /** The awaited batch got no reply in time. */
  predicate Overdue(b: Batch, now: int) {
    b.lastTaken != [] && now - b.outstandingSince >= UNREAD_REPLY_TIMEOUT_MS
  }

  /** A batch still awaited blocks the flush until it is overdue. */
  ghost function UnreadFlushed(b: Batch, now: int): (Batch, Handout) {
    if b.lastTaken == [] then UnreadTurn(b, now)
    else if Overdue(b, now) then UnreadTurn(AnsweredLast(b), now)
    else (b, NOTHING)
  }

  /** What a reply and the watchdog do after clearing the awaited batch. */
  ghost function Onward(b: Batch, now: int): (Batch, Handout) {
    if HasPending(b) then UnreadFlushed(b, now) else (b, NOTHING)
  }

  lemma {:induction false} UnreadTurnSends(b: Batch, now: int)
    ensures var (c, h) := UnreadTurn(b, now);
            h.ids != [] ==> h.forum != INVALID && c.lastTaken == h.ids && c.outstandingSince == now
    decreases Load(b), if b.pending == [] then 1 else 0
  {
    if HasPending(b) {
      TakeShrinks(b, now);
      RequeuedShape(b.(flushScheduled := false, pending := [], overflow := []), b.overflow);
      if b.pending == [] || b.forum == INVALID {
        UnreadTurnSends(Taken(b, now), now);
      }
    }
  }

  /**
    One flush: while a batch is awaited and not overdue nothing is sent, and what is sent becomes the
    batch awaited.
  */
  lemma UnreadSingleForum(b: Batch, now: int)
    ensures var (c, h) := UnreadFlushed(b, now);
            && (h.ids != [] ==> h.forum != INVALID && c.lastTaken == h.ids && c.outstandingSince == now)
            && (b.lastTaken != [] && now - b.outstandingSince < 30000 ==> h.ids == [] && c == b)
            && (b.lastTaken != [] && now - b.outstandingSince >= 30000 ==>
                  (c, h) == UnreadFlushed(AnsweredLast(b), now))
  {
    UnreadTurnSends(b, now);
    UnreadTurnSends(AnsweredLast(b), now);
  }

  /** A handout goes out as a single request exactly up to 180 ids for unreads, and up to 10 for starters. */
  lemma UnreadSingleRequestIff(h: Handout)
    requires h.ids != [] && h.forum != INVALID
    ensures |SentFor(h, MAX_UNREAD_REQUEST)| == 1 <==> |h.ids| <= 180
    ensures |SentFor(h, POST_DATA_BATCH)| == 1 <==> |h.ids| <= 10
  {
    ChunkSizes(h.ids, MAX_UNREAD_REQUEST);
    RequestCount(h.forum, Chunks(h.ids, MAX_UNREAD_REQUEST));
    ChunkSizes(h.ids, POST_DATA_BATCH);
    RequestCount(h.forum, Chunks(h.ids, POST_DATA_BATCH));
  }

  lemma {:induction false} RequestCount(forum: Snowflake, chunks: seq<seq<Snowflake>>)
    ensures |RequestsFor(forum, chunks)| == |chunks|
    ensures forall r :: r in RequestsFor(forum, chunks) ==> r.forum == forum && r.ids in chunks
  {
    if chunks != [] {
      RequestCount(forum, chunks[1..]);
    }
  }

  // ------------------------------------------------------------------
  // Unread requests and their replies over runs
  // ------------------------------------------------------------------

  /** The unread batch with the requests sent that may still be answered, oldest first. */
  datatype Unread = Unread(batch: Batch, unanswered: seq<Request>)

  /** A reply answers one request but does not say which; `Lost` is a request that will never be answered. */
  datatype UnreadEvent =
    | Queue(p: Parked)
    | ForgetThread(thread: Snowflake)
    | Flush(now: int)
    | Watchdog(now: int)
    | Reply(k: nat, threads: seq<Snowflake>, now: int)
    | Lost(k: nat)

  /** Views queue posts under the forum they show. */
  predicate UnreadEnabled(s: Unread, e: UnreadEvent) {
    match e
    case Queue(p) => p.forum != INVALID
    case Reply(k, _, _) => k < |s.unanswered|
    case Lost(k) => k < |s.unanswered|
    case _ => true
  }

  ghost function AllForgotten(b: Batch, threads: seq<Snowflake>): Batch
    decreases |threads|
  {
    if threads == [] then b else AllForgotten(Forgotten(b, threads[0]), threads[1..])
  }

  /** The batch after an event, and what is handed out by it. */
  ghost function Turn(b: Batch, e: UnreadEvent): (Batch, Handout) {
    match e
    case Queue(p) => (Added(b, p), NOTHING)
    case ForgetThread(t) => (Forgotten(b, t), NOTHING)
    case Flush(now) => UnreadFlushed(b, now)
    case Watchdog(now) => if Overdue(b, now) then Onward(AnsweredLast(b), now) else (b, NOTHING)
    case Reply(_, threads, now) => Onward(AllForgotten(AnsweredLast(b), threads), now)
    case Lost(_) => (b, NOTHING)
  }

  /** The thread is neither marked nor waited for. */
  ghost predicate Absent(b: Batch, t: Snowflake) {
    t !in b.requested && t !in b.pending && forall p :: p in b.overflow ==> p.thread != t
  }

  lemma TakenStaysAbsent(b: Batch, now: int, t: Snowflake)
    requires Absent(b, t)
    ensures Absent(Taken(b, now), t)
  {
    var queued := RequeuedContents(b.(flushScheduled := false, pending := [], overflow := []), b.overflow);
  }

  lemma {:induction false} UnreadTurnEnds(b: Batch, now: int, t: Snowflake)
    ensures var (c, h) := UnreadTurn(b, now);
            && (h.ids != [] || !HasPending(c))
            && (Absent(b, t) ==> Absent(c, t) && t !in h.ids)
    decreases Load(b), if b.pending == [] then 1 else 0
  {
    if HasPending(b) {
      TakeShrinks(b, now);
      if Absent(b, t) {
        TakenStaysAbsent(b, now, t);
      }
      if b.pending == [] || b.forum == INVALID {
        UnreadTurnEnds(Taken(b, now), now, t);
      }
    }
  }

  lemma ForgottenAbsent(b: Batch, thread: Snowflake, t: Snowflake)
    requires NoDup(b.pending) && (t == thread || Absent(b, t))
    ensures Absent(Forgotten(b, thread), t)
  {
    RemoveFirstShape(b.pending, thread);
    WithoutThreadShape(b.overflow, thread, Parked(0, t));
    forall p | p in WithoutThread(b.overflow, thread) ensures p.thread != t {
      WithoutThreadShape(b.overflow, thread, p);
    }
  }

  /** Forgetting threads removes them and leaves what waits of the others. */
  lemma {:induction false} AllForgottenOutcome(b: Batch, threads: seq<Snowflake>, t: Snowflake, q: Parked)
    requires NoDup(b.pending)
    ensures var c := AllForgotten(b, threads);
            && c.lastTaken == b.lastTaken
            && (t in threads || Absent(b, t) ==> Absent(c, t))
            && (q.thread !in threads ==> (Waits(c, q) <==> Waits(b, q)))
    decreases |threads|
  {
    if threads != [] {
      HeadTail(threads);
      var d := Forgotten(b, threads[0]);
      RemoveFirstShape(b.pending, threads[0]);
      ForgetOutcome(b, threads[0], q);
      if t == threads[0] || Absent(b, t) {
        ForgottenAbsent(b, threads[0], t);
      }
      AllForgottenOutcome(d, threads[1..], t, q);
    }
  }

  /**
    What an event leads to: threads forgotten, or named by a reply, are neither marked nor waited for nor asked
    for; and a reply, a batch given up or a free flush asks for something unless nothing waits any more.
  */
  lemma TurnOutcome(b: Batch, e: UnreadEvent, t: Snowflake)
    requires NoDup(b.pending)
    ensures var (c, h) := Turn(b, e);
            && (e == ForgetThread(t) || (e.Reply? && t in e.threads) ==> Absent(c, t) && t !in h.ids)
            && (e.Reply? || (e.Flush? && b.lastTaken == []) ==> h.ids != [] || !HasPending(c))
            && (e.Watchdog? && b.lastTaken != [] && e.now - b.outstandingSince >= 30000 ==>
                  h.ids != [] || !HasPending(c))
            && (e.Queue? || e.ForgetThread? || e.Lost? ==> h.ids == [])
  {
    match e
    case ForgetThread(u) => AllForgottenOutcome(b, [u], u, Parked(0, u));
    case Flush(now) => UnreadTurnEnds(b, now, t);
    case Watchdog(now) => UnreadTurnEnds(AnsweredLast(b), now, t);
    case Reply(_, threads, now) =>
      var answered := AnsweredLast(b);
      AllForgottenOutcome(answered, threads, t, Parked(0, t));
      UnreadTurnEnds(AllForgotten(answered, threads), now, t);
    case _ =>
  }

  function StillUnanswered(s: Unread, e: UnreadEvent): seq<Request>
    requires UnreadEnabled(s, e)
  {
    if e.Reply? || e.Lost? then s.unanswered[..e.k] + s.unanswered[e.k + 1..] else s.unanswered
  }

  ghost function UnreadNext(s: Unread, e: UnreadEvent): Unread
    requires UnreadEnabled(s, e)
  {
    var (b, h) := Turn(s.batch, e);
    Unread(b, StillUnanswered(s, e) + SentFor(h, MAX_UNREAD_REQUEST))
  }

  ghost predicate ValidUnread(es: seq<UnreadEvent>)
    decreases |es|, 0
  {
    es != [] ==> ValidUnread(es[..|es| - 1]) && UnreadEnabled(UnreadRun(es[..|es| - 1]), es[|es| - 1])
  }

  ghost function UnreadRun(es: seq<UnreadEvent>): Unread
    requires ValidUnread(es)
    decreases |es|, 1
  {
    if es == [] then Unread(EMPTY, []) else UnreadNext(UnreadRun(es[..|es| - 1]), es[|es| - 1])
  }

  ghost predicate SameIds(a: seq<Snowflake>, b: seq<Snowflake>) {
    forall t :: t in a <==> t in b
  }

  /**
    A reply unmarks the ids of `lastTaken`. It is exact for the request it answers if these are the ids
    of that request and no other request still asks for one of them.
  */
  ghost predicate ClearsExactly(s: Unread, k: nat)
    requires k < |s.unanswered|
  {
    && SameIds(s.unanswered[k].ids, s.batch.lastTaken)
    && forall j :: 0 <= j < |s.unanswered| && j != k ==>
         forall t :: t in s.unanswered[j].ids ==> t !in s.batch.lastTaken
  }

  /** Whichever request the next reply answers, it is exact. */
  ghost predicate RepliesExact(s: Unread) {
    forall k :: 0 <= k < |s.unanswered| ==> ClearsExactly(s, k)
  }

  ghost predicate Asking(rs: seq<Request>) {
    forall r :: r in rs ==> r.ids != []
  }

  /** Every reply is exact if and only if none is awaited or the only request unanswered is all of `lastTaken`. */
  lemma RepliesExactIff(s: Unread)
    requires Asking(s.unanswered)
    ensures RepliesExact(s) <==>
            s.unanswered == [] || (|s.unanswered| == 1 && SameIds(s.unanswered[0].ids, s.batch.lastTaken))
  {
    if |s.unanswered| >= 2 {
      assert s.unanswered[1] in s.unanswered;
      var t := s.unanswered[1].ids[0];
      assert t in s.unanswered[1].ids;
      assert ClearsExactly(s, 1) ==> t in s.batch.lastTaken;
      assert ClearsExactly(s, 0) ==> t !in s.batch.lastTaken;
    } else if |s.unanswered| == 1 {
      assert ClearsExactly(s, 0) <==> SameIds(s.unanswered[0].ids, s.batch.lastTaken);
    }
  }

  /** The only request unanswered, if any, is the batch awaited. */
  ghost predicate SingleFlight(s: Unread) {
    s.unanswered == [] || (|s.unanswered| == 1 && s.unanswered[0].ids == s.batch.lastTaken)
  }

  ghost predicate UnreadInv(s: Unread) {
    Asking(s.unanswered) && RealForums(s.batch)
  }

  /** At most 180 ids go out, and no batch is given up while its request may still be answered. */
  ghost predicate Careful(s: Unread, e: UnreadEvent) {
    && |Turn(s.batch, e).1.ids| <= 180
    && ((e.Flush? || e.Watchdog?) && Overdue(s.batch, e.now) ==> s.unanswered == [])
  }

  lemma {:induction false} WithoutThreadKeeps(s: seq<Parked>, thread: Snowflake)
    ensures forall p :: p in WithoutThread(s, thread) ==> p in s
  {
    if s != [] {
      HeadTail(s);
      WithoutThreadKeeps(s[1..], thread);
    }
  }

  lemma ForgottenForums(b: Batch, thread: Snowflake)
    requires RealForums(b)
    ensures RealForums(Forgotten(b, thread)) && Forgotten(b, thread).lastTaken == b.lastTaken
  {
    WithoutThreadKeeps(b.overflow, thread);
  }

  lemma {:induction false} AllForgottenForums(b: Batch, threads: seq<Snowflake>)
    requires RealForums(b)
    ensures RealForums(AllForgotten(b, threads)) && AllForgotten(b, threads).lastTaken == b.lastTaken
    decreases |threads|
  {
    if threads != [] {
      ForgottenForums(b, threads[0]);
      AllForgottenForums(Forgotten(b, threads[0]), threads[1..]);
    }
  }

  lemma TakenForums(b: Batch, now: int)
    requires RealForums(b)
    ensures RealForums(Taken(b, now))
  {
    TakeKeepsParked(b, now);
    var c := Taken(b, now);
    if c.pending != [] {
      assert c.pending[0] in c.pending;
    }
  }

  /** A turn sends the batch then awaited; if it finds nothing to send, nothing is awaited. */
  lemma {:induction false} TurnAwaits(b: Batch, now: int)
    requires RealForums(b)
    ensures var (c, h) := UnreadTurn(b, now);
            && RealForums(c)
            && (h.ids != [] ==> h.forum != INVALID && c.lastTaken == h.ids)
            && (h.ids == [] ==> h == NOTHING && c.lastTaken == if HasPending(b) then [] else b.lastTaken)
    decreases Load(b), if b.pending == [] then 1 else 0
  {
    if HasPending(b) {
      TakeShrinks(b, now);
      TakenForums(b, now);
      TakeKeepsParked(b, now);
      if b.pending == [] {
        TurnAwaits(Taken(b, now), now);
      }
    }
  }

  lemma SentRequests(h: Handout)
    requires h.ids != [] ==> h.forum != INVALID
    ensures var sent := SentFor(h, MAX_UNREAD_REQUEST);
            && Asking(sent)
            && (h.ids == [] ==> sent == [])
            && (h.ids != [] && |h.ids| <= MAX_UNREAD_REQUEST ==> sent == [Request(h.forum, h.ids)])
            && (|h.ids| > MAX_UNREAD_REQUEST ==> |sent| >= 2)
  {
    if h.ids != [] {
      var chunks := Chunks(h.ids, MAX_UNREAD_REQUEST);
      ChunkSizes(h.ids, MAX_UNREAD_REQUEST);
      RequestCount(h.forum, chunks);
      if |h.ids| <= MAX_UNREAD_REQUEST {
        assert h.ids[..|h.ids|] == h.ids && h.ids[|h.ids|..] == [];
        assert chunks == [h.ids] && chunks[1..] == [];
      }
    }
  }

  /** What an event hands out is awaited; one that clears the awaited batch and hands out nothing awaits nothing. */
  lemma TurnKeeps(b: Batch, e: UnreadEvent)
    requires RealForums(b) && (e.Queue? ==> e.p.forum != INVALID)
    ensures var (c, h) := Turn(b, e);
            && RealForums(c)
            && (h.ids != [] ==> h.forum != INVALID && c.lastTaken == h.ids)
            && (h.ids == [] ==> c.lastTaken == if Clears(b, e) then [] else b.lastTaken)
            && (h.ids != [] ==> Clears(b, e) || b.lastTaken == [])
  {
    match e
    case Queue(p) =>
    case ForgetThread(t) => ForgottenForums(b, t);
    case Flush(now) =>
      TurnAwaits(b, now);
      TurnAwaits(AnsweredLast(b), now);
    case Watchdog(now) => TurnAwaits(AnsweredLast(b), now);
    case Reply(_, threads, now) =>
      AllForgottenForums(AnsweredLast(b), threads);
      TurnAwaits(AllForgotten(AnsweredLast(b), threads), now);
    case Lost(_) =>
  }

  /** The event ends the wait for the awaited batch. */
  predicate Clears(b: Batch, e: UnreadEvent) {
    e.Reply? || ((e.Flush? || e.Watchdog?) && Overdue(b, e.now))
  }

  /** No earlier request is left: all depends on the size of what is sent. */
  lemma NothingLeft(t: Unread, h: Handout)
    requires h.ids != [] ==> h.forum != INVALID && t.batch.lastTaken == h.ids
    requires t.unanswered == SentFor(h, MAX_UNREAD_REQUEST)
    ensures Asking(t.unanswered)
    ensures SingleFlight(t) <==> |h.ids| <= MAX_UNREAD_REQUEST
    ensures RepliesExact(t) <==> |h.ids| <= MAX_UNREAD_REQUEST
  {
    SentRequests(h);
    RepliesExactIff(t);
  }

  /** The wait for a request was given up: whether or not another batch is sent, a reply to it is not exact. */
  lemma GivenUp(t: Unread, r: Request, h: Handout)
    requires h.ids != [] ==> h.forum != INVALID
    requires h.ids == [] ==> t.batch.lastTaken == []
    requires r.ids != [] && t.unanswered == [r] + SentFor(h, MAX_UNREAD_REQUEST)
    ensures Asking(t.unanswered) && !SingleFlight(t) && !RepliesExact(t)
  {
    SentRequests(h);
    RepliesExactIff(t);
    assert r.ids[0] in r.ids;
    if h.ids != [] {
      assert |SentFor(h, MAX_UNREAD_REQUEST)| >= 1;
    }
  }

  /** The awaited request is still awaited. */
  lemma StillAwaited(t: Unread, r: Request)
    requires r.ids != [] && t.unanswered == [r] && t.batch.lastTaken == r.ids
    ensures Asking(t.unanswered) && SingleFlight(t) && RepliesExact(t)
  {
    RepliesExactIff(t);
  }

  /** From single flight, a step leaves replies exact exactly if it is careful, and then keeps single flight. */
  lemma StepExactIff(s: Unread, e: UnreadEvent)
    requires UnreadInv(s) && SingleFlight(s) && UnreadEnabled(s, e)
    ensures var t := UnreadNext(s, e);
            && UnreadInv(t)
            && (SingleFlight(t) <==> Careful(s, e))
            && (RepliesExact(t) <==> Careful(s, e))
  {
    var (c, h) := Turn(s.batch, e);
    var t := UnreadNext(s, e);
    TurnKeeps(s.batch, e);
    if StillUnanswered(s, e) == [] {
      assert t.unanswered == SentFor(h, MAX_UNREAD_REQUEST);
      NothingLeft(t, h);
    } else {
      var r := s.unanswered[0];
      assert r in s.unanswered && StillUnanswered(s, e) == [r] && !e.Reply? && !e.Lost?;
      if Clears(s.batch, e) {
        GivenUp(t, r, h);
      } else {
        assert h.ids == [];
        StillAwaited(t, r);
      }
    }
  }

  /** In every state of the run each possible reply is exact. */
  ghost predicate AlwaysExact(es: seq<UnreadEvent>)
    requires ValidUnread(es)
    decreases |es|
  {
    RepliesExact(UnreadRun(es)) && (es != [] ==> AlwaysExact(es[..|es| - 1]))
  }

  ghost predicate AlwaysCareful(es: seq<UnreadEvent>)
    requires ValidUnread(es)
    decreases |es|
  {
    es != [] ==> AlwaysCareful(es[..|es| - 1]) && Careful(UnreadRun(es[..|es| - 1]), es[|es| - 1])
  }

  /**
    Over a whole run every reply that can arrive clears exactly what it answers, exactly if no batch
    of more than 180 ids is sent and none is given up while its request may still be answered. Such a run
    never has more than one request unanswered.
  */
  lemma {:induction false} RepliesStayExactIff(es: seq<UnreadEvent>)
    requires ValidUnread(es)
    ensures AlwaysExact(es) <==> AlwaysCareful(es)
    ensures AlwaysCareful(es) ==> UnreadInv(UnreadRun(es)) && SingleFlight(UnreadRun(es))
    decreases |es|
  {
    if es != [] {
      RepliesStayExactIff(es[..|es| - 1]);
      if AlwaysCareful(es[..|es| - 1]) {
        StepExactIff(UnreadRun(es[..|es| - 1]), es[|es| - 1]);
      }
    }
  }

  // ------------------------------------------------------------------
  // The two ways a reply clears too much
  // ------------------------------------------------------------------

  /** Forum 1 asks for n posts before the flush. */
  function Asked(n: nat): seq<UnreadEvent> {
    if n == 0 then [] else Asked(n - 1) + [Queue(Parked(1, n - 1))]
  }

  lemma RunMore(es: seq<UnreadEvent>, e: UnreadEvent) returns (t: Unread)
    requires ValidUnread(es) && UnreadEnabled(UnreadRun(es), e)
    ensures ValidUnread(es + [e]) && t == UnreadRun(es + [e]) == UnreadNext(UnreadRun(es), e)
  {
    assert (es + [e])[..|es|] == es;
    t := UnreadRun(es + [e]);
  }

  /** Posts 0 to n - 1 of forum 1 queued, nothing sent yet. */
  ghost predicate Queued(s: Unread, n: nat) {
    && s.unanswered == [] && s.batch.overflow == [] && s.batch.lastTaken == []
    && |s.batch.pending| == n && (n > 0 ==> s.batch.forum == 1)
    && (forall i :: 0 <= i < n ==> s.batch.pending[i] == i)
    && (forall t :: t in s.batch.requested ==> t in s.batch.pending)
  }

  lemma QueueOneMore(s: Unread, n: nat)
    requires Queued(s, n)
    ensures Queued(UnreadNext(s, Queue(Parked(1, n))), n + 1)
    ensures n in UnreadNext(s, Queue(Parked(1, n))).batch.requested
  {
    assert n !in s.batch.pending;
    var b := Added(s.batch, Parked(1, n));
    assert b.pending == s.batch.pending + [n] && b.requested == s.batch.requested + {n};
  }

  lemma {:induction false} AskedRun(n: nat) returns (s: Unread)
    ensures ValidUnread(Asked(n)) && s == UnreadRun(Asked(n)) && Queued(s, n)
    ensures n > 0 ==> n - 1 in s.batch.requested
  {
    if n == 0 {
      s := Unread(EMPTY, []);
    } else {
      var before := AskedRun(n - 1);
      QueueOneMore(before, n - 1);
      s := RunMore(Asked(n - 1), Queue(Parked(1, n - 1)));
    }
  }

  lemma TwoPieces(ids: seq<Snowflake>, k: nat)
    requires 0 < k && |ids| == k + 1
    ensures RequestsFor(1, Chunks(ids, k)) == [Request(1, ids[..k]), Request(1, [ids[k]])]
  {
    var last := [ids[k]];
    var one: seq<seq<Snowflake>> := [last];
    assert ids[k..] == last && last[..1] == last && last[1..] == [];
    assert Chunks(ids[k..], k) == one && one[1..] == [];
    assert Chunks(ids, k) == [ids[..k]] + one;
    assert ([ids[..k]] + one)[1..] == one;
    assert RequestsFor(1, one) == [Request(1, last)];
  }

  lemma FlushTwoPieces(s: Unread, n: nat, now: int)
    requires Queued(s, n) && n == MAX_UNREAD_REQUEST + 1
    ensures UnreadNext(s, Flush(now))
            == Unread(Taken(s.batch, now), [Request(1, s.batch.pending[..n - 1]), Request(1, [n - 1])])
  {
    TwoPieces(s.batch.pending, n - 1);
  }

  /** 181 posts: they go out as two requests, and the reply to the first unmarks the post of the second. */
  lemma OversizedBatchLosesMark(n: nat, now: int) returns (sent: Unread, after: Unread)
    requires n == 181
    ensures ValidUnread(Asked(n) + [Flush(now)]) && sent == UnreadRun(Asked(n) + [Flush(now)])
    ensures |sent.unanswered| == 2 && sent.unanswered[1].ids == [n - 1] && n - 1 in sent.batch.requested
    ensures after == UnreadNext(sent, Reply(0, [], now)) && after.unanswered == sent.unanswered[1..]
    ensures n - 1 !in after.batch.requested
  {
    var s := AskedRun(n);
    sent := RunMore(Asked(n), Flush(now));
    FlushTwoPieces(s, n, now);
    TakenAlone(s.batch, now);
    assert s.batch.pending[n - 1] in s.batch.pending;
    ReplyUnmarks(sent, n - 1, [], now);
    after := UnreadNext(sent, Reply(0, [], now));
  }

  lemma TakenAlone(b: Batch, now: int)
    requires b.pending != [] && b.overflow == []
    ensures Taken(b, now) == b.(pending := [], flushScheduled := false, lastTaken := b.pending, outstandingSince := now)
  {
  }

  lemma FlushAlone(s: Unread, t: Snowflake, now: int)
    requires s.batch.pending == [t] && s.batch.overflow == [] && s.batch.lastTaken == [] && s.batch.forum != INVALID
    ensures UnreadNext(s, Flush(now)) == Unread(Taken(s.batch, now), s.unanswered + [Request(s.batch.forum, [t])])
  {
    OneRequest(s.batch.forum, t, MAX_UNREAD_REQUEST);
  }

  lemma WatchdogAlone(s: Unread, t: Snowflake, now: int)
    requires s.batch.pending == [t] && s.batch.overflow == [] && Overdue(s.batch, now) && s.batch.forum != INVALID
    ensures UnreadNext(s, Watchdog(now))
            == Unread(Taken(AnsweredLast(s.batch), now), s.unanswered + [Request(s.batch.forum, [t])])
  {
    OneRequest(s.batch.forum, t, MAX_UNREAD_REQUEST);
  }

  /** An event that is enabled in every state. */
  predicate Free(e: UnreadEvent) {
    !e.Reply? && !e.Lost? && (e.Queue? ==> e.p.forum != INVALID)
  }

  lemma RunFour(a: UnreadEvent, b: UnreadEvent, c: UnreadEvent, d: UnreadEvent)
    requires Free(a) && Free(b) && Free(c) && Free(d)
    ensures ValidUnread([a] + [b] + [c] + [d])
    ensures UnreadRun([a] + [b] + [c] + [d])
            == UnreadNext(UnreadNext(UnreadNext(UnreadNext(Unread(EMPTY, []), a), b), c), d)
  {
    var s := RunMore([], a);
    assert [] + [a] == [a];
    s := RunMore([a], b);
    s := RunMore([a] + [b], c);
    s := RunMore([a] + [b] + [c], d);
  }

  lemma AskedAndSent(f: Snowflake, t: Snowflake, now: int)
    requires f != INVALID
    ensures UnreadNext(UnreadNext(Unread(EMPTY, []), Queue(Parked(f, t))), Flush(now))
            == Unread(Batch({t}, [], [t], now, [], f, false), [Request(f, [t])])
  {
    var s := UnreadNext(Unread(EMPTY, []), Queue(Parked(f, t)));
    assert s == Unread(Batch({t}, [t], [], 0, [], f, true), []);
    FlushAlone(s, t, now);
    TakenAlone(s.batch, now);
  }

  lemma GivenUpAndSent(f: Snowflake, t: Snowflake, g: Snowflake, u: Snowflake, now: int, later: int)
    requires g != INVALID && t != u && later - now >= UNREAD_REPLY_TIMEOUT_MS
    ensures var s := Unread(Batch({t}, [], [t], now, [], f, false), [Request(f, [t])]);
            UnreadNext(UnreadNext(s, Queue(Parked(g, u))), Watchdog(later))
            == Unread(Batch({u}, [], [u], later, [], g, false), [Request(f, [t]), Request(g, [u])])
  {
    var s := Unread(Batch({t}, [], [t], now, [], f, false), [Request(f, [t])]);
    var queued := UnreadNext(s, Queue(Parked(g, u)));
    assert queued == Unread(Batch({t, u}, [u], [t], now, [], g, true), [Request(f, [t])]);
    WatchdogAlone(queued, u, later);
    assert AnsweredLast(queued.batch) == Batch({u}, [u], [], 0, [], g, true);
    TakenAlone(AnsweredLast(queued.batch), later);
  }

  /** A reply that comes after its batch was given up unmarks the post of the batch sent since. */
  lemma LateReplyLosesMark(f: Snowflake, t: Snowflake, g: Snowflake, u: Snowflake, now: int, later: int)
    returns (sent: Unread, after: Unread)
    requires f != INVALID && g != INVALID && t != u && later - now >= UNREAD_REPLY_TIMEOUT_MS
    ensures var es := [Queue(Parked(f, t))] + [Flush(now)] + [Queue(Parked(g, u))] + [Watchdog(later)];
            ValidUnread(es) && sent == UnreadRun(es)
    ensures sent.unanswered == [Request(f, [t]), Request(g, [u])]
    ensures !ClearsExactly(sent, 0) && ClearsExactly(sent, 1)
    ensures sent.batch.lastTaken == [u] && u in sent.batch.requested
    ensures after == UnreadNext(sent, Reply(0, [t], later)) && after.unanswered == [Request(g, [u])]
    ensures after.batch.lastTaken == [] && u !in after.batch.requested
  {
    RunFour(Queue(Parked(f, t)), Flush(now), Queue(Parked(g, u)), Watchdog(later));
    AskedAndSent(f, t, now);
    GivenUpAndSent(f, t, g, u, now, later);
    sent := Unread(Batch({u}, [], [u], later, [], g, false), [Request(f, [t]), Request(g, [u])]);
    ReplyUnmarks(sent, u, [t], later);
    after := UnreadNext(sent, Reply(0, [t], later));
  }

  lemma ReplyUnmarks(sent: Unread, u: Snowflake, threads: seq<Snowflake>, now: int)
    requires u in sent.batch.lastTaken && sent.batch.pending == [] && sent.batch.overflow == [] && sent.unanswered != []
    ensures var after := UnreadNext(sent, Reply(0, threads, now));
            after.unanswered == sent.unanswered[1..] && after.batch.lastTaken == [] && u !in after.batch.requested
  {
    var b := AnsweredLast(sent.batch);
    ForgottenStaysEmpty(b, threads, u);
    assert sent.unanswered[..0] + sent.unanswered[1..] + [] == sent.unanswered[1..];
  }

  lemma {:induction false} ForgottenStaysEmpty(b: Batch, threads: seq<Snowflake>, u: Snowflake)
    requires b.pending == [] && b.overflow == [] && u !in b.requested
    ensures var c := AllForgotten(b, threads);
            c.pending == [] && c.overflow == [] && c.lastTaken == b.lastTaken && u !in c.requested
    decreases |threads|
  {
    if threads != [] {
      ForgottenStaysEmpty(Forgotten(b, threads[0]), threads[1..], u);
    }
  }

  // ------------------------------------------------------------------
  // The code
  // ------------------------------------------------------------------

  class RequestBatch {
    var requested: set<Snowflake>
    var pending: seq<Snowflake>
    var lastTaken: seq<Snowflake>
    var outstandingSince: int
    var overflow: seq<Parked>
    var forumId: Snowflake
    var flushScheduled: bool

    ghost function View(): Batch
      reads this
    {
      Batch(requested, pending, lastTaken, outstandingSince, overflow, forumId, flushScheduled)
    }

    constructor ()
      ensures View() == EMPTY
    {
      requested, pending, lastTaken, outstandingSince := {}, [], [], 0;
      overflow, forumId, flushScheduled := [], INVALID, false;
    }

    /** Queues or parks a request; true when the caller must schedule a flush. */
    method Add(forum: Snowflake, threadId: Snowflake) returns (schedule: bool)
      modifies this`requested, this`pending, this`overflow, this`forumId, this`flushScheduled
      ensures View() == Added(old(View()), Parked(forum, threadId))
      ensures schedule == AddSchedules(old(View()), Parked(forum, threadId))
    {
      if threadId in requested {
        return false;
      }
      if pending != [] && forumId != forum {
        overflow := overflow + [Parked(forum, threadId)];
        return false;
      }
      requested := requested + {threadId};
      pending := pending + [threadId];
      forumId := forum;
      if flushScheduled {
        return false;
      }
      flushScheduled := true;
      return true;
    }

    /** Hands out the pending ids and queues the parked requests again. */
    method Take(now: int) returns (outForumId: Snowflake, ids: seq<Snowflake>)
      modifies this
      ensures View() == Taken(old(View()), now)
      ensures outForumId == old(forumId) && ids == old(pending)
    {
      flushScheduled := false;
      outForumId := forumId;
      ids := pending;
      pending := [];
      if overflow != [] {
        var parked := overflow;
        overflow := [];
        ghost var emptied := View();
        var i := 0;
        assert parked[0..] == parked;
        while i < |parked|
          invariant 0 <= i <= |parked|
          invariant Requeued(View(), parked[i..]) == Requeued(emptied, parked)
          invariant lastTaken == old(lastTaken) && outstandingSince == old(outstandingSince)
        {
          assert parked[i..][1..] == parked[i + 1..];
          var _ := Add(parked[i].forum, parked[i].thread);
          i := i + 1;
        }
      }
      lastTaken := ids;
      if ids != [] {
        outstandingSince := now;
      }
    }

    method Forget(threadId: Snowflake)
      modifies this`requested, this`pending, this`overflow
      ensures View() == Forgotten(old(View()), threadId)
    {
      requested := requested - {threadId};
      pending := RemoveFirst(pending, threadId);
      var i := |overflow|;
      ghost var kept: seq<Parked> := [];
      while i > 0
        invariant 0 <= i <= |overflow|
        invariant overflow == old(overflow)[..i] + kept
        invariant i <= |old(overflow)| && kept == WithoutThread(old(overflow)[i..], threadId)
        invariant requested == old(requested) - {threadId} && pending == RemoveFirst(old(pending), threadId)
      {
        i := i - 1;
        ghost var x := old(overflow)[i];
        assert old(overflow)[i..][1..] == old(overflow)[i + 1..];
        CutOut(old(overflow)[..i], x, kept);
        assert old(overflow)[..i + 1] == old(overflow)[..i] + [x];
        if overflow[i].thread == threadId {
          overflow := overflow[..i] + overflow[i + 1..];
        } else {
          kept := [x] + kept;
        }
      }
    }

    method ForgetTaken(ids: seq<Snowflake>)
      modifies this`requested
      ensures View() == Answered(old(View()), ids)
    {
      var i := 0;
      while i < |ids|
        invariant 0 <= i <= |ids|
        invariant requested == old(requested) - set id | id in ids[..i]
      {
        requested := requested - {ids[i]};
        i := i + 1;
      }
      assert ids[..i] == ids;
    }

    method ForgetAllTaken()
      modifies this`requested, this`lastTaken, this`outstandingSince
      ensures View() == AnsweredLast(old(View()))
    {
      ForgetTaken(lastTaken);
      lastTaken := [];
      outstandingSince := 0;
    }
  }

  class ForumManager {
    const starterBatch: RequestBatch
    const unreadBatch: RequestBatch
    var starterRequests: seq<Request>      // fetchForumPostData calls
    var unreadRequests: seq<Request>       // requestForumUnreads calls

    constructor ()
      ensures starterBatch.View() == EMPTY && unreadBatch.View() == EMPTY
      ensures starterRequests == [] && unreadRequests == []
    {
      starterBatch := new RequestBatch();
      unreadBatch := new RequestBatch();
      starterRequests, unreadRequests := [], [];
    }

    /** Drains every queued forum, each handout in pieces of at most ten ids. */
    method FlushStarterRequests(now: int)
      modifies this`starterRequests, starterBatch
      ensures starterBatch.View() == Drain(old(starterBatch.View()), now).batch
      ensures starterRequests ==
              old(starterRequests) + AllSent(Drain(old(starterBatch.View()), now).handouts, POST_DATA_BATCH)
    {
      ghost var start := Drain(starterBatch.View(), now);
      ghost var left := AllSent(start.handouts, POST_DATA_BATCH);   // what is still to be sent
      while starterBatch.pending != [] || starterBatch.overflow != []
        invariant Drain(starterBatch.View(), now).batch == start.batch
        invariant left == AllSent(Drain(starterBatch.View(), now).handouts, POST_DATA_BATCH)
        invariant starterRequests + left == old(starterRequests) + AllSent(start.handouts, POST_DATA_BATCH)
        decreases Load(starterBatch.View()), if starterBatch.pending == [] then 1 else 0
      {
        left := DrainSends(starterBatch.View(), now, starterRequests);
        var forumId, ids := starterBatch.Take(now);
        if ids == [] || forumId == INVALID {
          continue;
        }
        starterRequests := SendInPieces(starterRequests, forumId, ids, POST_DATA_BATCH);
      }
      assert left == [];
    }

    /** Sends the next forum's unread request, unless one is still awaited. */
    method FlushUnreadRequests(now: int)
      modifies this`unreadRequests, unreadBatch
      ensures unreadBatch.View() == UnreadFlushed(old(unreadBatch.View()), now).0
      ensures unreadRequests ==
              old(unreadRequests) + SentFor(UnreadFlushed(old(unreadBatch.View()), now).1, MAX_UNREAD_REQUEST)
    {
      if unreadBatch.lastTaken != [] {
        if now - unreadBatch.outstandingSince >= UNREAD_REPLY_TIMEOUT_MS {
          unreadBatch.ForgetAllTaken();
        } else {
          return;
        }
      }
      ghost var turn := UnreadTurn(unreadBatch.View(), now);
      while unreadBatch.pending != [] || unreadBatch.overflow != []
        invariant UnreadTurn(unreadBatch.View(), now) == turn
        invariant unreadRequests == old(unreadRequests)
        decreases Load(unreadBatch.View()), if unreadBatch.pending == [] then 1 else 0
      {
        TakeShrinks(unreadBatch.View(), now);
        var forumId, ids := unreadBatch.Take(now);
        if ids == [] || forumId == INVALID {
          continue;
        }
        unreadRequests := SendInPieces(unreadRequests, forumId, ids, MAX_UNREAD_REQUEST);
        return;
      }
    }

    /** The watchdog gives up a batch that is overdue and lets the next forum go. */
    method OnUnreadReplyTimeout(now: int)
      modifies this`unreadRequests, unreadBatch
      ensures var (b, h) := Turn(old(unreadBatch.View()), Watchdog(now));
              unreadBatch.View() == b && unreadRequests == old(unreadRequests) + SentFor(h, MAX_UNREAD_REQUEST)
    {
      if unreadBatch.lastTaken == [] {
        return;
      }
      if now - unreadBatch.outstandingSince < UNREAD_REPLY_TIMEOUT_MS {
        return;
      }
      unreadBatch.ForgetAllTaken();
      if unreadBatch.pending != [] || unreadBatch.overflow != [] {
        FlushUnreadRequests(now);
      }
    }

    /** A reply answers the batch awaited, forgets the threads it names, and lets the next forum go. */
    method OnForumUnreads(threads: seq<Snowflake>, now: int)
      modifies this`unreadRequests, unreadBatch
      ensures var answered := AllForgotten(AnsweredLast(old(unreadBatch.View())), threads);
              && unreadBatch.View() == Onward(answered, now).0
              && unreadRequests == old(unreadRequests) + SentFor(Onward(answered, now).1, MAX_UNREAD_REQUEST)
    {
      unreadBatch.ForgetAllTaken();
      ghost var b := unreadBatch.View();
      var i := 0;
      assert threads[0..] == threads;
      while i < |threads|
        invariant 0 <= i <= |threads|
        invariant AllForgotten(unreadBatch.View(), threads[i..]) == AllForgotten(b, threads)
        invariant unreadRequests == old(unreadRequests)
      {
        assert threads[i..][1..] == threads[i + 1..];
        unreadBatch.Forget(threads[i]);
        i := i + 1;
      }
      if unreadBatch.pending != [] || unreadBatch.overflow != [] {
        FlushUnreadRequests(now);
      }
    }
  }

  lemma CutOut(a: seq<Parked>, x: Parked, b: seq<Parked>)
    ensures var s := a + [x] + b; s[|a|] == x && s == a + ([x] + b) && s[..|a|] + s[|a| + 1..] == a + b
  {
  }

  /** One take of a drain: what it sends, then what is left to send. */
  lemma DrainSends(b: Batch, now: int, before: seq<Request>) returns (left: seq<Request>)
    requires HasPending(b)
    ensures var c := Taken(b, now);
            && left == AllSent(Drain(c, now).handouts, POST_DATA_BATCH)
            && Drain(b, now).batch == Drain(c, now).batch
            && before + AllSent(Drain(b, now).handouts, POST_DATA_BATCH) ==
               before + SentFor(Handout(b.forum, b.pending), POST_DATA_BATCH) + left
            && (SentFor(Handout(b.forum, b.pending), POST_DATA_BATCH) == [] ==>
                  before + AllSent(Drain(b, now).handouts, POST_DATA_BATCH) == before + left)
            && (Load(c) < Load(b) || (Load(c) == Load(b) && b.pending == [] && c.pending != []))
  {
    var c, rest := DrainUnfold(b, now);
    left := AllSent(rest.handouts, POST_DATA_BATCH);
    var sent := SentFor(Handout(b.forum, b.pending), POST_DATA_BATCH);
    ConcatAssociates(before, sent, left);
    if sent == [] {
      assert sent + left == left;
    }
  }

  /** Sending the next piece leaves the rest to be sent. */
  lemma PieceSent(before: seq<Request>, forum: Snowflake, ids: seq<Snowflake>, i: nat, n: nat)
    returns (left: seq<Request>)
    requires n > 0 && i < |ids|
    ensures var end := Min(i + n, |ids|);
            && i <= end <= |ids|
            && left == RequestsFor(forum, Chunks(ids[end..], n))
            && before + RequestsFor(forum, Chunks(ids[i..], n)) == before + [Request(forum, ids[i..end])] + left
  {
    var end, tail := Min(i + n, |ids|), ids[i..];
    left := RequestsFor(forum, Chunks(ids[end..], n));
    assert Min(n, |tail|) == end - i;
    assert tail[..end - i] == ids[i..end] && tail[end - i..] == ids[end..];
    assert Chunks(tail, n)[1..] == Chunks(ids[end..], n);
    ConcatAssociates(before, [Request(forum, ids[i..end])], left);
  }

  /** The piecewise send loop shared by both kinds of request. */
  method SendInPieces(requests: seq<Request>, forumId: Snowflake, ids: seq<Snowflake>, n: nat) returns (r: seq<Request>)
    requires n > 0
    ensures r == requests + RequestsFor(forumId, Chunks(ids, n))
  {
    r := requests;
    var i := 0;
    assert ids[0..] == ids;
    ghost var left := RequestsFor(forumId, Chunks(ids, n));
    ghost var all := r + left;
    while i < |ids|
      invariant 0 <= i
      invariant if i < |ids| then left == RequestsFor(forumId, Chunks(ids[i..], n)) else left == []
      invariant r + left == all
    {
      left := PieceSent(r, forumId, ids, i, n);
      r := r + [Request(forumId, ids[i..Min(i + n, |ids|)])];
      i := i + n;
    }
    assert r + [] == r;
  }
}
