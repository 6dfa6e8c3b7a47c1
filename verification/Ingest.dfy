/**
  The ingest thread (src/Discord/IngestThread.cpp): a bounded queue of compressed chunks
  tagged with a generation, and a worker that cuts them into payloads.

  `Next` is the step system: a step of the producer (push, reset) or of the worker
  (take a chunk from the queue, digest it) is one critical section or touches only what
  the worker owns.  `IngestThread` is the code.
*/
module Ingest {
  import opened Options
  import opened Sequences
  import opened StreamSplitter

  const MAX_QUEUED_BYTES := 4 * 1024 * 1024
  const MAX_QUEUED_MESSAGES := 1000
  const MAX_BUFFERED_BYTES := 16 * 1024 * 1024
  const RECV_BUFFER := 8192 // the most the network thread pushes at once

  datatype TaggedData = TaggedData(data: Bytes, generation: nat)

  /** zlib: does the stream that has consumed these payloads accept this one too? */
  type Inflater = (seq<Bytes>, Bytes) -> bool

  // ------------------------------------------------------------------
  // The worker
  // ------------------------------------------------------------------

  /**
    `stream` is what the open zlib stream has consumed, `output` every payload ever inflated.
    `clean` says that nothing has been lost since the last generation switch.
  */
  datatype Worker = Worker(generation: nat, pending: Bytes, streamActive: bool, stream: seq<Bytes>,
                           output: seq<Bytes>, errors: nat, clean: bool)

  /** How many of the payloads inflate before one fails. */
  ghost function Accepted(inflates: Inflater, stream: seq<Bytes>, payloads: seq<Bytes>): (k: nat)
    ensures k <= |payloads|
    decreases |payloads|
  {
    if payloads == [] || !inflates(stream, payloads[0]) then 0
    else 1 + Accepted(inflates, stream + [payloads[0]], payloads[1..])
  }

  ghost function SwitchTo(w: Worker, generation: nat): Worker {
    if generation == w.generation then w
    else w.(generation := generation, pending := [], streamActive := false, stream := [], clean := true)
  }

  /** The stream is broken: it is closed and the buffer dropped. */
  ghost function Broken(w: Worker): Worker {
    w.(pending := [], streamActive := false, stream := [], errors := w.errors + 1, clean := false)
  }

  ghost function Opened(w: Worker): Worker {
    if w.streamActive then w else w.(streamActive := true, stream := [])
  }

  /** The chunk breaks the stream: some payload it completes does not inflate, or what is left outgrows 16 MiB. */
  ghost predicate Breaks(inflates: Inflater, w: Worker, data: Bytes) {
    var payloads := Payloads(w.pending + data);
    Accepted(inflates, w.stream, payloads) < |payloads| || |Rest(w.pending + data)| > 16777216
  }

  /** A broken stream is announced once, closed and forgotten; any other chunk announces nothing and is kept. */
  lemma BreakIsAnnounced(inflates: Inflater, w: Worker, chunk: TaggedData)
    requires chunk.data != [] && chunk.generation == w.generation && w.streamActive
    ensures var u := Digested(inflates, w, chunk, true);
            && u.errors == w.errors + (if Breaks(inflates, w, chunk.data) then 1 else 0)
            && u.streamActive == !Breaks(inflates, w, chunk.data)
            && (Breaks(inflates, w, chunk.data) ==> u.pending == [] && u.stream == [])
            && (!Breaks(inflates, w, chunk.data) ==>
                  && u.stream == w.stream + Payloads(w.pending + chunk.data)
                  && u.output == w.output + Payloads(w.pending + chunk.data)
                  && u.pending == Rest(w.pending + chunk.data))
  {
    var payloads := Payloads(w.pending + chunk.data);
    assert payloads[..|payloads|] == payloads;
  }

  /** Where no stream is open one is opened first, from nothing, if zlib can be initialised; empty chunks do nothing. */
  lemma FirstChunkOpens(inflates: Inflater, w: Worker, chunk: TaggedData)
    requires chunk.generation == w.generation && !w.streamActive
    ensures chunk.data != [] ==>
              Digested(inflates, w, chunk, true)
              == Digested(inflates, w.(streamActive := true, stream := []), chunk, true)
    ensures chunk.data == [] ==> Digested(inflates, w, chunk, true) == w
    ensures var u := Digested(inflates, w, chunk, false);
            u.errors == w.errors && u.output == w.output && u.pending == w.pending && !u.streamActive
  {
  }

  /** Every complete payload in the buffer is inflated, up to the first that fails. */
  ghost function Drained(inflates: Inflater, w: Worker): Worker {
    var payloads := Payloads(w.pending);
    var k := Accepted(inflates, w.stream, payloads);
    var fed := w.(stream := w.stream + payloads[..k], output := w.output + payloads[..k], pending := Rest(w.pending));
    if k < |payloads| || |Rest(w.pending)| > MAX_BUFFERED_BYTES then Broken(fed) else fed
  }

  /** The effect of feeding `data` to an open stream. */
  ghost function Fed(inflates: Inflater, w: Worker, data: Bytes): Worker {
    Drained(inflates, w.(pending := w.pending + data))
  }

  /** One chunk: a new generation resets the worker; `initOk` says whether zlib could be initialised. */
  ghost function Digested(inflates: Inflater, w: Worker, chunk: TaggedData, initOk: bool): Worker {
    var current := SwitchTo(w, chunk.generation);
    if chunk.data == [] then current
    else if !current.streamActive && !initOk then current.(clean := false)
    else Fed(inflates, Opened(current), chunk.data)
  }

  // ------------------------------------------------------------------
  // The whole thread
  // ------------------------------------------------------------------

  /**
    `hand` is the chunk taken from the queue and not yet digested.  Three histories are kept for
    the statements only: what was pushed since the last reset, how many of those chunks were dropped,
    and every chunk digested.
  */
  datatype Thread = Thread(queue: seq<TaggedData>, queuedBytes: int, generation: nat, hand: Option<TaggedData>,
                           worker: Worker, pushed: seq<Bytes>, dropped: nat, consumed: seq<TaggedData>)

  datatype Event = Push(data: Bytes) | Reset | Take | Digest(initOk: bool)

  ghost function TotalBytes(queue: seq<TaggedData>): nat {
    if queue == [] then 0 else |queue[0].data| + TotalBytes(queue[1..])
  }

  predicate OverCap(count: nat, bytes: int) {
    (bytes > MAX_QUEUED_BYTES || count > MAX_QUEUED_MESSAGES) && count > 1
  }

  /** How many of the oldest chunks must go. */
  ghost function Overflow(queue: seq<TaggedData>, bytes: int): (k: nat)
    ensures k <= |queue| && (queue != [] ==> k < |queue|)
  {
    if OverCap(|queue|, bytes) then 1 + Overflow(queue[1..], bytes - |queue[0].data|) else 0
  }

  ghost function Pushed(t: Thread, data: Bytes): Thread {
    var queue := t.queue + [TaggedData(data, t.generation)];
    var bytes := t.queuedBytes + |data|;
    var k := Overflow(queue, bytes);
    t.(queue := queue[k..], queuedBytes := bytes - TotalBytes(queue[..k]),
       pushed := t.pushed + [data], dropped := t.dropped + k)
  }

  ghost predicate Enabled(t: Thread, e: Event) {
    match e
    case Take => t.queue != [] && t.hand.None?
    case Digest(_) => t.hand.Some?
    case _ => true
  }

  ghost function Next(inflates: Inflater, t: Thread, e: Event): Thread
    requires Enabled(t, e)
  {
    match e
    case Push(data) => Pushed(t, data)
    case Reset => t.(generation := t.generation + 1, queue := [], queuedBytes := 0, pushed := [], dropped := 0)
    case Take =>
      t.(hand := Some(t.queue[0]), queue := t.queue[1..], queuedBytes := t.queuedBytes - |t.queue[0].data|)
    case Digest(initOk) =>
      t.(hand := None, worker := Digested(inflates, t.worker, t.hand.value, initOk),
         consumed := t.consumed + [t.hand.value])
  }

  const INITIAL := Thread([], 0, 0, None, Worker(0, [], false, [], [], 0, true), [], 0, [])

  ghost predicate ValidRun(inflates: Inflater, es: seq<Event>)
    decreases |es|, 0
  {
    es != [] ==> ValidRun(inflates, es[..|es| - 1]) && Enabled(Run(inflates, es[..|es| - 1]), es[|es| - 1])
  }

  ghost function Run(inflates: Inflater, es: seq<Event>): Thread
    requires ValidRun(inflates, es)
    decreases |es|, 1
  {
    if es == [] then INITIAL else Next(inflates, Run(inflates, es[..|es| - 1]), es[|es| - 1])
  }

  /** The chunks of one generation, in the order they were digested. */
  ghost function OfGeneration(chunks: seq<TaggedData>, g: nat): seq<Bytes>
    decreases |chunks|
  {
    if chunks == [] then []
    else OfGeneration(chunks[..|chunks| - 1], g)
         + if chunks[|chunks| - 1].generation == g then [chunks[|chunks| - 1].data] else []
  }

  ghost function InHand(t: Thread): seq<TaggedData> {
    if t.hand.Some? then [t.hand.value] else []
  }

  ghost predicate IsSuffix<T>(a: seq<T>, b: seq<T>) {
    |a| <= |b| && a == b[|b| - |a|..]
  }

  /** The queue: exact byte count, current generation only, the newest pushes, within both caps or a single chunk. */
  ghost predicate QueueInv(t: Thread) {
    Kept(t.queue, t.queuedBytes, t.generation, t.pushed)
  }

  ghost predicate Kept(queue: seq<TaggedData>, bytes: int, g: nat, pushed: seq<Bytes>) {
    Counted(queue, bytes, g, pushed) && !OverCap(|queue|, bytes)
  }

  ghost predicate Counted(queue: seq<TaggedData>, bytes: int, g: nat, pushed: seq<Bytes>) {
    && bytes == TotalBytes(queue)
    && (forall c :: c in queue ==> c.generation == g)
    && NewestOf(queue, pushed)
  }

  /** Generations reach the worker in order. */
  ghost predicate OrderInv(t: Thread) {
    && (t.hand.Some? ==> t.worker.generation <= t.hand.value.generation <= t.generation)
    && t.worker.generation <= t.generation
    && (forall c :: c in t.consumed ==> c.generation <= t.worker.generation)
  }

  /**
    The buffer only ever holds the latest bytes of the worker's own generation, and while nothing
    was lost the open stream has consumed exactly the payloads of that generation.
  */
  ghost predicate WorkerInv(w: Worker, received: Bytes) {
    && IsSuffix(w.pending, received)
    && NoMarker(w.pending)
    && (w.clean ==> IsSplit(received, w.stream, w.pending))
    && (!w.streamActive ==> w.stream == [] && w.pending == [])
    && (w.clean && !w.streamActive ==> received == [])
  }

  /** Between push and digestion chunks are neither lost nor reordered, except those dropped from the queue. */
  ghost predicate FlowInv(t: Thread) {
    var done := OfGeneration(t.consumed + InHand(t), t.generation);
    && |done| + t.dropped + |t.queue| == |t.pushed|
    && (t.dropped == 0 ==> done == t.pushed[..|t.pushed| - |t.queue|])
  }

  ghost function Received(t: Thread): Bytes {
    Concat(OfGeneration(t.consumed, t.worker.generation))
  }

  // ------------------------------------------------------------------
  // What every step keeps
  // ------------------------------------------------------------------

  lemma {:induction false} TotalBytesSplit(queue: seq<TaggedData>, k: nat)
    requires k <= |queue|
    ensures TotalBytes(queue) == TotalBytes(queue[..k]) + TotalBytes(queue[k..])
  {
    if k == 0 {
      assert queue[0..] == queue;
    } else {
      assert queue[..k][1..] == queue[1..][..k - 1];
      assert queue[1..][k - 1..] == queue[k..];
      TotalBytesSplit(queue[1..], k - 1);
    }
  }

  lemma {:induction false} OverflowClears(queue: seq<TaggedData>, bytes: int)
    ensures var k := Overflow(queue, bytes); !OverCap(|queue| - k, bytes - TotalBytes(queue[..k]))
  {
    var k := Overflow(queue, bytes);
    if k > 0 {
      OverflowClears(queue[1..], bytes - |queue[0].data|);
      assert queue[..k][1..] == queue[1..][..k - 1];
    }
  }

  /** The queue holds the newest of the chunks pushed. */
  ghost predicate NewestOf(queue: seq<TaggedData>, pushed: seq<Bytes>) {
    && |queue| <= |pushed|
    && forall i :: 0 <= i < |queue| ==> queue[i].data == pushed[|pushed| - |queue| + i]
  }

  lemma AppendKeepsNewest(queue: seq<TaggedData>, bytes: int, g: nat, pushed: seq<Bytes>, data: Bytes)
    requires Counted(queue, bytes, g, pushed)
    ensures Counted(queue + [TaggedData(data, g)], bytes + |data|, g, pushed + [data])
  {
    var last := TaggedData(data, g);
    var all := queue + [last];
    TotalBytesSplit(all, |queue|);
    assert all[..|queue|] == queue && all[|queue|..] == [last];
    assert TotalBytes([last]) == |data| by { assert [last][1..] == []; }
  }

  lemma AppendAndDropKeeps(queue: seq<TaggedData>, bytes: int, g: nat, pushed: seq<Bytes>, data: Bytes)
    requires Kept(queue, bytes, g, pushed)
    ensures var all := queue + [TaggedData(data, g)];
            var k := Overflow(all, bytes + |data|);
            Kept(all[k..], bytes + |data| - TotalBytes(all[..k]), g, pushed + [data])
  {
    AppendKeepsNewest(queue, bytes, g, pushed, data);
    DropKeepsQueue(queue + [TaggedData(data, g)], bytes + |data|, pushed + [data], g);
  }

  lemma PushKeepsQueue(t: Thread, data: Bytes)
    requires QueueInv(t)
    ensures QueueInv(Pushed(t, data))
  {
    AppendAndDropKeeps(t.queue, t.queuedBytes, t.generation, t.pushed, data);
  }

  lemma DropKeepsQueue(queue: seq<TaggedData>, bytes: int, pushed: seq<Bytes>, g: nat)
    requires Counted(queue, bytes, g, pushed)
    ensures var k := Overflow(queue, bytes);
            Kept(queue[k..], bytes - TotalBytes(queue[..k]), g, pushed)
  {
    var k := Overflow(queue, bytes);
    TotalBytesSplit(queue, k);
    OverflowClears(queue, bytes);
  }

  /** A stream fed one more chunk. */
  lemma FedKeeps(inflates: Inflater, w: Worker, data: Bytes, received: Bytes)
    requires WorkerInv(w, received) && w.streamActive
    ensures WorkerInv(Fed(inflates, w, data), received + data)
  {
    var buffer := w.pending + data;
    var payloads := Payloads(buffer);
    var k := Accepted(inflates, w.stream, payloads);
    PayloadsSplit(buffer);
    assert buffer == (received + data)[|received + data| - |buffer|..];
    assert Rest(buffer) == buffer[|buffer| - |Rest(buffer)|..];
    if k == |payloads| {
      assert payloads[..k] == payloads;
      if w.clean {
        SplitContinues(received, w.stream, w.pending, data, payloads, Rest(buffer));
      }
    }
  }

  lemma DigestedKeeps(inflates: Inflater, w: Worker, chunk: TaggedData, initOk: bool, received: Bytes)
    requires WorkerInv(w, received)
    ensures WorkerInv(Digested(inflates, w, chunk, initOk),
                      (if chunk.generation == w.generation then received else []) + chunk.data)
  {
    var current := SwitchTo(w, chunk.generation);
    var kept: Bytes := if chunk.generation == w.generation then received else [];
    assert IsSplit([], [], []);
    assert WorkerInv(current, kept);
    if chunk.data == [] {
      assert kept + chunk.data == kept;
    } else if current.streamActive || initOk {
      FedKeeps(inflates, Opened(current), chunk.data, kept);
    }
  }

  lemma {:induction false} OfGenerationAbove(chunks: seq<TaggedData>, g: nat)
    requires forall c :: c in chunks ==> c.generation < g
    ensures OfGeneration(chunks, g) == []
    decreases |chunks|
  {
    if chunks != [] {
      assert chunks[|chunks| - 1] in chunks;
      OfGenerationAbove(chunks[..|chunks| - 1], g);
    }
  }

  lemma OfGenerationAppend(chunks: seq<TaggedData>, c: TaggedData, g: nat)
    ensures OfGeneration(chunks + [c], g) == OfGeneration(chunks, g) + if c.generation == g then [c.data] else []
  {
    assert (chunks + [c])[..|chunks|] == chunks;
  }

  lemma PushKeepsFlow(t: Thread, data: Bytes)
    requires FlowInv(t)
    ensures FlowInv(Pushed(t, data))
  {
    var u := Pushed(t, data);
    assert InHand(u) == InHand(t);
    if u.dropped == 0 {
      assert u.pushed[..|u.pushed| - |u.queue|] == t.pushed[..|t.pushed| - |t.queue|];
    }
  }

  lemma ResetKeepsFlow(inflates: Inflater, t: Thread)
    requires OrderInv(t)
    ensures FlowInv(Next(inflates, t, Reset))
  {
    var chunks := t.consumed + InHand(t);
    forall c | c in chunks ensures c.generation < t.generation + 1 {
      assert c in t.consumed || c in InHand(t);
    }
    OfGenerationAbove(chunks, t.generation + 1);
  }

  lemma TakeKeepsFlow(inflates: Inflater, t: Thread)
    requires QueueInv(t) && FlowInv(t) && Enabled(t, Take)
    ensures FlowInv(Next(inflates, t, Take))
  {
    OfGenerationAppend(t.consumed, t.queue[0], t.generation);
    assert t.consumed + InHand(t) == t.consumed;
    var n := |t.pushed| - |t.queue|;
    assert t.pushed[..n + 1] == t.pushed[..n] + [t.pushed[n]];
  }

  /** What the worker's generation has received, after one more chunk. */
  lemma ReceivedAppend(consumed: seq<TaggedData>, c: TaggedData, last: nat)
    requires forall d :: d in consumed ==> d.generation <= last
    requires last <= c.generation
    ensures Concat(OfGeneration(consumed + [c], c.generation)) ==
            (if c.generation == last then Concat(OfGeneration(consumed, last)) else []) + c.data
  {
    OfGenerationAppend(consumed, c, c.generation);
    if c.generation != last {
      OfGenerationAbove(consumed, c.generation);
    }
    ConcatAppend(OfGeneration(consumed, c.generation), [c.data]);
    ConcatOne(c.data);
  }

  lemma DigestedGeneration(inflates: Inflater, w: Worker, chunk: TaggedData, initOk: bool)
    ensures Digested(inflates, w, chunk, initOk).generation == chunk.generation
  {
  }

  /** The chunk in hand digested: the worker is then right about everything its generation received. */
  lemma WorkerStep(inflates: Inflater, w: Worker, consumed: seq<TaggedData>, c: TaggedData, initOk: bool)
    requires forall d :: d in consumed ==> d.generation <= w.generation
    requires w.generation <= c.generation && WorkerInv(w, Concat(OfGeneration(consumed, w.generation)))
    ensures WorkerInv(Digested(inflates, w, c, initOk), Concat(OfGeneration(consumed + [c], c.generation)))
  {
    DigestedKeeps(inflates, w, c, initOk, Concat(OfGeneration(consumed, w.generation)));
    ReceivedAppend(consumed, c, w.generation);
  }

  /** Generations only grow on the way to the worker. */
  lemma {:induction false} RunsKeepOrder(inflates: Inflater, es: seq<Event>)
    requires ValidRun(inflates, es)
    ensures OrderInv(Run(inflates, es))
    ensures forall c :: c in Run(inflates, es).queue ==> c.generation == Run(inflates, es).generation
    decreases |es|
  {
    if es != [] {
      RunsKeepOrder(inflates, es[..|es| - 1]);
    }
  }

  lemma NextKeepsQueue(inflates: Inflater, t: Thread, e: Event)
    requires QueueInv(t) && Enabled(t, e)
    ensures QueueInv(Next(inflates, t, e))
  {
    match e
    case Push(data) => PushKeepsQueue(t, data);
    case Reset =>
    case Take =>
    case Digest(_) =>
  }

  /** The queue is the newest pushes of this generation, counted exactly and within the caps. */
  lemma {:induction false} RunsKeepQueue(inflates: Inflater, es: seq<Event>)
    requires ValidRun(inflates, es)
    ensures QueueInv(Run(inflates, es))
    decreases |es|
  {
    if es != [] {
      RunsKeepQueue(inflates, es[..|es| - 1]);
      NextKeepsQueue(inflates, Run(inflates, es[..|es| - 1]), es[|es| - 1]);
    }
  }

  /** Chunks flow from push to digestion in order, and only overflow loses them. */
  lemma {:induction false} RunsKeepFlow(inflates: Inflater, es: seq<Event>)
    requires ValidRun(inflates, es)
    ensures FlowInv(Run(inflates, es))
    decreases |es|
  {
    if es != [] {
      var t := Run(inflates, es[..|es| - 1]);
      RunsKeepFlow(inflates, es[..|es| - 1]);
      RunsKeepOrder(inflates, es[..|es| - 1]);
      match es[|es| - 1] {
        case Push(data) => PushKeepsFlow(t, data);
        case Reset => ResetKeepsFlow(inflates, t);
        case Take =>
          RunsKeepQueue(inflates, es[..|es| - 1]);
          TakeKeepsFlow(inflates, t);
        case Digest(_) => assert t.consumed + [t.hand.value] + [] == t.consumed + InHand(t);
      }
    }
  }

  /** `a` is what is left of `b` after dropping some of it. */
  ghost predicate Subsequence(a: seq<TaggedData>, b: seq<TaggedData>)
    decreases |b|
  {
    a == []
    || (b != []
        && (Subsequence(a, b[..|b| - 1])
            || (a[|a| - 1] == b[|b| - 1] && Subsequence(a[..|a| - 1], b[..|b| - 1]))))
  }

  lemma SubsequenceAppend(a: seq<TaggedData>, b: seq<TaggedData>, c: TaggedData)
    requires Subsequence(a, b)
    ensures Subsequence(a + [c], b + [c])
  {
    assert (a + [c])[..|a|] == a && (b + [c])[..|b|] == b;
  }

  /** Dropping a stretch from the middle leaves a subsequence. */
  lemma {:induction false} SubsequenceDrop(a: seq<TaggedData>, b: seq<TaggedData>, c: seq<TaggedData>,
                                           h: seq<TaggedData>)
    requires Subsequence(a + b + c, h)
    ensures Subsequence(a + c, h)
    decreases |h|
  {
    var whole := a + b + c;
    if h != [] && a + c != [] {
      var before := h[..|h| - 1];
      if Subsequence(whole, before) {
        SubsequenceDrop(a, b, c, before);
      } else if c != [] {
        assert whole[..|whole| - 1] == a + b + c[..|c| - 1];
        SubsequenceDrop(a, b, c[..|c| - 1], before);
        assert (a + c)[..|a + c| - 1] == a + c[..|c| - 1];
      } else if b != [] {
        assert whole[..|whole| - 1] == a + b[..|b| - 1] + [];
        SubsequenceDrop(a, b[..|b| - 1], [], before);
        assert a + [] == a + c;
      } else {
        assert whole == a + c;
      }
    }
  }

  // ------------------------------------------------------------------
  // Chunks are dropped only when they must be
  // ------------------------------------------------------------------

  lemma {:induction false} OverflowNeeded(queue: seq<TaggedData>, bytes: int)
    ensures var k := Overflow(queue, bytes);
            k > 0 ==> OverCap(|queue| - (k - 1), bytes - TotalBytes(queue[..k - 1]))
  {
    var k := Overflow(queue, bytes);
    if k > 1 {
      OverflowNeeded(queue[1..], bytes - |queue[0].data|);
      assert queue[..k - 1][1..] == queue[1..][..k - 2];
    }
  }

  lemma OverflowIsNeeded(queue: seq<TaggedData>)
    requires queue != []
    ensures var k := Overflow(queue, TotalBytes(queue));
            && k < |queue|
            && (k > 0 ==> |queue[k - 1..]| > 1000 || TotalBytes(queue[k - 1..]) > 4194304)
            && (|queue[k..]| == 1 || (|queue[k..]| <= 1000 && TotalBytes(queue[k..]) <= 4194304))
  {
    var bytes := TotalBytes(queue);
    var k := Overflow(queue, bytes);
    OverflowNeeded(queue, bytes);
    OverflowClears(queue, bytes);
    TotalBytesSplit(queue, k);
    if k > 0 {
      TotalBytesSplit(queue, k - 1);
    }
  }

  lemma TotalBytesAppend(queue: seq<TaggedData>, c: TaggedData)
    ensures TotalBytes(queue + [c]) == TotalBytes(queue) + |c.data|
  {
    TotalBytesSplit(queue + [c], |queue|);
    assert (queue + [c])[..|queue|] == queue && (queue + [c])[|queue|..] == [c] && [c][1..] == [];
  }

  /**
    A push drops the `k` oldest chunks. It had to: with the last of them put back the queue holds more than
    1000 chunks or more than 4 MiB; and what stays is within both caps or a single chunk.
  */
  lemma PushDropsOnlyWhatItMust(t: Thread, data: Bytes) returns (k: nat)
    requires t.queuedBytes == TotalBytes(t.queue)
    ensures var u, all := Pushed(t, data), t.queue + [TaggedData(data, t.generation)];
            && k < |all| && u.queue == all[k..] && u.dropped == t.dropped + k
            && (k > 0 ==> |all[k - 1..]| > 1000 || TotalBytes(all[k - 1..]) > 4194304)
            && (|u.queue| == 1 || (|u.queue| <= 1000 && TotalBytes(u.queue) <= 4194304))
  {
    var c := TaggedData(data, t.generation);
    TotalBytesAppend(t.queue, c);
    OverflowIsNeeded(t.queue + [c]);
    k := Overflow(t.queue + [c], t.queuedBytes + |data|);
  }

  lemma {:induction false} BytesOfNewest(queue: seq<TaggedData>, pushed: seq<Bytes>)
    requires NewestOf(queue, pushed)
    ensures TotalBytes(queue) <= |Concat(pushed)|
    decreases |pushed|
  {
    if pushed != [] {
      if |queue| == |pushed| {
        assert queue[0].data == pushed[0];
        assert NewestOf(queue[1..], pushed[1..]);
        BytesOfNewest(queue[1..], pushed[1..]);
      } else {
        assert NewestOf(queue, pushed[1..]);
        BytesOfNewest(queue, pushed[1..]);
      }
    }
  }

  lemma SmallPushDropsNothing(t: Thread, data: Bytes)
    requires QueueInv(t)
    requires |t.pushed + [data]| <= 1000 && |Concat(t.pushed + [data])| <= 4194304
    ensures Pushed(t, data).dropped == t.dropped
  {
    var k := PushDropsOnlyWhatItMust(t, data);
    if k > 0 {
      var all := t.queue + [TaggedData(data, t.generation)];
      TotalBytesSplit(all, k - 1);
      AppendKeepsNewest(t.queue, t.queuedBytes, t.generation, t.pushed, data);
      BytesOfNewest(all, t.pushed + [data]);
      assert false;
    }
  }

  /** In every run nothing is dropped of a generation whose pushes together fit both caps. */
  lemma {:induction false} SmallGenerationsLoseNothing(inflates: Inflater, es: seq<Event>)
    requires ValidRun(inflates, es)
    requires |Run(inflates, es).pushed| <= 1000 && |Concat(Run(inflates, es).pushed)| <= 4194304
    ensures Run(inflates, es).dropped == 0
    decreases |es|
  {
    if es != [] {
      var before, e := es[..|es| - 1], es[|es| - 1];
      var t := Run(inflates, before);
      if e.Push? {
        ConcatAppend(t.pushed, [e.data]);
        RunsKeepQueue(inflates, before);
        SmallGenerationsLoseNothing(inflates, before);
        SmallPushDropsNothing(t, e.data);
      } else if !e.Reset? {
        SmallGenerationsLoseNothing(inflates, before);
      }
    }
  }

  /** Every chunk ever pushed, with its generation, in order. */
  ghost function Pushes(inflates: Inflater, es: seq<Event>): seq<TaggedData>
    requires ValidRun(inflates, es)
    decreases |es|
  {
    if es == [] then []
    else
      var before, e := es[..|es| - 1], es[|es| - 1];
      Pushes(inflates, before) + if e.Push? then [TaggedData(e.data, Run(inflates, before).generation)] else []
  }

  /** The chunks that have left the queue, and all chunks still on their way or past it. */
  ghost function Underway(t: Thread): seq<TaggedData> {
    t.consumed + InHand(t) + t.queue
  }

  lemma DropKeepsPushOrder(taken: seq<TaggedData>, queue: seq<TaggedData>, k: nat, h: seq<TaggedData>)
    requires k <= |queue| && Subsequence(taken + queue, h)
    ensures Subsequence(taken + queue[k..], h)
  {
    assert taken + queue == taken + queue[..k] + queue[k..];
    SubsequenceDrop(taken, queue[..k], queue[k..], h);
  }

  lemma PushKeepsPushOrder(t: Thread, data: Bytes, h: seq<TaggedData>)
    requires Subsequence(Underway(t), h)
    ensures Subsequence(Underway(Pushed(t, data)), h + [TaggedData(data, t.generation)])
  {
    var c := TaggedData(data, t.generation);
    var taken, queue := t.consumed + InHand(t), t.queue + [c];
    SubsequenceAppend(Underway(t), h, c);
    ConcatAssociates(taken, t.queue, [c]);
    DropKeepsPushOrder(taken, queue, Overflow(queue, t.queuedBytes + |data|), h + [c]);
  }

  lemma OtherKeepsPushOrder(inflates: Inflater, t: Thread, e: Event, h: seq<TaggedData>)
    requires Enabled(t, e) && !e.Push? && Subsequence(Underway(t), h)
    ensures Subsequence(Underway(Next(inflates, t, e)), h)
  {
    var taken, u := t.consumed + InHand(t), Next(inflates, t, e);
    match e {
      case Reset =>
        assert Underway(t) == taken + t.queue + [];
        SubsequenceDrop(taken, t.queue, [], h);
        assert Underway(u) == taken + [];
      case Take => assert Underway(u) == Underway(t);
      case Digest(_) => assert Underway(u) == Underway(t);
    }
  }

  /** Whatever is dropped, the chunks digested, in hand and queued are pushed chunks in the order of their pushes. */
  lemma {:induction false} RunsKeepPushOrder(inflates: Inflater, es: seq<Event>)
    requires ValidRun(inflates, es)
    ensures Subsequence(Underway(Run(inflates, es)), Pushes(inflates, es))
    decreases |es|
  {
    if es != [] {
      var before, e := es[..|es| - 1], es[|es| - 1];
      RunsKeepPushOrder(inflates, before);
      if e.Push? {
        PushKeepsPushOrder(Run(inflates, before), e.data, Pushes(inflates, before));
      } else {
        OtherKeepsPushOrder(inflates, Run(inflates, before), e, Pushes(inflates, before));
        assert Pushes(inflates, before) + [] == Pushes(inflates, before);
      }
    }
  }

  /** The worker's buffer never mixes generations, and a clean stream has consumed exactly what it should. */
  lemma {:induction false} RunsKeepWorker(inflates: Inflater, es: seq<Event>)
    requires ValidRun(inflates, es)
    ensures WorkerInv(Run(inflates, es).worker, Received(Run(inflates, es)))
    decreases |es|
  {
    if es == [] {
      assert IsSplit([], [], []);
    } else {
      RunsKeepWorker(inflates, es[..|es| - 1]);
      RunsKeepOrder(inflates, es[..|es| - 1]);
      var t, e := Run(inflates, es[..|es| - 1]), es[|es| - 1];
      if e.Digest? {
        DigestedGeneration(inflates, t.worker, t.hand.value, e.initOk);
        WorkerStep(inflates, t.worker, t.consumed, t.hand.value, e.initOk);
      }
    }
  }

  // ------------------------------------------------------------------
  // Chunk boundaries
  // ------------------------------------------------------------------

  /** One generation digested chunk by chunk, zlib always initialising. */
  ghost function DigestAll(inflates: Inflater, chunks: seq<Bytes>): Worker
    decreases |chunks|
  {
    if chunks == [] then INITIAL.worker
    else Digested(inflates, DigestAll(inflates, chunks[..|chunks| - 1]), TaggedData(chunks[|chunks| - 1], 0), true)
  }

  /** What is left over after each chunk fits the 16 MiB buffer. */
  ghost predicate RestsFit(chunks: seq<Bytes>)
    decreases |chunks|
  {
    chunks != [] ==> RestsFit(chunks[..|chunks| - 1]) && |Rest(Concat(chunks))| <= 16777216
  }

  /** No payload of the whole stream fails, and the buffer never overflows. */
  ghost predicate Sound(inflates: Inflater, chunks: seq<Bytes>) {
    var payloads := Payloads(Concat(chunks));
    Accepted(inflates, [], payloads) == |payloads| && RestsFit(chunks)
  }

  lemma {:induction false} AcceptedConcat(inflates: Inflater, stream: seq<Bytes>, a: seq<Bytes>, b: seq<Bytes>)
    ensures Accepted(inflates, stream, a + b) == |a + b| <==>
            Accepted(inflates, stream, a) == |a| && Accepted(inflates, stream + a, b) == |b|
    decreases |a|
  {
    if a == [] {
      assert a + b == b && stream + a == stream;
    } else {
      assert (a + b)[1..] == a[1..] + b;
      assert stream + [a[0]] + a[1..] == stream + a;
      AcceptedConcat(inflates, stream + [a[0]], a[1..], b);
    }
  }

  lemma SoundStep(inflates: Inflater, before: seq<Bytes>, c: Bytes)
    ensures var s := Concat(before);
            && Concat(before + [c]) == s + c
            && (Sound(inflates, before + [c]) <==>
                && Sound(inflates, before)
                && Accepted(inflates, Payloads(s), Payloads(Rest(s) + c)) == |Payloads(Rest(s) + c)|
                && |Rest(Rest(s) + c)| <= MAX_BUFFERED_BYTES)
  {
    var s, chunks := Concat(before), before + [c];
    ConcatAppend(before, [c]);
    ConcatOne(c);
    PayloadsExtend(s, c);
    AcceptedConcat(inflates, [], Payloads(s), Payloads(Rest(s) + c));
    assert [] + Payloads(s) == Payloads(s);
    assert chunks[..|before|] == before;
  }

  /** The worker of a generation that has received `s`, while nothing was lost. */
  ghost predicate CleanWith(w: Worker, s: Bytes) {
    && (w.clean ==> w.stream == Payloads(s) && w.pending == Rest(s) && |Rest(s)| <= MAX_BUFFERED_BYTES)
    && (w.clean && !w.streamActive ==> s == [])
    && (s == [] ==> w.clean && !w.streamActive)
  }

  /** The first bytes of a generation meet a zlib that cannot be initialised. */
  predicate LostAtInit(s: Bytes, c: Bytes, initOk: bool) {
    s == [] && c != [] && !initOk
  }

  /** An open stream fed one more chunk. */
  lemma FedClean(inflates: Inflater, w: Worker, s: Bytes, c: Bytes)
    requires w.streamActive && c != []
    requires w.clean ==> w.stream == Payloads(s) && w.pending == Rest(s)
    ensures var u, payloads := Fed(inflates, w, c), Payloads(Rest(s) + c);
            && CleanWith(u, s + c)
            && (u.clean <==> w.clean && Accepted(inflates, Payloads(s), payloads) == |payloads|
                             && |Rest(Rest(s) + c)| <= MAX_BUFFERED_BYTES)
            && u.generation == w.generation
  {
    PayloadsExtend(s, c);
    var payloads := Payloads(Rest(s) + c);
    assert payloads[..|payloads|] == payloads;
    assert s + c != [];
  }

  /** One more chunk of the same generation. */
  lemma CleanStep(inflates: Inflater, w: Worker, s: Bytes, c: Bytes, initOk: bool)
    requires CleanWith(w, s)
    ensures var u := Digested(inflates, w, TaggedData(c, w.generation), initOk);
            && CleanWith(u, s + c)
            && (u.clean <==> && w.clean && !LostAtInit(s, c, initOk)
                             && Accepted(inflates, Payloads(s), Payloads(Rest(s) + c)) == |Payloads(Rest(s) + c)|
                             && |Rest(Rest(s) + c)| <= MAX_BUFFERED_BYTES)
            && u.generation == w.generation
  {
    if c == [] {
      PayloadsExtend(s, c);
      assert s + c == s && Rest(s) + c == Rest(s);
      var none := Payloads(Rest(s));
      assert Payloads(s) + none == Payloads(s);
    } else if w.streamActive || initOk {
      assert s == [] ==> Payloads(s) == [];
      FedClean(inflates, Opened(w), s, c);
    } else {
      assert s + c != [];
    }
  }

  lemma FreshIsClean(g: nat, output: seq<Bytes>, errors: nat)
    ensures CleanWith(Worker(g, [], false, [], output, errors, true), [])
  {
    assert IsSplit([], [], []);
    SplitIsPayloads([], [], []);
  }

  lemma NothingIsSound(inflates: Inflater)
    ensures Sound(inflates, [])
  {
    FreshIsClean(0, [], 0);
  }

  /** Since `base` the worker has put out the payloads of `s`, and it buffers the rest. */
  ghost predicate Delivered(w: Worker, base: nat, s: Bytes) {
    base <= |w.output| && w.output[base..] == Payloads(s) && w.pending == Rest(s)
  }

  /** Output since `base` and buffer hold no more bytes than were received, and fewer once something was lost. */
  ghost predicate Accounted(w: Worker, base: nat, s: Bytes) {
    && base <= |w.output|
    && (w.clean ==> w.output[base..] == w.stream)
    && |Concat(w.output[base..])| + |w.pending| <= |s|
    && (!w.clean ==> |Concat(w.output[base..])| + |w.pending| < |s|)
  }

  lemma DeliveredIffClean(w: Worker, base: nat, s: Bytes)
    requires CleanWith(w, s) && Accounted(w, base, s)
    ensures Delivered(w, base, s) <==> w.clean
  {
    PayloadsSplit(s);
    assert |s| == |Concat(Payloads(s))| + |Rest(s)|;
  }

  lemma ConcatSplitAt(payloads: seq<Bytes>, k: nat)
    requires k <= |payloads|
    ensures |Concat(payloads)| == |Concat(payloads[..k])| + |Concat(payloads[k..])|
    ensures k < |payloads| ==> |Concat(payloads[k..])| >= |payloads[k]|
  {
    assert payloads == payloads[..k] + payloads[k..];
    ConcatAppend(payloads[..k], payloads[k..]);
  }

  /** Feeding an open stream loses no byte unless it breaks. */
  lemma FedAccounted(inflates: Inflater, w: Worker, data: Bytes, base: nat, s: Bytes)
    requires Accounted(w, base, s)
    ensures Accounted(Fed(inflates, w, data), base, s + data)
  {
    var buffer := w.pending + data;
    var payloads := Payloads(buffer);
    var k := Accepted(inflates, w.stream, payloads);
    PayloadsSplit(buffer);
    ConcatSplitAt(payloads, k);
    var before, now := w.output[base..], payloads[..k];
    ConcatAppend(before, now);
    assert (w.output + now)[base..] == before + now;
    if k < |payloads| {
      assert payloads[k] in payloads && Payload(payloads[k]);
    }
  }

  lemma DigestedAccounted(inflates: Inflater, w: Worker, c: Bytes, initOk: bool, base: nat, s: Bytes)
    requires CleanWith(w, s) && Accounted(w, base, s)
    ensures Accounted(Digested(inflates, w, TaggedData(c, w.generation), initOk), base, s + c)
  {
    if c == [] {
      assert s + c == s;
    } else if w.streamActive || initOk {
      if w.clean && !w.streamActive {
        NoBytes();
      }
      FedAccounted(inflates, Opened(w), c, base, s);
    }
  }

  lemma NoBytes()
    ensures Payloads([]) == []
  {
    FreshIsClean(0, [], 0);
  }

  /**
    A generation digested in any chunks has put out the payloads of the undivided stream and buffers its rest
    exactly when no payload fails and the rest after each chunk fits the buffer.
  */
  lemma {:induction false} CleanIffSound(inflates: Inflater, chunks: seq<Bytes>)
    ensures var w, s := DigestAll(inflates, chunks), Concat(chunks);
            && (Delivered(w, 0, s) <==> Sound(inflates, chunks))
            && (w.clean <==> Sound(inflates, chunks))
            && CleanWith(w, s) && Accounted(w, 0, s) && w.generation == 0
    decreases |chunks|
  {
    if chunks == [] {
      FreshIsClean(0, [], 0);
      NothingIsSound(inflates);
      assert Accounted(INITIAL.worker, 0, []) by { assert Concat([]) == []; }
    } else {
      var before, c := chunks[..|chunks| - 1], chunks[|chunks| - 1];
      assert chunks == before + [c];
      CleanIffSound(inflates, before);
      SoundStep(inflates, before, c);
      CleanStep(inflates, DigestAll(inflates, before), Concat(before), c, true);
      DigestedAccounted(inflates, DigestAll(inflates, before), c, true, 0, Concat(before));
    }
    DeliveredIffClean(DigestAll(inflates, chunks), 0, Concat(chunks));
  }

  /** Are bytes of the worker's generation lost to a failed initialisation once the chunk in hand is digested? */
  ghost predicate LostNext(t: Thread, initOk: bool, lost: bool)
    requires t.hand.Some?
  {
    var c := t.hand.value;
    if c.generation != t.worker.generation then LostAtInit([], c.data, initOk)
    else lost || LostAtInit(Received(t), c.data, initOk)
  }

  /** Some bytes of the worker's present generation were lost because zlib could not be initialised. */
  ghost predicate InitLost(inflates: Inflater, es: seq<Event>)
    requires ValidRun(inflates, es)
    decreases |es|
  {
    es != [] &&
    var before, e := es[..|es| - 1], es[|es| - 1];
    if e.Digest? then LostNext(Run(inflates, before), e.initOk, InitLost(inflates, before))
    else InitLost(inflates, before)
  }

  /** Where in the output the worker's generation begins, once the chunk in hand is digested. */
  ghost function BaseNext(t: Thread, base: nat): nat
    requires t.hand.Some?
  {
    if t.hand.value.generation != t.worker.generation then |t.worker.output| else base
  }

  /** Where in the output the worker's present generation begins. */
  ghost function OutputBase(inflates: Inflater, es: seq<Event>): nat
    requires ValidRun(inflates, es)
    decreases |es|
  {
    if es == [] then 0
    else
      var before, e := es[..|es| - 1], es[|es| - 1];
      if e.Digest? then BaseNext(Run(inflates, before), OutputBase(inflates, before)) else OutputBase(inflates, before)
  }

  /** The worker `w` has digested these chunks of its generation, the first bytes of which may have been lost. */
  ghost predicate CleanIff(inflates: Inflater, w: Worker, chunks: seq<Bytes>, lost: bool, base: nat) {
    && CleanWith(w, Concat(chunks)) && Accounted(w, base, Concat(chunks))
    && (w.clean <==> Sound(inflates, chunks) && !lost)
  }

  lemma SameGeneration(inflates: Inflater, w: Worker, chunks: seq<Bytes>, c: Bytes, initOk: bool, lost: bool, base: nat)
    requires CleanIff(inflates, w, chunks, lost, base)
    ensures CleanIff(inflates, Digested(inflates, w, TaggedData(c, w.generation), initOk), chunks + [c],
                     lost || LostAtInit(Concat(chunks), c, initOk), base)
  {
    SoundStep(inflates, chunks, c);
    CleanStep(inflates, w, Concat(chunks), c, initOk);
    DigestedAccounted(inflates, w, c, initOk, base, Concat(chunks));
  }

  lemma NewGeneration(inflates: Inflater, w: Worker, c: TaggedData, initOk: bool)
    requires c.generation != w.generation
    ensures CleanIff(inflates, Digested(inflates, w, c, initOk), [c.data], LostAtInit([], c.data, initOk), |w.output|)
  {
    var current := SwitchTo(w, c.generation);
    FreshIsClean(c.generation, w.output, w.errors);
    NothingIsSound(inflates);
    assert w.output[|w.output|..] == [];
    SameGeneration(inflates, current, [], c.data, initOk, false, |w.output|);
    assert [] + [c.data] == [c.data];
  }

  /** What one digested chunk does to the chunks of the worker's generation. */
  lemma ReceivedNext(inflates: Inflater, t: Thread, initOk: bool)
    requires OrderInv(t) && t.hand.Some?
    ensures var c, u := t.hand.value, Next(inflates, t, Digest(initOk));
            && u.worker.generation == c.generation
            && OfGeneration(u.consumed, c.generation) ==
                 (if c.generation == t.worker.generation then OfGeneration(t.consumed, c.generation) else []) + [c.data]
  {
    var c := t.hand.value;
    DigestedGeneration(inflates, t.worker, c, initOk);
    OfGenerationAppend(t.consumed, c, c.generation);
    if c.generation != t.worker.generation {
      OfGenerationAbove(t.consumed, c.generation);
    }
  }

  /** As `CleanIff`, about the chunks the thread has digested. */
  ghost predicate CleanThread(inflates: Inflater, t: Thread, lost: bool, base: nat) {
    CleanIff(inflates, t.worker, OfGeneration(t.consumed, t.worker.generation), lost, base)
  }

  lemma DigestKeepsClean(inflates: Inflater, t: Thread, initOk: bool, lost: bool, base: nat)
    requires OrderInv(t) && t.hand.Some? && CleanThread(inflates, t, lost, base)
    ensures CleanThread(inflates, Next(inflates, t, Digest(initOk)), LostNext(t, initOk, lost), BaseNext(t, base))
  {
    var c := t.hand.value;
    ReceivedNext(inflates, t, initOk);
    if c.generation == t.worker.generation {
      SameGeneration(inflates, t.worker, OfGeneration(t.consumed, c.generation), c.data, initOk, lost, base);
    } else {
      NewGeneration(inflates, t.worker, c, initOk);
      assert [] + [c.data] == [c.data];
    }
  }

  lemma {:induction false} RunsStayClean(inflates: Inflater, es: seq<Event>)
    requires ValidRun(inflates, es)
    ensures CleanThread(inflates, Run(inflates, es), InitLost(inflates, es), OutputBase(inflates, es))
    decreases |es|
  {
    if es == [] {
      FreshIsClean(0, [], 0);
      NothingIsSound(inflates);
      assert Accounted(INITIAL.worker, 0, []) by { assert Concat([]) == []; }
    } else {
      var before, e := es[..|es| - 1], es[|es| - 1];
      RunsStayClean(inflates, before);
      if e.Digest? {
        RunsKeepOrder(inflates, before);
        DigestKeepsClean(inflates, Run(inflates, before), e.initOk, InitLost(inflates, before),
                         OutputBase(inflates, before));
      }
    }
  }

  /**
    In every run the worker has put out, for its generation, the payloads of what that generation received and
    buffers the rest, exactly when what it received is sound and its first bytes found zlib initialised.
  */
  lemma RunsCleanIffSound(inflates: Inflater, es: seq<Event>)
    requires ValidRun(inflates, es)
    ensures var t := Run(inflates, es);
            var sound := Sound(inflates, OfGeneration(t.consumed, t.worker.generation)) && !InitLost(inflates, es);
            && (Delivered(t.worker, OutputBase(inflates, es), Received(t)) <==> sound)
            && (t.worker.clean <==> sound)
            && (t.worker.clean ==> t.worker.stream == Payloads(Received(t)))
  {
    RunsStayClean(inflates, es);
    DeliveredIffClean(Run(inflates, es).worker, OutputBase(inflates, es), Received(Run(inflates, es)));
  }

  /**
    End to end: when the worker has caught up with a generation of which nothing was dropped, it has
    put out exactly the payloads of the bytes pushed and buffers the rest, if and only if no payload failed, no
    rest outgrew the buffer and zlib could be initialised.
  */
  lemma CaughtUp(inflates: Inflater, es: seq<Event>)
    requires ValidRun(inflates, es)
    requires var t := Run(inflates, es);
             t.queue == [] && t.hand.None? && t.worker.generation == t.generation && t.dropped == 0
    ensures var t := Run(inflates, es);
            var sound := Sound(inflates, t.pushed) && !InitLost(inflates, es);
            && (Delivered(t.worker, OutputBase(inflates, es), Concat(t.pushed)) <==> sound)
            && (t.worker.clean <==> sound)
            && (t.worker.clean ==> t.worker.stream == Payloads(Concat(t.pushed)))
  {
    RunsKeepFlow(inflates, es);
    RunsCleanIffSound(inflates, es);
    var t := Run(inflates, es);
    assert t.consumed + InHand(t) == t.consumed;
    assert t.pushed[..|t.pushed|] == t.pushed;
  }

  /** Where the chunk boundaries fall makes no difference to the payloads. */
  lemma BoundariesIrrelevant(inflates: Inflater, a: seq<Bytes>, b: seq<Bytes>)
    requires Concat(a) == Concat(b) && Sound(inflates, a) && Sound(inflates, b)
    ensures DigestAll(inflates, a).output == DigestAll(inflates, b).output == Payloads(Concat(a))
    ensures DigestAll(inflates, a).pending == DigestAll(inflates, b).pending == Rest(Concat(a))
  {
    CleanIffSound(inflates, a);
    CleanIffSound(inflates, b);
  }

  function Ones(n: nat): Bytes {
    seq(n, _ => 1)
  }

  /** As many full network reads. */
  function Reads(n: nat): (r: seq<Bytes>)
    ensures forall c :: c in r ==> |c| == RECV_BUFFER
  {
    if n == 0 then [] else Reads(n - 1) + [Ones(RECV_BUFFER)]
  }

  lemma OnesHaveNoMarker(n: nat)
    ensures Payloads(Ones(n)) == [] && Rest(Ones(n)) == Ones(n)
  {
    var x := Ones(n);
    forall i ensures !MarkerAt(x, i) {
      if 0 <= i && i + 4 <= |x| {
        assert x[i..i + 4][0] == 1;
      }
    }
    assert Concat([]) + x == x;
    SplitIsPayloads(x, [], x);
  }

  lemma FillingIsSound(inflates: Inflater, chunks: seq<Bytes>, filled: nat, more: nat)
    requires Concat(chunks) == Ones(filled) && Sound(inflates, chunks) && filled + more <= MAX_BUFFERED_BYTES
    ensures Concat(chunks + [Ones(more)]) == Ones(filled + more) && Sound(inflates, chunks + [Ones(more)])
  {
    SoundStep(inflates, chunks, Ones(more));
    assert Ones(filled) + Ones(more) == Ones(filled + more);
    OnesHaveNoMarker(filled);
    OnesHaveNoMarker(filled + more);
  }

  /** Up to the cap such reads only fill the buffer. */
  lemma {:induction false} ReadsAreSound(inflates: Inflater, n: nat, size: nat)
    requires size == n * RECV_BUFFER && size <= MAX_BUFFERED_BYTES
    ensures Concat(Reads(n)) == Ones(size) && Sound(inflates, Reads(n))
    decreases n
  {
    if n == 0 {
      NothingIsSound(inflates);
    } else {
      var less := size - RECV_BUFFER;
      ReadsAreSound(inflates, n - 1, less);
      FillingIsSound(inflates, Reads(n - 1), less, RECV_BUFFER);
      assert Reads(n) == Reads(n - 1) + [Ones(RECV_BUFFER)];
    }
  }

  lemma MarkerEndsOnes(n: nat)
    ensures Payloads(Ones(n) + MARKER) == [Ones(n) + MARKER] && Rest(Ones(n) + MARKER) == []
  {
    var x, whole := Ones(n), Ones(n) + MARKER;
    forall i | i < |x| ensures !MarkerAt(whole, i) {
      if 0 <= i && i + 4 <= |whole| {
        assert whole[i..i + 4][0] == 1;
      }
    }
    assert whole[|x|..|x| + 4] == MARKER;
    ConcatOne(whole);
    assert Concat([whole]) + [] == whole;
    SplitIsPayloads(whole, [whole], []);
  }

  lemma HalfMarkerStays(n: nat)
    ensures Payloads(Ones(n) + [0]) == [] && Rest(Ones(n) + [0]) == Ones(n) + [0]
  {
    var x := Ones(n) + [0];
    forall i ensures !MarkerAt(x, i) {
      if 0 <= i && i + 4 <= |x| {
        assert x[i..i + 4][0] == 1;
      }
    }
    assert Concat([]) + x == x;
    SplitIsPayloads(x, [], x);
  }

  lemma WholeMarkerIsSound(inflates: Inflater, chunks: seq<Bytes>, n: nat)
    requires n == MAX_BUFFERED_BYTES && Concat(chunks) == Ones(n) && Sound(inflates, chunks)
    requires inflates([], Ones(n) + MARKER)
    ensures Sound(inflates, chunks + [MARKER]) && Concat(chunks + [MARKER]) == Ones(n) + MARKER
  {
    SoundStep(inflates, chunks, MARKER);
    OnesHaveNoMarker(n);
    MarkerEndsOnes(n);
    AcceptedOneMore(inflates, [], [], Ones(n) + MARKER);
    assert [] + [Ones(n) + MARKER] == [Ones(n) + MARKER];
  }

  lemma CutMarkerIsUnsound(inflates: Inflater, chunks: seq<Bytes>, n: nat, first: Bytes, others: Bytes)
    requires n == MAX_BUFFERED_BYTES && Concat(chunks) == Ones(n) && first == [0]
    ensures !Sound(inflates, chunks + [first] + [others])
    ensures Concat(chunks + [first] + [others]) == Ones(n) + (first + others)
  {
    SoundStep(inflates, chunks, first);
    OnesHaveNoMarker(n);
    HalfMarkerStays(n);
    SoundStep(inflates, chunks + [first], others);
    assert Ones(n) + first + others == Ones(n) + (first + others);
  }

  /** Every chunk is what one network read may push. */
  ghost predicate Pushable(chunks: seq<Bytes>) {
    forall c :: c in chunks ==> 1 <= |c| <= 8192
  }

  lemma PushableOneMore(chunks: seq<Bytes>, c: Bytes)
    requires Pushable(chunks) && 1 <= |c| <= RECV_BUFFER
    ensures Pushable(chunks + [c])
  {
  }

  lemma DeliveredIffSound(inflates: Inflater, chunks: seq<Bytes>, s: Bytes)
    requires Concat(chunks) == s
    ensures Delivered(DigestAll(inflates, chunks), 0, s) <==> Sound(inflates, chunks)
  {
    CleanIffSound(inflates, chunks);
  }

  /**
    They do once the buffer is full: with every chunk within the size of a network read, a payload whose marker
    arrives whole is put out, and the same bytes with the marker cut after its first byte are not.
  */
  lemma BoundariesMatterPastTheCap(inflates: Inflater, n: nat, size: nat)
    returns (a: seq<Bytes>, b: seq<Bytes>, s: Bytes)
    requires size == n * RECV_BUFFER && size == MAX_BUFFERED_BYTES && inflates([], Ones(size) + MARKER)
    ensures Concat(a) == Concat(b) == s && Pushable(a) && Pushable(b)
    ensures Delivered(DigestAll(inflates, a), 0, s) && !Delivered(DigestAll(inflates, b), 0, s)
  {
    var filling := Reads(n);
    var first: Bytes, others: Bytes := [0], [0, 0xFF, 0xFF];
    assert first + others == MARKER;
    a, b, s := filling + [MARKER], filling + [first] + [others], Ones(size) + MARKER;
    ReadsAreSound(inflates, n, size);
    WholeMarkerIsSound(inflates, filling, size);
    CutMarkerIsUnsound(inflates, filling, size, first, others);
    DeliveredIffSound(inflates, a, s);
    DeliveredIffSound(inflates, b, s);
    PushableOneMore(filling, MARKER);
    PushableOneMore(filling, first);
    PushableOneMore(filling + [first], others);
  }

  // ------------------------------------------------------------------
  // The code
  // ------------------------------------------------------------------

  class IngestThread {
    const inflates: Inflater
    var queue: seq<TaggedData>
    var queuedBytes: int
    var generation: nat
    var hand: Option<TaggedData>          // the worker's local copy of the chunk it took
    var activeGeneration: nat
    var pendingInput: Bytes
    var streamActive: bool
    var stream: seq<Bytes>                // what the zlib stream has consumed
    var payloads: seq<Bytes>              // everything inflated so far
    var errors: nat                       // decompressionError signals
    ghost var clean: bool
    ghost var pushed: seq<Bytes>
    ghost var dropped: nat
    ghost var consumed: seq<TaggedData>

    ghost function WorkerView(): Worker
      reads this
    {
      Worker(activeGeneration, pendingInput, streamActive, stream, payloads, errors, clean)
    }

    ghost function View(): Thread
      reads this
    {
      Thread(queue, queuedBytes, generation, hand, WorkerView(), pushed, dropped, consumed)
    }

    constructor (inflates: Inflater)
      ensures this.inflates == inflates && View() == INITIAL
    {
      this.inflates := inflates;
      queue, queuedBytes, generation, hand := [], 0, 0, None;
      activeGeneration, pendingInput, streamActive, stream, payloads, errors := 0, [], false, [], [], 0;
      clean, pushed, dropped, consumed := true, [], 0, [];
    }

    /** Queues a chunk, then drops the oldest ones while the queue is over a cap. */
    method Push(data: Bytes)
      modifies this`queue, this`queuedBytes, this`pushed, this`dropped
      ensures View() == Next(inflates, old(View()), Event.Push(data))
    {
      ghost var t := View();
      queue := queue + [TaggedData(data, generation)];
      queuedBytes := queuedBytes + |data|;
      pushed := pushed + [data];
      DropOldest();
      assert View() == Pushed(t, data);
    }

    method DropOldest()
      modifies this`queue, this`queuedBytes, this`dropped
      ensures var k := old(Overflow(queue, queuedBytes));
              && queue == old(queue)[k..]
              && queuedBytes == old(queuedBytes) - TotalBytes(old(queue)[..k])
              && dropped == old(dropped) + k
    {
      ghost var whole, bytes, k := queue, queuedBytes, 0;
      assert queue == whole[0..];
      while (queuedBytes > MAX_QUEUED_BYTES || |queue| > MAX_QUEUED_MESSAGES) && |queue| > 1
        invariant 0 <= k <= |whole| && queue == whole[k..] && dropped == old(dropped)
        invariant queuedBytes == bytes - TotalBytes(whole[..k])
        invariant Overflow(whole, bytes) == k + Overflow(queue, queuedBytes)
        decreases |queue|
      {
        DropOne(whole, k);
        queuedBytes := queuedBytes - |queue[0].data|;
        queue := queue[1..];
        k := k + 1;
      }
      assert Overflow(queue, queuedBytes) == 0;
      dropped := dropped + k;
    }

    method Reset()
      modifies this`generation, this`queue, this`queuedBytes, this`pushed, this`dropped
      ensures View() == Next(inflates, old(View()), Event.Reset)
    {
      generation := generation + 1;
      queue := [];
      queuedBytes := 0;
      pushed, dropped := [], 0;
    }

    /** The locked part of the worker loop. */
    method TakeChunk()
      requires Enabled(View(), Take)
      modifies this`hand, this`queue, this`queuedBytes
      ensures View() == Next(inflates, old(View()), Take)
    {
      hand := Some(queue[0]);
      queuedBytes := queuedBytes - |queue[0].data|;
      queue := queue[1..];
    }

    /** The rest of the worker loop, on the chunk just taken. */
    method DigestChunk(initOk: bool)
      requires Enabled(View(), Digest(initOk))
      modifies this`hand, this`consumed, this`activeGeneration, this`pendingInput, this`streamActive,
               this`stream, this`payloads, this`errors, this`clean
      ensures View() == Next(inflates, old(View()), Digest(initOk))
    {
      var chunk := hand.value;
      consumed := consumed + [chunk];
      hand := None;
      Process(chunk.data, chunk.generation, initOk);
    }

    method Process(data: Bytes, dataGen: nat, initOk: bool)
      modifies this`activeGeneration, this`pendingInput, this`streamActive,
               this`stream, this`payloads, this`errors, this`clean
      ensures WorkerView() == Digested(inflates, old(WorkerView()), TaggedData(data, dataGen), initOk)
    {
      if dataGen != activeGeneration {
        streamActive, stream := false, [];
        pendingInput := [];
        activeGeneration := dataGen;
        clean := true;
      }
      if data == [] {
        return;
      }
      if !streamActive {
        if !initOk {
          clean := false;
          return;
        }
        streamActive, stream := true, [];
      }
      pendingInput := pendingInput + data;
      SplitAndInflate();
    }

    /** Closes a broken stream and asks for a reconnect. */
    method FailStream()
      modifies this`pendingInput, this`streamActive, this`stream, this`errors, this`clean
      ensures WorkerView() == Broken(old(WorkerView()))
    {
      streamActive, stream := false, [];
      pendingInput := [];
      errors := errors + 1;
      clean := false;
    }

    method InflateSegment(segment: Bytes) returns (ok: bool)
      modifies this`pendingInput, this`streamActive, this`stream, this`payloads, this`errors, this`clean
      ensures ok == inflates(old(stream), segment)
      ensures WorkerView() ==
              if ok then old(WorkerView()).(stream := old(stream) + [segment], output := old(payloads) + [segment])
              else Broken(old(WorkerView()))
    {
      ok := inflates(stream, segment);
      if ok {
        stream, payloads := stream + [segment], payloads + [segment];
      } else {
        FailStream();
      }
    }

    /** Inflates every complete payload in the buffer, then strips what was consumed. */
    method SplitAndInflate()
      requires streamActive
      modifies this`pendingInput, this`streamActive, this`stream, this`payloads, this`errors, this`clean
      ensures WorkerView() == Drained(inflates, old(WorkerView()))
    {
      ghost var start := WorkerView();
      ghost var done: seq<Bytes> := [];
      assert IsSplit([], [], []);
      var cursor := 0;
      var delimIndex := IndexOf(pendingInput, cursor);
      while delimIndex != -1
        invariant 0 <= cursor <= |start.pending| && delimIndex == IndexOf(start.pending, cursor)
        invariant CutSoFar(start.pending, done, cursor)
        invariant Accepted(inflates, start.stream, done) == |done|
        invariant WorkerView() == start.(stream := start.stream + done, output := start.output + done)
        decreases |start.pending| - cursor
      {
        var segmentEnd := delimIndex + |MARKER|;
        var segment := pendingInput[cursor..segmentEnd];
        SegmentIsPayload(start.pending, cursor, delimIndex);
        CutOneMore(start.pending, done, cursor, segmentEnd);
        var ok := InflateSegment(segment);
        if !ok {
          DrainedUntilFailure(inflates, start, done, segment, segmentEnd);
          return;
        }
        AcceptedOneMore(inflates, start.stream, done, segment);
        done := Append(start.stream, start.output, done, segment);
        cursor := segmentEnd;
        delimIndex := IndexOf(pendingInput, cursor);
      }
      DrainedWhole(inflates, start, done, cursor);
      pendingInput := pendingInput[cursor..];
      if |pendingInput| > MAX_BUFFERED_BYTES {
        FailStream();
      }
    }
  }

  lemma Append(a: seq<Bytes>, b: seq<Bytes>, done: seq<Bytes>, p: Bytes) returns (now: seq<Bytes>)
    ensures now == done + [p]
    ensures a + done + [p] == a + now && b + done + [p] == b + now
  {
    now := done + [p];
  }

  // ------------------------------------------------------------------
  // Steps of the splitting loop
  // ------------------------------------------------------------------

  /** The payloads found so far are the buffer up to the cursor. */
  ghost predicate CutSoFar(buffer: Bytes, done: seq<Bytes>, cursor: nat) {
    cursor <= |buffer| && IsSplit(buffer[..cursor], done, [])
  }

  /** The next marker found ends one more payload. */
  lemma CutOneMore(buffer: Bytes, done: seq<Bytes>, cursor: nat, end: nat)
    requires CutSoFar(buffer, done, cursor)
    requires cursor <= end <= |buffer| && Payload(buffer[cursor..end])
    ensures CutSoFar(buffer, done + [buffer[cursor..end]], end)
  {
    var segment, prefix := buffer[cursor..end], buffer[..cursor];
    OnePayload(segment);
    CutThenMore(prefix, done, segment, [segment], []);
    assert buffer[..end] == prefix + segment;
  }

  lemma OnePayload(p: Bytes)
    requires Payload(p)
    ensures IsSplit(p, [p], [])
  {
    ConcatOne(p);
    assert Concat([p]) + [] == p;
  }

  lemma CutThenMore(s: Bytes, done: seq<Bytes>, more: Bytes, next: seq<Bytes>, rest: Bytes)
    requires IsSplit(s, done, []) && IsSplit(more, next, rest)
    ensures IsSplit(s + more, done + next, rest)
  {
    assert [] + more == more;
    SplitContinues(s, done, [], more, next, rest);
  }

  /** Whatever follows, a partial cut is the beginning of the cut of the buffer. */
  lemma CutIsPrefix(buffer: Bytes, done: seq<Bytes>, cursor: nat)
    requires CutSoFar(buffer, done, cursor)
    ensures Payloads(buffer) == done + Payloads(buffer[cursor..]) && Rest(buffer) == Rest(buffer[cursor..])
  {
    var tail := buffer[cursor..];
    PayloadsSplit(tail);
    CutThenMore(buffer[..cursor], done, tail, Payloads(tail), Rest(tail));
    assert buffer == buffer[..cursor] + tail;
    SplitIsPayloads(buffer, done + Payloads(tail), Rest(tail));
  }

  /** With no further marker the cut is complete. */
  lemma CutWhole(buffer: Bytes, done: seq<Bytes>, cursor: nat)
    requires CutSoFar(buffer, done, cursor) && IndexOf(buffer, cursor) == -1
    ensures done == Payloads(buffer) && Rest(buffer) == buffer[cursor..]
    ensures Payloads(buffer)[..|done|] == done
  {
    var tail := buffer[cursor..];
    TailHasNoMarker(buffer, cursor);
    assert IsSplit(tail, [], tail) by { assert Concat([]) + tail == tail; }
    SplitIsPayloads(tail, [], tail);
    CutIsPrefix(buffer, done, cursor);
    assert done + [] == done;
  }

  lemma DrainedWhole(inflates: Inflater, w: Worker, done: seq<Bytes>, cursor: nat)
    requires CutSoFar(w.pending, done, cursor) && IndexOf(w.pending, cursor) == -1
    requires Accepted(inflates, w.stream, done) == |done|
    ensures var fed := w.(stream := w.stream + done, output := w.output + done, pending := w.pending[cursor..]);
            Drained(inflates, w) == if |fed.pending| > MAX_BUFFERED_BYTES then Broken(fed) else fed
  {
    CutWhole(w.pending, done, cursor);
  }

  lemma DrainedUntilFailure(inflates: Inflater, w: Worker, done: seq<Bytes>, segment: Bytes, cursor: nat)
    requires CutSoFar(w.pending, done + [segment], cursor)
    requires Accepted(inflates, w.stream, done) == |done| && !inflates(w.stream + done, segment)
    ensures Drained(inflates, w) == Broken(w.(output := w.output + done))
  {
    var found := done + [segment];
    assert found[..|found| - 1] == done;
    CutIsPrefix(w.pending, found, cursor);
    AcceptedStops(inflates, w.stream, found, Payloads(w.pending[cursor..]));
    assert Payloads(w.pending)[..|done|] == done;
  }

  lemma {:induction false} AcceptedStops(inflates: Inflater, stream: seq<Bytes>, found: seq<Bytes>, more: seq<Bytes>)
    requires found != []
    requires var done := found[..|found| - 1];
             Accepted(inflates, stream, done) == |done| && !inflates(stream + done, found[|done|])
    ensures Accepted(inflates, stream, found + more) == |found| - 1
    decreases |found|
  {
    var done := found[..|found| - 1];
    if done == [] {
      assert stream + done == stream;
    } else {
      assert found[1..][..|found| - 2] == done[1..];
      assert stream + [found[0]] + done[1..] == stream + done;
      assert (found + more)[1..] == found[1..] + more;
      AcceptedStops(inflates, stream + [found[0]], found[1..], more);
    }
  }

  lemma AcceptedOneMore(inflates: Inflater, stream: seq<Bytes>, done: seq<Bytes>, p: Bytes)
    requires Accepted(inflates, stream, done) == |done| && inflates(stream + done, p)
    ensures Accepted(inflates, stream, done + [p]) == |done + [p]|
  {
    AcceptedConcat(inflates, stream, done, [p]);
  }

  lemma DropOne(whole: seq<TaggedData>, k: nat)
    requires k < |whole|
    ensures TotalBytes(whole[..k + 1]) == TotalBytes(whole[..k]) + |whole[k].data|
    ensures whole[k..][1..] == whole[k + 1..]
  {
    TotalBytesSplit(whole[..k + 1], k);
    assert whole[..k + 1][..k] == whole[..k] && whole[..k + 1][k..] == [whole[k]];
    assert [whole[k]][1..] == [];
  }
}
