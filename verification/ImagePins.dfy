/**
  Pin bookkeeping of the image manager (src/Core/ImageManager.cpp): a view pins the images
  it shows so that the LRU cannot evict them. Three tables have to agree: which group holds
  which key, how many groups hold a key, and which images are pinned.
*/
module ImagePins {
  import opened Options
  import opened Sequences

  type Key = int
  type Pixmap = int

  datatype Group = NoGroup | ChannelList | ChatView

  /** The multi-hash of group keys: the values under a group, latest first. */
  type Held = map<Group, seq<Key>>

  datatype Pins = Pins(
    pinned: map<Key, Pixmap>,
    held: Held,
    refs: map<Key, int>,
    cache: map<Key, Pixmap>,
    requests: set<Key>,
    pending: map<Key, seq<Group>>,
    failed: set<Key>,
    disk: set<Key>)

  const EMPTY: Pins := Pins(map[], map[], map[], map[], {}, map[], {}, {})

  function KeysOf(held: Held, g: Group): seq<Key> {
    if g in held then held[g] else []
  }

  function Insert(held: Held, g: Group, k: Key): Held {
    held[g := [k] + KeysOf(held, g)]
  }

  function RefsOf(refs: map<Key, int>, k: Key): int {
    if k in refs then refs[k] else 0
  }

  function PendingOf(pending: map<Key, seq<Group>>, k: Key): seq<Group> {
    if k in pending then pending[k] else []
  }

  // ------------------------------------------------------------------
  // The operations as functions of the tables
  // ------------------------------------------------------------------

  function PinTo(s: Pins, g: Group, k: Key, p: Pixmap): Pins {
    s.(pinned := s.pinned[k := p], held := Insert(s.held, g, k), refs := s.refs[k := RefsOf(s.refs, k) + 1])
  }

  function Failed(s: Pins, k: Key): Pins {
    s.(requests := s.requests - {k}, pending := s.pending - {k}, failed := s.failed + {k})
  }

  function Requested(s: Pins, k: Key, pin: Group, blocked: bool): Pins {
    if k in s.failed then s
    else if k in s.requests then
      if pin != NoGroup && pin !in PendingOf(s.pending, k) then
        s.(pending := s.pending[k := [pin] + PendingOf(s.pending, k)])
      else s
    else
      var sent := s.(requests := s.requests + {k},
                     pending := if pin != NoGroup then s.pending[k := [pin] + PendingOf(s.pending, k)] else s.pending);
      if blocked then Failed(sent, k) else sent
  }

  /** `file` is what loading the key's cache file yields, `blocked` whether its host is refused. */
  function Got(s: Pins, k: Key, pin: Group, fetch: bool, file: Option<Pixmap>, blocked: bool): Pins {
    if k in s.pinned then
      if pin != NoGroup && k !in KeysOf(s.held, pin) then
        s.(held := Insert(s.held, pin, k), refs := s.refs[k := RefsOf(s.refs, k) + 1])
      else s
    else if k in s.cache then
      if pin != NoGroup then PinTo(s, pin, k, s.cache[k]).(cache := s.cache - {k}) else s
    else if k in s.disk && file.Some? then
      if pin != NoGroup then PinTo(s, pin, k, file.value) else s.(cache := s.cache[k := file.value])
    else
      var stale := s.(disk := s.disk - {k});
      if fetch then Requested(stale, k, pin, blocked) else stale
  }

  /** The image shown, or nothing but the placeholder. */
  function Shown(s: Pins, k: Key, file: Option<Pixmap>): Option<Pixmap> {
    if k in s.pinned then Some(s.pinned[k])
    else if k in s.cache then Some(s.cache[k])
    else if k in s.disk then file
    else None
  }

  function PinPending(s: Pins, k: Key, p: Pixmap, groups: seq<Group>): Pins
    decreases |groups|
  {
    if groups == [] then s
    else PinPending(if k in KeysOf(s.held, groups[0]) then s else PinTo(s, groups[0], k, p), k, p, groups[1..])
  }

  function Stored(s: Pins, k: Key, p: Pixmap): Pins {
    var groups := PendingOf(s.pending, k);
    var kept := if groups == [] then s.(cache := s.cache[k := p]) else PinPending(s, k, p, groups);
    kept.(requests := s.requests - {k}, pending := s.pending - {k}, failed := s.failed - {k})
  }

  function ReleaseOne(s: Pins, k: Key): Pins {
    if k !in s.refs then s
    else if s.refs[k] - 1 > 0 then s.(refs := s.refs[k := s.refs[k] - 1])
    else
      s.(refs := s.refs - {k},
         cache := if k in s.pinned then s.cache[k := s.pinned[k]] else s.cache,
         pinned := s.pinned - {k})
  }

  function Release(s: Pins, keys: seq<Key>): Pins
    decreases |keys|
  {
    if keys == [] then s else Release(ReleaseOne(s, keys[0]), keys[1..])
  }

  function Unpinned(s: Pins, g: Group): Pins {
    if g == NoGroup then s
    else Release(s.(held := s.held - {g}), KeysOf(s.held, g))
  }

  // ------------------------------------------------------------------
  // The invariant
  // ------------------------------------------------------------------

  function Holders(held: Held, k: Key): nat {
    (if k in KeysOf(held, ChannelList) then 1 else 0) + (if k in KeysOf(held, ChatView) then 1 else 0)
  }

  /** The count of `k` is the number of groups holding it, and it is pinned while that is positive. */
  ghost predicate Tied(s: Pins, leaving: seq<Key>, k: Key) {
    var n := Holders(s.held, k) + if k in leaving then 1 else 0;
    && (k in s.refs <==> n > 0)
    && RefsOf(s.refs, k) == n
    && (k in s.pinned <==> n > 0)
  }

  /** `leaving` are keys whose group is already forgotten but whose references still count. */
  ghost predicate Agreed(s: Pins, leaving: seq<Key>) {
    && KeysOf(s.held, NoGroup) == []
    && NoDup(KeysOf(s.held, ChannelList)) && NoDup(KeysOf(s.held, ChatView)) && NoDup(leaving)
    && forall k {:trigger Tied(s, leaving, k)} :: Tied(s, leaving, k)
  }

  /** The groups waiting for an image are real ones, and its request is under way. */
  ghost predicate WaitersKnown(pending: map<Key, seq<Group>>, requests: set<Key>) {
    forall k :: k in pending ==> NoGroup !in pending[k] && NoDup(pending[k]) && k in requests
  }

  ghost predicate Inv(s: Pins) {
    Agreed(s, []) && WaitersKnown(s.pending, s.requests)
  }

  /** A group that does not hold `k` takes it. */
  lemma TakingKeepsAgreed(s: Pins, g: Group, k: Key, t: Pins)
    requires Agreed(s, []) && g != NoGroup && k !in KeysOf(s.held, g)
    requires t.held == Insert(s.held, g, k)
    requires t.refs == s.refs[k := RefsOf(s.refs, k) + 1]
    requires t.pinned.Keys == s.pinned.Keys + {k}
    ensures Agreed(t, [])
  {
    assert Tied(s, [], k);
    NoDupPrepend(k, KeysOf(s.held, g));
    forall j ensures Tied(t, [], j) {
      assert Tied(s, [], j);
    }
  }

  lemma SameTablesStayAgreed(s: Pins, t: Pins)
    requires Agreed(s, []) && t.held == s.held && t.refs == s.refs && t.pinned == s.pinned
    ensures Agreed(t, [])
  {
    forall j ensures Tied(t, [], j) {
      assert Tied(s, [], j);
    }
  }

  lemma WaitingKeepsKnown(pending: map<Key, seq<Group>>, requests: set<Key>, k: Key, pin: Group)
    requires WaitersKnown(pending, requests) && pin != NoGroup && pin !in PendingOf(pending, k)
    ensures WaitersKnown(pending[k := [pin] + PendingOf(pending, k)], requests + {k})
  {
    NoDupPrepend(pin, PendingOf(pending, k));
  }

  lemma FailingKeepsKnown(pending: map<Key, seq<Group>>, requests: set<Key>, k: Key)
    requires WaitersKnown(pending, requests)
    ensures WaitersKnown(pending - {k}, requests - {k})
  {
  }

  lemma RequestKeepsKnown(s: Pins, k: Key, pin: Group, blocked: bool)
    requires WaitersKnown(s.pending, s.requests)
    ensures var t := Requested(s, k, pin, blocked); WaitersKnown(t.pending, t.requests)
  {
    if k in s.failed {
    } else if k in s.requests {
      if pin != NoGroup && pin !in PendingOf(s.pending, k) {
        WaitingKeepsKnown(s.pending, s.requests, k, pin);
        assert s.requests + {k} == s.requests;
      }
    } else {
      assert PendingOf(s.pending, k) == [];
      var pending := s.pending;
      if pin != NoGroup {
        WaitingKeepsKnown(s.pending, s.requests, k, pin);
        pending := s.pending[k := [pin] + PendingOf(s.pending, k)];
      }
      assert WaitersKnown(pending, s.requests + {k});
      FailingKeepsKnown(pending, s.requests + {k}, k);
    }
  }

  lemma RequestLeavesTables(s: Pins, k: Key, pin: Group, blocked: bool)
    ensures var t := Requested(s, k, pin, blocked); t.held == s.held && t.refs == s.refs && t.pinned == s.pinned
  {
  }

  predicate Available(s: Pins, k: Key, file: Option<Pixmap>) {
    k in s.pinned || k in s.cache || (k in s.disk && file.Some?)
  }

  lemma GetPinsAvailable(s: Pins, k: Key, pin: Group, fetch: bool, file: Option<Pixmap>, blocked: bool)
    requires Available(s, k, file) && pin != NoGroup && k !in KeysOf(s.held, pin)
    ensures var t := Got(s, k, pin, fetch, file, blocked);
            && t.held == Insert(s.held, pin, k)
            && t.refs == s.refs[k := RefsOf(s.refs, k) + 1]
            && t.pinned.Keys == s.pinned.Keys + {k}
            && t.pending == s.pending && t.requests == s.requests
  {
    var t := Got(s, k, pin, fetch, file, blocked);
    if k in s.pinned {
      assert t.pinned == s.pinned && s.pinned.Keys + {k} == s.pinned.Keys;
    }
  }

  lemma GetAvailableKeepsAgreed(s: Pins, k: Key, pin: Group, fetch: bool, file: Option<Pixmap>, blocked: bool)
    requires Agreed(s, []) && Available(s, k, file)
    ensures var t := Got(s, k, pin, fetch, file, blocked);
            Agreed(t, []) && t.pending == s.pending && t.requests == s.requests
  {
    var t := Got(s, k, pin, fetch, file, blocked);
    if pin != NoGroup && k !in KeysOf(s.held, pin) {
      GetPinsAvailable(s, k, pin, fetch, file, blocked);
      TakingKeepsAgreed(s, pin, k, t);
    } else {
      assert Tied(s, [], k);
      assert pin != NoGroup ==> k in s.pinned;
      SameTablesStayAgreed(s, t);
    }
  }

  lemma GetKeepsInv(s: Pins, k: Key, pin: Group, fetch: bool, file: Option<Pixmap>, blocked: bool)
    requires Inv(s)
    ensures Inv(Got(s, k, pin, fetch, file, blocked))
  {
    var t := Got(s, k, pin, fetch, file, blocked);
    if Available(s, k, file) {
      GetAvailableKeepsAgreed(s, k, pin, fetch, file, blocked);
    } else {
      var stale := s.(disk := s.disk - {k});
      RequestKeepsKnown(stale, k, pin, blocked);
      RequestLeavesTables(stale, k, pin, blocked);
      SameTablesStayAgreed(s, t);
    }
  }

  lemma {:induction false} PinPendingKeeps(s: Pins, k: Key, p: Pixmap, groups: seq<Group>)
    requires Agreed(s, []) && NoGroup !in groups
    ensures var t := PinPending(s, k, p, groups);
            && Agreed(t, [])
            && (forall g :: k in KeysOf(t.held, g) <==> k in KeysOf(s.held, g) || g in groups)
            && (forall g, j :: j != k ==> (j in KeysOf(t.held, g) <==> j in KeysOf(s.held, g)))
            && t == s.(held := t.held, refs := t.refs, pinned := t.pinned)
    decreases |groups|
  {
    if groups != [] {
      var first: Group := groups[0];
      var one := if k in KeysOf(s.held, first) then s else PinTo(s, first, k, p);
      if k !in KeysOf(s.held, first) {
        assert one.pinned.Keys == s.pinned.Keys + {k};
        TakingKeepsAgreed(s, first, k, one);
      }
      PinPendingKeeps(one, k, p, groups[1..]);
      HeadTail(groups);
    }
  }

  lemma StoredKeepsInv(s: Pins, k: Key, p: Pixmap)
    requires Inv(s)
    ensures Inv(Stored(s, k, p))
  {
    var groups := PendingOf(s.pending, k);
    if groups == [] {
      SameTablesStayAgreed(s, Stored(s, k, p));
    } else {
      PinPendingKeeps(s, k, p, groups);
      SameTablesStayAgreed(PinPending(s, k, p, groups), Stored(s, k, p));
    }
  }

  /** A lookup, pinning or not, leaves what is shown of every key as it is, or caches what its file yields. */
  lemma GetKeepsShown(s: Pins, k: Key, pin: Group, fetch: bool, file: Option<Pixmap>, blocked: bool, j: Key)
    requires j in s.pinned || j in s.cache
    ensures Shown(Got(s, k, pin, fetch, file, blocked), j, None) == Shown(s, j, None)
  {
  }

  /** An image loaded from its file is shown from memory afterwards. */
  lemma LoadedIsShown(s: Pins, k: Key, pin: Group, fetch: bool, p: Pixmap, blocked: bool)
    requires k !in s.pinned && k !in s.cache && k in s.disk
    ensures Shown(Got(s, k, pin, fetch, Some(p), blocked), k, None) == Some(p)
  {
  }

  lemma {:induction false} PinPendingShows(s: Pins, k: Key, p: Pixmap, groups: seq<Group>)
    requires (exists g :: g in groups && k !in KeysOf(s.held, g)) || (k in s.pinned && s.pinned[k] == p)
    ensures var t := PinPending(s, k, p, groups); k in t.pinned && t.pinned[k] == p
    decreases |groups|
  {
    if groups != [] {
      HeadTail(groups);
      var one := if k in KeysOf(s.held, groups[0]) then s else PinTo(s, groups[0], k, p);
      PinPendingShows(one, k, p, groups[1..]);
    }
  }

  lemma {:induction false} PinPendingLeaves(s: Pins, k: Key, p: Pixmap, groups: seq<Group>)
    requires forall g :: g in groups ==> k in KeysOf(s.held, g)
    ensures PinPending(s, k, p, groups) == s
    decreases |groups|
  {
    if groups != [] {
      HeadTail(groups);
      assert groups[0] in groups;
      PinPendingLeaves(s, k, p, groups[1..]);
    }
  }

  /** What was fetched is shown, unless another image of the key is pinned and no waiting group takes this one. */
  lemma FetchedIsShownIff(s: Pins, k: Key, p: Pixmap, file: Option<Pixmap>)
    requires Inv(s)
    ensures Shown(Stored(s, k, p), k, file) == Some(p)
            <==> k !in s.pinned || s.pinned[k] == p
                 || exists g :: g in PendingOf(s.pending, k) && k !in KeysOf(s.held, g)
  {
    var groups := PendingOf(s.pending, k);
    assert Tied(s, [], k);
    if exists g :: g in groups && k !in KeysOf(s.held, g) {
      PinPendingShows(s, k, p, groups);
    } else if groups != [] {
      PinPendingLeaves(s, k, p, groups);
      assert groups[0] in groups && k in KeysOf(s.held, groups[0]);
      assert groups[0] == ChannelList || groups[0] == ChatView;
    }
  }

  // ------------------------------------------------------------------
  // Unpinning a group
  // ------------------------------------------------------------------

  /** `k` keeps its pinned image, or it moves to the cache, or nothing changes for it. */
  ghost predicate Carried(s: Pins, t: Pins, k: Key) {
    && (k in t.pinned ==> k in s.pinned && t.pinned[k] == s.pinned[k])
    && (k in s.pinned && k !in t.pinned ==> k in t.cache && t.cache[k] == s.pinned[k])
    && (k in t.pinned || k !in s.pinned ==>
          (k in t.cache <==> k in s.cache) && (k in s.cache ==> t.cache[k] == s.cache[k]))
  }

  lemma ReleaseOneKeeps(s: Pins, keys: seq<Key>)
    requires keys != [] && Agreed(s, keys)
    ensures Agreed(ReleaseOne(s, keys[0]), keys[1..])
    ensures forall k {:trigger Carried(s, ReleaseOne(s, keys[0]), k)} :: Carried(s, ReleaseOne(s, keys[0]), k)
  {
    var first: Key := keys[0];
    var t := ReleaseOne(s, first);
    HeadTail(keys);
    assert Tied(s, keys, first);
    forall j ensures Tied(t, keys[1..], j) {
      assert Tied(s, keys, j);
      assert j in keys <==> j == first || j in keys[1..];
    }
  }

  lemma {:induction false} ReleaseKeeps(s: Pins, keys: seq<Key>)
    requires Agreed(s, keys)
    ensures var t := Release(s, keys);
            && Agreed(t, []) && t == s.(pinned := t.pinned, refs := t.refs, cache := t.cache)
            && forall k {:trigger Carried(s, t, k)} :: Carried(s, t, k)
    decreases |keys|
  {
    if keys != [] {
      ReleaseOneKeeps(s, keys);
      var one := ReleaseOne(s, keys[0]);
      ReleaseKeeps(one, keys[1..]);
      var t := Release(s, keys);
      assert t == Release(one, keys[1..]);
      forall k ensures Carried(s, t, k) {
        assert Carried(s, one, k) && Carried(one, t, k);
      }
    }
  }

  function Other(g: Group): Group {
    if g == ChannelList then ChatView else ChannelList
  }

  /**
    Unpinning leaves pinned exactly what the other group holds, with the same images, and hands
    every other pinned image to the LRU cache: none is lost and none stays behind.
  */
  lemma UnpinOutcome(s: Pins, g: Group)
    requires Inv(s) && g != NoGroup
    ensures Inv(Unpinned(s, g))
    ensures var t := Unpinned(s, g);
            && KeysOf(t.held, g) == [] && KeysOf(t.held, Other(g)) == KeysOf(s.held, Other(g))
            && (forall k :: k in t.pinned <==> k in KeysOf(s.held, Other(g)))
            && (forall k {:trigger Carried(s, t, k)} :: Carried(s, t, k))
  {
    var start := s.(held := s.held - {g});
    var keys := KeysOf(s.held, g);
    assert KeysOf(start.held, g) == [];
    assert KeysOf(start.held, Other(g)) == KeysOf(s.held, Other(g));
    forall j ensures Tied(start, keys, j) {
      assert Tied(s, [], j);
    }
    ReleaseKeeps(start, keys);
    var t := Unpinned(s, g);
    forall k ensures Carried(s, t, k) {
      assert Carried(start, t, k);
    }
    forall k ensures k in t.pinned <==> k in KeysOf(s.held, Other(g)) {
      assert Tied(t, [], k);
    }
  }

  /** After every group is unpinned nothing is pinned, counted or held. */
  lemma UnpinningAllLeavesNothing(s: Pins)
    requires Inv(s)
    ensures var t := Unpinned(Unpinned(s, ChannelList), ChatView);
            t.pinned == map[] && t.refs == map[] && forall g :: KeysOf(t.held, g) == []
  {
    UnpinOutcome(s, ChannelList);
    var one := Unpinned(s, ChannelList);
    UnpinOutcome(one, ChatView);
    var t := Unpinned(one, ChatView);
    assert KeysOf(t.held, Other(ChatView)) == [];
    forall k ensures k !in t.pinned && k !in t.refs {
      assert Tied(t, [], k);
    }
    forall g ensures KeysOf(t.held, g) == [] {
      assert g == NoGroup || g == ChannelList || g == ChatView;
    }
  }

  /**
    Unpinning a group does not withdraw its claims on images still being fetched: when such an
    image arrives it is pinned for the group again, exactly if the group was waiting for it.
  */
  lemma UnpinnedGroupHoldsLateImageIff(s: Pins, g: Group, k: Key, p: Pixmap)
    requires Inv(s) && g != NoGroup
    ensures k in KeysOf(Stored(Unpinned(s, g), k, p).held, g) <==> g in PendingOf(s.pending, k)
  {
    UnpinOutcome(s, g);
    var t := Unpinned(s, g);
    ReleaseLeavesWaiters(s.(held := s.held - {g}), KeysOf(s.held, g));
    assert t.pending == s.pending;
    if PendingOf(t.pending, k) != [] {
      PinPendingKeeps(t, k, p, PendingOf(t.pending, k));
    }
  }

  lemma {:induction false} ReleaseLeavesWaiters(s: Pins, keys: seq<Key>)
    ensures var t := Release(s, keys); t.pending == s.pending && t.requests == s.requests && t.held == s.held
    decreases |keys|
  {
    if keys != [] {
      ReleaseLeavesWaiters(ReleaseOne(s, keys[0]), keys[1..]);
    }
  }

  // ------------------------------------------------------------------
  // Runs
  // ------------------------------------------------------------------

  datatype Event =
    | GetImage(key: Key, pin: Group, fetch: bool, file: Option<Pixmap>, blocked: bool)
    | Fetched(key: Key, pixmap: Pixmap)
    | FetchFailed(key: Key)
    | UnpinGroup(group: Group)
    | ClearFailed
    | Evicted(keys: set<Key>)
    | DiskWritten(key: Key)
    | DiskPruned(keys: set<Key>)

  function Next(s: Pins, ev: Event): Pins {
    match ev
    case GetImage(k, pin, fetch, file, blocked) => Got(s, k, pin, fetch, file, blocked)
    case Fetched(k, p) => Stored(s, k, p)
    case FetchFailed(k) => Failed(s, k)
    case UnpinGroup(g) => Unpinned(s, g)
    case ClearFailed => s.(failed := {})
    case Evicted(ks) => s.(cache := s.cache - ks)
    case DiskWritten(k) => s.(disk := s.disk + {k})
    case DiskPruned(ks) => s.(disk := s.disk - ks)
  }

  function Run(s: Pins, events: seq<Event>): Pins
    decreases |events|
  {
    if events == [] then s else Run(Next(s, events[0]), events[1..])
  }

  lemma NextKeepsInv(s: Pins, ev: Event)
    requires Inv(s)
    ensures Inv(Next(s, ev))
  {
    match ev
    case GetImage(k, pin, fetch, file, blocked) => GetKeepsInv(s, k, pin, fetch, file, blocked);
    case Fetched(k, p) => StoredKeepsInv(s, k, p);
    case UnpinGroup(g) =>
      if g != NoGroup {
        UnpinOutcome(s, g);
      }
    case FetchFailed(_) => SameTablesStayAgreed(s, Next(s, ev));
    case ClearFailed => SameTablesStayAgreed(s, Next(s, ev));
    case Evicted(_) => SameTablesStayAgreed(s, Next(s, ev));
    case DiskWritten(_) => SameTablesStayAgreed(s, Next(s, ev));
    case DiskPruned(_) => SameTablesStayAgreed(s, Next(s, ev));
  }

  lemma {:induction false} RunsKeepInv(s: Pins, events: seq<Event>)
    requires Inv(s)
    ensures Inv(Run(s, events))
    decreases |events|
  {
    if events != [] {
      NextKeepsInv(s, events[0]);
      RunsKeepInv(Next(s, events[0]), events[1..]);
    }
  }

  /** The group does not hold the key and is not waiting for its image. */
  ghost predicate Quit(s: Pins, g: Group, k: Key) {
    k !in KeysOf(s.held, g) && g !in PendingOf(s.pending, k)
  }

  ghost predicate AsksFor(ev: Event, g: Group, k: Key) {
    ev.GetImage? && ev.key == k && ev.pin == g
  }

  lemma QuitOnRequest(s: Pins, g: Group, k: Key, j: Key, pin: Group, blocked: bool)
    requires Quit(s, g, k) && !(j == k && pin == g)
    ensures Quit(Requested(s, j, pin, blocked), g, k)
  {
    RequestLeavesTables(s, j, pin, blocked);
    if j != k {
      assert PendingOf(Requested(s, j, pin, blocked).pending, k) == PendingOf(s.pending, k);
    }
  }

  lemma QuitOnGet(s: Pins, g: Group, k: Key, j: Key, pin: Group, fetch: bool, file: Option<Pixmap>, blocked: bool)
    requires Quit(s, g, k) && !(j == k && pin == g)
    ensures Quit(Got(s, j, pin, fetch, file, blocked), g, k)
  {
    if Available(s, j, file) {
      if pin != NoGroup && j !in KeysOf(s.held, pin) {
        GetPinsAvailable(s, j, pin, fetch, file, blocked);
        assert pin == g ==> KeysOf(Insert(s.held, pin, j), g) == [j] + KeysOf(s.held, g);
      }
    } else {
      QuitOnRequest(s.(disk := s.disk - {j}), g, k, j, pin, blocked);
    }
  }

  lemma QuitOnStored(s: Pins, g: Group, k: Key, j: Key, p: Pixmap)
    requires Inv(s) && Quit(s, g, k)
    ensures Quit(Stored(s, j, p), g, k)
  {
    var groups := PendingOf(s.pending, j);
    if groups != [] {
      PinPendingKeeps(s, j, p, groups);
    }
  }

  lemma QuitStays(s: Pins, g: Group, k: Key, ev: Event)
    requires Inv(s) && Quit(s, g, k) && !AsksFor(ev, g, k)
    ensures Quit(Next(s, ev), g, k)
  {
    match ev
    case GetImage(j, pin, fetch, file, blocked) => QuitOnGet(s, g, k, j, pin, fetch, file, blocked);
    case Fetched(j, p) => QuitOnStored(s, g, k, j, p);
    case UnpinGroup(h) =>
      if h != NoGroup {
        ReleaseLeavesWaiters(s.(held := s.held - {h}), KeysOf(s.held, h));
      }
    case _ =>
  }

  ghost predicate NeverAsks(events: seq<Event>, g: Group, k: Key) {
    forall ev :: ev in events ==> !AsksFor(ev, g, k)
  }

  lemma {:induction false} QuitRunStays(s: Pins, g: Group, k: Key, events: seq<Event>)
    requires Inv(s) && Quit(s, g, k) && NeverAsks(events, g, k)
    ensures Quit(Run(s, events), g, k)
    decreases |events|
  {
    if events != [] {
      HeadTail(events);
      assert events[0] in events;
      QuitStays(s, g, k, events[0]);
      NextKeepsInv(s, events[0]);
      QuitRunStays(Next(s, events[0]), g, k, events[1..]);
    }
  }

  /**
    Once unpinned, a group never holds the key again before it asks for it again, whatever else happens,
    exactly if it was not waiting for its image.
  */
  lemma UnpinnedStaysUnheldIff(s: Pins, g: Group, k: Key)
    requires Inv(s) && g != NoGroup
    ensures (forall events :: NeverAsks(events, g, k) ==>
                k !in KeysOf(Run(Next(s, UnpinGroup(g)), events).held, g))
            <==> g !in PendingOf(s.pending, k)
  {
    var t := Next(s, UnpinGroup(g));
    UnpinOutcome(s, g);
    ReleaseLeavesWaiters(s.(held := s.held - {g}), KeysOf(s.held, g));
    if g in PendingOf(s.pending, k) {
      var events := [Fetched(k, 0)];
      UnpinnedGroupHoldsLateImageIff(s, g, k, 0);
      assert Run(t, events) == Run(Stored(t, k, 0), []);
      assert NeverAsks(events, g, k) && k in KeysOf(Run(t, events).held, g);
    } else {
      forall events | NeverAsks(events, g, k)
        ensures k !in KeysOf(Run(t, events).held, g)
      {
        QuitRunStays(t, g, k, events);
      }
    }
  }

  lemma LateImage(s: Pins, g: Group, k: Key, p: Pixmap)
    requires s.held == map[] && s.refs == map[] && s.pinned == map[] && PendingOf(s.pending, k) == [g]
    ensures var t := Stored(s, k, p);
            KeysOf(t.held, g) == [k] && t.pinned == map[k := p] && RefsOf(t.refs, k) == 1
  {
    var groups := [g];
    assert groups[1..] == [];
    assert PinPending(s, k, p, groups) == PinPending(PinTo(s, g, k, p), k, p, groups[1..]);
  }

  /** It happens: the image asked for arrives after its group was unpinned, and is pinned for it again. */
  lemma LateImageStaysPinned(g: Group, k: Key, p: Pixmap)
    requires g != NoGroup
    ensures var s := Run(EMPTY, [GetImage(k, g, true, None, false), UnpinGroup(g), Fetched(k, p)]);
            KeysOf(s.held, g) == [k] && s.pinned == map[k := p] && RefsOf(s.refs, k) == 1
  {
    var asked := Next(EMPTY, GetImage(k, g, true, None, false));
    assert [g] + [] == [g];
    assert asked.held == map[] && asked.refs == map[] && asked.pinned == map[] && PendingOf(asked.pending, k) == [g];
    assert asked.held - {g} == map[];
    var unpinned := Next(asked, UnpinGroup(g));
    assert unpinned == asked;
    LateImage(asked, g, k, p);
    RunThree(EMPTY, GetImage(k, g, true, None, false), UnpinGroup(g), Fetched(k, p));
  }

  lemma RunThree(s: Pins, a: Event, b: Event, c: Event)
    ensures Run(s, [a, b, c]) == Next(Next(Next(s, a), b), c)
  {
    assert [a, b, c][1..] == [b, c] && [b, c][1..] == [c];
    assert Run(Next(Next(s, a), b), [c]) == Run(Next(Next(Next(s, a), b), c), []);
  }

  // ------------------------------------------------------------------
  // Requests under way
  // ------------------------------------------------------------------

  lemma RequestedOutcome(s: Pins, k: Key, pin: Group, blocked: bool)
    ensures var t := Requested(s, k, pin, blocked);
            && t.disk == s.disk && t.cache == s.cache && t.held == s.held && t.pinned == s.pinned
            && (k in s.failed ==> t == s)
            && (k !in s.failed && k in s.requests ==> t.requests == s.requests && t.failed == s.failed)
            && (k !in s.failed && k !in s.requests && !blocked ==>
                  t.requests == s.requests + {k} && t.failed == s.failed)
            && (k !in s.failed && k !in s.requests && blocked ==>
                  t.requests == s.requests - {k} && t.failed == s.failed + {k} && k !in t.pending)
  {
  }

  /** What a lookup that finds no image does about the network. */
  lemma MissOutcome(s: Pins, k: Key, pin: Group, fetch: bool, file: Option<Pixmap>, blocked: bool)
    requires !Available(s, k, file)
    ensures var t := Next(s, GetImage(k, pin, fetch, file, blocked));
            && t.disk == s.disk - {k} && t.cache == s.cache && t.held == s.held && t.pinned == s.pinned
            && (!fetch || k in s.failed ==> t == s.(disk := s.disk - {k}))
            && (fetch && k !in s.failed && k in s.requests ==> t.requests == s.requests && t.failed == s.failed)
            && (fetch && k !in s.failed && k !in s.requests && !blocked ==>
                  t.requests == s.requests + {k} && t.failed == s.failed)
            && (fetch && k !in s.failed && k !in s.requests && blocked ==>
                  t.requests == s.requests - {k} && t.failed == s.failed + {k} && k !in t.pending)
  {
    RequestedOutcome(s.(disk := s.disk - {k}), k, pin, blocked);
  }

  /** A group waits after a miss if it did before, or if the lookup was for it and a request is or goes out. */
  lemma MissWaits(s: Pins, k: Key, pin: Group, file: Option<Pixmap>, blocked: bool, j: Key, g: Group)
    requires !Available(s, k, file) && k !in s.failed && (blocked ==> k in s.requests)
    ensures var t := Next(s, GetImage(k, pin, true, file, blocked));
            g in PendingOf(t.pending, j) <==> g in PendingOf(s.pending, j) || (j == k && g == pin && g != NoGroup)
  {
  }

  /** The lookup leaves those waiting for other keys alone. */
  lemma MissKeepsOthers(s: Pins, k: Key, pin: Group, fetch: bool, file: Option<Pixmap>, blocked: bool, j: Key)
    requires !Available(s, k, file) && j != k
    ensures var t := Next(s, GetImage(k, pin, fetch, file, blocked));
            PendingOf(t.pending, j) == PendingOf(s.pending, j)
  {
  }

  /** A fetched image ends its request and every failure of it; a failed one ends it and is remembered. */
  lemma RequestEnds(s: Pins, k: Key, p: Pixmap)
    requires Inv(s)
    ensures var t := Next(s, Fetched(k, p));
            && t.requests == s.requests - {k} && t.pending == s.pending - {k} && t.failed == s.failed - {k}
            && t.disk == s.disk
            && forall g :: g in PendingOf(s.pending, k) ==> k in KeysOf(t.held, g)
    ensures Next(s, FetchFailed(k)) ==
            s.(requests := s.requests - {k}, pending := s.pending - {k}, failed := s.failed + {k})
  {
    var groups := PendingOf(s.pending, k);
    if groups != [] {
      PinPendingKeeps(s, k, p, groups);
    }
  }

  /** The steps of the caches around the manager. */
  lemma CacheSteps(s: Pins, ks: set<Key>, k: Key)
    ensures Next(s, ClearFailed) == s.(failed := {})
    ensures Next(s, Evicted(ks)) == s.(cache := s.cache - ks)
    ensures Next(s, DiskWritten(k)) == s.(disk := s.disk + {k}) && Next(s, DiskPruned(ks)) == s.(disk := s.disk - ks)
  {
  }

  /** A step that answers the request of the key. */
  predicate Answers(ev: Event, k: Key) {
    (ev.Fetched? || ev.FetchFailed?) && ev.key == k
  }

  lemma WaitingStays(s: Pins, g: Group, k: Key, ev: Event)
    requires Inv(s) && g in PendingOf(s.pending, k) && !Answers(ev, k)
    ensures g in PendingOf(Next(s, ev).pending, k)
  {
    match ev
    case GetImage(j, pin, fetch, file, blocked) =>
      if Available(s, j, file) {
        GetAvailableKeepsAgreed(s, j, pin, fetch, file, blocked);
      } else if j != k {
        MissKeepsOthers(s, j, pin, fetch, file, blocked, k);
      } else if fetch && k !in s.failed {
        MissWaits(s, k, pin, file, blocked, k, g);
      }
    case Fetched(j, p) => RequestEnds(s, j, p);
    case UnpinGroup(h) =>
      if h != NoGroup {
        ReleaseLeavesWaiters(s.(held := s.held - {h}), KeysOf(s.held, h));
      }
    case _ =>
  }

  /** A group that waits for an image gets it, whatever else happens before the answer. */
  lemma {:induction false} WaitersAreServed(s: Pins, g: Group, k: Key, events: seq<Event>, p: Pixmap)
    requires Inv(s) && g in PendingOf(s.pending, k) && forall ev :: ev in events ==> !Answers(ev, k)
    ensures g in PendingOf(Run(s, events).pending, k)
    ensures k in KeysOf(Next(Run(s, events), Fetched(k, p)).held, g)
    decreases |events|
  {
    if events == [] {
      RequestEnds(s, k, p);
    } else {
      HeadTail(events);
      assert events[0] in events;
      WaitingStays(s, g, k, events[0]);
      NextKeepsInv(s, events[0]);
      WaitersAreServed(Next(s, events[0]), g, k, events[1..], p);
    }
  }

  /** A failed key is not asked for again before the failures are cleared or its image arrives after all. */
  lemma {:induction false} FailedIsNotRetried(s: Pins, k: Key, events: seq<Event>)
    requires k in s.failed && k !in s.requests
    requires forall ev :: ev in events ==> ev != ClearFailed && !(ev.Fetched? && ev.key == k)
    ensures k in Run(s, events).failed && k !in Run(s, events).requests
    decreases |events|
  {
    if events != [] {
      HeadTail(events);
      assert events[0] in events;
      StaysFailed(s, k, events[0]);
      FailedIsNotRetried(Next(s, events[0]), k, events[1..]);
    }
  }

  lemma StaysFailed(s: Pins, k: Key, ev: Event)
    requires k in s.failed && k !in s.requests && ev != ClearFailed && !(ev.Fetched? && ev.key == k)
    ensures k in Next(s, ev).failed && k !in Next(s, ev).requests
  {
    match ev
    case Fetched(j, p) => PinPendingRequests(s, j, p, PendingOf(s.pending, j));
    case UnpinGroup(h) =>
      if h != NoGroup {
        ReleaseRequests(s.(held := s.held - {h}), KeysOf(s.held, h));
      }
    case _ =>
  }

  lemma {:induction false} PinPendingRequests(s: Pins, k: Key, p: Pixmap, groups: seq<Group>)
    ensures var t := PinPending(s, k, p, groups); t.failed == s.failed && t.requests == s.requests
    decreases |groups|
  {
    if groups != [] {
      PinPendingRequests(if k in KeysOf(s.held, groups[0]) then s else PinTo(s, groups[0], k, p), k, p, groups[1..]);
    }
  }

  lemma {:induction false} ReleaseRequests(s: Pins, keys: seq<Key>)
    ensures var t := Release(s, keys); t.failed == s.failed && t.requests == s.requests
    decreases |keys|
  {
    if keys != [] {
      ReleaseRequests(ReleaseOne(s, keys[0]), keys[1..]);
    }
  }

  /** What a lookup shows: the pinned image, else the cached one, else what the cache file yields. */
  lemma ShownFrom(s: Pins, k: Key, file: Option<Pixmap>)
    ensures k in s.pinned ==> Shown(s, k, file) == Some(s.pinned[k])
    ensures k !in s.pinned && k in s.cache ==> Shown(s, k, file) == Some(s.cache[k])
    ensures k !in s.pinned && k !in s.cache && k in s.disk ==> Shown(s, k, file) == file
    ensures !Available(s, k, file) ==> Shown(s, k, file) == None
  {
  }

  /** In every reachable state: references count holders, and positive counts are the pinned keys. */
  lemma PinnedIffHeld(events: seq<Event>, k: Key)
    ensures var s := Run(EMPTY, events);
            && RefsOf(s.refs, k) == Holders(s.held, k)
            && (k in s.pinned <==> Holders(s.held, k) > 0)
            && (k in s.refs <==> k in s.pinned)
  {
    forall j ensures Tied(EMPTY, [], j) {
    }
    RunsKeepInv(EMPTY, events);
    assert Tied(Run(EMPTY, events), [], k);
  }

  lemma HoldingSurvivesGet(s: Pins, g: Group, k: Key, j: Key, pin: Group, fetch: bool, file: Option<Pixmap>,
                           blocked: bool)
    requires k in KeysOf(s.held, g)
    ensures k in KeysOf(Got(s, j, pin, fetch, file, blocked).held, g)
  {
    if Available(s, j, file) {
      if pin != NoGroup && j !in KeysOf(s.held, pin) {
        GetPinsAvailable(s, j, pin, fetch, file, blocked);
        assert pin == g ==> KeysOf(Insert(s.held, pin, j), g) == [j] + KeysOf(s.held, g);
      }
    } else {
      RequestLeavesTables(s.(disk := s.disk - {j}), j, pin, blocked);
    }
  }

  lemma HoldingSurvives(s: Pins, ev: Event, g: Group, k: Key)
    requires Inv(s) && g != NoGroup && k in KeysOf(s.held, g) && ev != UnpinGroup(g)
    ensures k in KeysOf(Next(s, ev).held, g)
  {
    match ev
    case GetImage(j, pin, fetch, file, blocked) => HoldingSurvivesGet(s, g, k, j, pin, fetch, file, blocked);
    case Fetched(j, p) =>
      if PendingOf(s.pending, j) != [] {
        PinPendingKeeps(s, j, p, PendingOf(s.pending, j));
      }
    case UnpinGroup(h) =>
      if h != NoGroup {
        UnpinOutcome(s, h);
      }
    case _ =>
  }

  /** Eviction, other views and late replies never unpin: only the group itself lets go of an image. */
  lemma {:induction false} PinnedUntilUnpinned(s: Pins, events: seq<Event>, g: Group, k: Key)
    requires Inv(s) && g != NoGroup && k in KeysOf(s.held, g) && UnpinGroup(g) !in events
    ensures k in KeysOf(Run(s, events).held, g) && k in Run(s, events).pinned
    decreases |events|
  {
    if events == [] {
      assert Tied(s, [], k);
    } else {
      HeadTail(events);
      assert events[0] in events;
      HoldingSurvives(s, events[0], g, k);
      NextKeepsInv(s, events[0]);
      PinnedUntilUnpinned(Next(s, events[0]), events[1..], g, k);
    }
  }

  // ------------------------------------------------------------------
  // The manager
  // ------------------------------------------------------------------

  class ImageManager {
    var pinnedImages: map<Key, Pixmap>
    var pinGroupKeys: Held
    var pinRefCounts: map<Key, int>
    var cache: map<Key, Pixmap>
    var requests: set<Key>
    var pendingPins: map<Key, seq<Group>>
    var failedRequests: set<Key>
    var diskCacheKeys: set<Key>

    function Tables(): Pins
      reads this
    {
      Pins(pinnedImages, pinGroupKeys, pinRefCounts, cache, requests, pendingPins, failedRequests, diskCacheKeys)
    }

    constructor ()
      ensures Tables() == EMPTY
    {
      pinnedImages, pinGroupKeys, pinRefCounts, cache := map[], map[], map[], map[];
      requests, pendingPins, failedRequests, diskCacheKeys := {}, map[], {}, {};
    }

    method FailRequest(k: Key)
      modifies this
      ensures Tables() == Failed(old(Tables()), k)
    {
      requests := requests - {k};
      pendingPins := pendingPins - {k};
      failedRequests := failedRequests + {k};
    }

    method PinFor(group: Group, k: Key, pixmap: Pixmap)
      modifies this`pinnedImages, this`pinGroupKeys, this`pinRefCounts
      ensures Tables() == PinTo(old(Tables()), group, k, pixmap)
    {
      pinnedImages := pinnedImages[k := pixmap];
      pinGroupKeys := Insert(pinGroupKeys, group, k);
      pinRefCounts := pinRefCounts[k := RefsOf(pinRefCounts, k) + 1];
    }

    method Request(k: Key, pin: Group, blocked: bool)
      modifies this
      ensures Tables() == Requested(old(Tables()), k, pin, blocked)
    {
      if k in failedRequests {
        return;
      }
      if k in requests {
        if pin != NoGroup && pin !in PendingOf(pendingPins, k) {
          pendingPins := pendingPins[k := [pin] + PendingOf(pendingPins, k)];
        }
        return;
      }
      requests := requests + {k};
      if pin != NoGroup {
        pendingPins := pendingPins[k := [pin] + PendingOf(pendingPins, k)];
      }
      if blocked {
        FailRequest(k);
      }
    }

    method Get(k: Key, pin: Group, fetchIfNeeded: bool, file: Option<Pixmap>, blocked: bool)
      returns (image: Option<Pixmap>)
      modifies this
      ensures Tables() == Got(old(Tables()), k, pin, fetchIfNeeded, file, blocked)
      ensures image == Shown(old(Tables()), k, file)
    {
      if k in pinnedImages {
        if pin != NoGroup && k !in KeysOf(pinGroupKeys, pin) {
          pinGroupKeys := Insert(pinGroupKeys, pin, k);
          pinRefCounts := pinRefCounts[k := RefsOf(pinRefCounts, k) + 1];
        }
        return Some(pinnedImages[k]);
      }
      if k in cache {
        var pixmap := cache[k];
        if pin != NoGroup {
          PinFor(pin, k, pixmap);
          cache := cache - {k};
        }
        return Some(pixmap);
      }
      if k in diskCacheKeys {
        if file.Some? {
          if pin != NoGroup {
            PinFor(pin, k, file.value);
          } else {
            cache := cache[k := file.value];
          }
          return file;
        }
        diskCacheKeys := diskCacheKeys - {k};
      } else {
        assert diskCacheKeys - {k} == diskCacheKeys;
      }
      if fetchIfNeeded {
        Request(k, pin, blocked);
      }
      return None;
    }

    method StoreFetchedPixmap(k: Key, pixmap: Pixmap)
      modifies this
      ensures Tables() == Stored(old(Tables()), k, pixmap)
    {
      var pins := PendingOf(pendingPins, k);
      if pins == [] {
        cache := cache[k := pixmap];
      } else {
        var i := 0;
        ghost var start := Tables();
        while i < |pins|
          invariant 0 <= i <= |pins|
          invariant PinPending(Tables(), k, pixmap, pins[i..]) == PinPending(start, k, pixmap, pins)
          invariant requests == old(requests) && pendingPins == old(pendingPins)
          invariant failedRequests == old(failedRequests)
        {
          assert pins[i..][0] == pins[i] && pins[i..][1..] == pins[i + 1..];
          if k !in KeysOf(pinGroupKeys, pins[i]) {
            PinFor(pins[i], k, pixmap);
          }
          i := i + 1;
        }
      }
      requests := requests - {k};
      pendingPins := pendingPins - {k};
      failedRequests := failedRequests - {k};
    }

    /** The body of the unpin loop for one key of the group. */
    method ReleaseKey(k: Key)
      modifies this`pinRefCounts, this`cache, this`pinnedImages
      ensures Tables() == ReleaseOne(old(Tables()), k)
    {
      if k !in pinRefCounts {
        return;
      }
      pinRefCounts := pinRefCounts[k := pinRefCounts[k] - 1];
      if pinRefCounts[k] > 0 {
        return;
      }
      pinRefCounts := pinRefCounts - {k};
      assert pinRefCounts == old(pinRefCounts) - {k};
      if k in pinnedImages {
        cache := cache[k := pinnedImages[k]];
        pinnedImages := pinnedImages - {k};
      } else {
        assert pinnedImages - {k} == pinnedImages;
      }
    }

    method UnpinGroup(group: Group)
      modifies this
      ensures Tables() == Unpinned(old(Tables()), group)
    {
      if group == NoGroup {
        return;
      }
      var keys := KeysOf(pinGroupKeys, group);
      pinGroupKeys := pinGroupKeys - {group};
      ghost var start := Tables();
      var i := 0;
      while i < |keys|
        invariant 0 <= i <= |keys|
        invariant Release(Tables(), keys[i..]) == Release(start, keys)
      {
        assert keys[i..][0] == keys[i] && keys[i..][1..] == keys[i + 1..];
        ReleaseKey(keys[i]);
        i := i + 1;
      }
    }
  }
}
