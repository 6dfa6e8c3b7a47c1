/**
  The permission cache (src/Core/PermissionManager.cpp): a hash from (user, channel) to
  permissions, a doubly linked list of keys in last-use order, and an index from each key
  to its list node.  It refines `Lru`, a bounded set of values with a last-use order.

  A list node keeps its identity while it is spliced about, so the list is modelled as a
  sequence of node identities and the index as a map from keys to node identities.
*/
module PermissionCache {
  import opened Sequences

  type Key = (int, int)             // user, channel
  type Permissions = bv64

  const MAX_SIZE := 10000

  // ------------------------------------------------------------------
  // The abstract cache
  // ------------------------------------------------------------------

  /** `order` lists the keys, least recently used first. */
  datatype Lru = Lru(order: seq<Key>, values: map<Key, Permissions>)

  ghost predicate LruInv(c: Lru) {
    && NoDup(c.order)
    && (forall k :: k in c.order <==> k in c.values)
    && |c.order| <= MAX_SIZE
  }

  /** Stores a value: a present key moves to the back, a new one pushes out the oldest of a full cache. */
  function Stored(c: Lru, k: Key, p: Permissions): Lru {
    if k in c.values then Lru(Without(c.order, k) + [k], c.values[k := p])
    else if |c.order| < MAX_SIZE then Lru(c.order + [k], c.values[k := p])
    else Lru(c.order[1..] + [k], (c.values - {c.order[0]})[k := p])
  }

  /** Reads a key, computing its value if absent: either way it becomes the most recently used. */
  function Fetched(c: Lru, k: Key, computed: Permissions): Lru {
    Stored(c, k, if k in c.values then c.values[k] else computed)
  }

  function Invalidated(c: Lru, dead: set<Key>): Lru {
    Lru(Minus(c.order, dead), c.values - dead)
  }

  datatype Event =
    | Store(key: Key, permissions: Permissions)       // a precomputed value
    | Fetch(key: Key, computed: Permissions)          // a query; `computed` is used only on a miss
    | Invalidate(dead: set<Key>)

  function Next(c: Lru, e: Event): Lru {
    match e
    case Store(k, p) => Stored(c, k, p)
    case Fetch(k, p) => Fetched(c, k, p)
    case Invalidate(dead) => Invalidated(c, dead)
  }

  ghost function Run(h: seq<Event>): Lru
    decreases |h|
  {
    if h == [] then Lru([], map[]) else Next(Run(h[..|h| - 1]), h[|h| - 1])
  }

  // ------------------------------------------------------------------
  // What every run keeps
  // ------------------------------------------------------------------

  lemma StoredKeepsInv(c: Lru, k: Key, p: Permissions)
    requires LruInv(c)
    ensures LruInv(Stored(c, k, p))
  {
    if k in c.values {
      WithoutNoDup(c.order, k);
      NoDupAppend(Without(c.order, k), k);
    } else if |c.order| < MAX_SIZE {
      NoDupAppend(c.order, k);
    } else {
      assert forall x :: x in c.order <==> x == c.order[0] || x in c.order[1..];
      NoDupAppend(c.order[1..], k);
    }
  }

  lemma NextKeepsInv(c: Lru, e: Event)
    requires LruInv(c)
    ensures LruInv(Next(c, e))
  {
    match e {
      case Store(k, p) => StoredKeepsInv(c, k, p);
      case Fetch(k, p) => StoredKeepsInv(c, k, if k in c.values then c.values[k] else p);
      case Invalidate(dead) => MinusNoDup(c.order, dead);
    }
  }

  /** The value last stored for a key, or computed for it when it was not cached. */
  ghost function LastValue(h: seq<Event>, k: Key): Permissions
    decreases |h|
  {
    if h == [] then 0
    else
      var before, e := h[..|h| - 1], h[|h| - 1];
      if e.Store? && e.key == k then e.permissions
      else if e.Fetch? && e.key == k && k !in Run(before).values then e.computed
      else LastValue(before, k)
  }

  /** What is cached is never stale with respect to what was stored or computed: it is the latest such value. */
  lemma {:induction false} CachedIsLatest(h: seq<Event>, k: Key)
    requires k in Run(h).values
    ensures Run(h).values[k] == LastValue(h, k)
    decreases |h|
  {
    var before := h[..|h| - 1];
    if k in Run(before).values {
      CachedIsLatest(before, k);
    }
  }

  /** When a key was last read or stored; 0 if never. */
  ghost function LastUse(h: seq<Event>, k: Key): nat
    decreases |h|
  {
    if h == [] then 0
    else if !h[|h| - 1].Invalidate? && h[|h| - 1].key == k then |h|
    else LastUse(h[..|h| - 1], k)
  }

  lemma {:induction false} LastUseBound(h: seq<Event>, k: Key)
    ensures LastUse(h, k) <= |h|
    decreases |h|
  {
    if h != [] {
      LastUseBound(h[..|h| - 1], k);
    }
  }

  /** Each key was last used before every key after it. */
  ghost predicate InUseOrder(h: seq<Event>, ks: seq<Key>) {
    ks != [] ==> InUseOrder(h, ks[1..]) && forall k :: k in ks[1..] ==> LastUse(h, ks[0]) < LastUse(h, k)
  }

  /** In every reachable state the cache is within its bound, free of duplicates, and in order of last use. */
  lemma {:induction false} RunsInUseOrder(h: seq<Event>)
    ensures LruInv(Run(h)) && InUseOrder(h, Run(h).order)
    decreases |h|
  {
    if h != [] {
      var before, e := h[..|h| - 1], h[|h| - 1];
      RunsInUseOrder(before);
      var c := Run(before);
      NextKeepsInv(c, e);
      if e.Invalidate? {
        MinusInOrder(before, c.order, e.dead);
        SameOrder(before, h, Minus(c.order, e.dead));
      } else {
        var rest := Run(h).order[..|Run(h).order| - 1];
        if e.key in c.values {
          WithoutInOrder(before, c.order, e.key);
          assert rest == Without(c.order, e.key);
        } else if |c.order| < MAX_SIZE {
          assert rest == c.order;
        } else {
          assert rest == c.order[1..];
          assert forall k :: k in rest ==> k in c.order;
        }
        SameOrder(before, h, rest);
        UsedLast(h, rest, e.key);
        assert Run(h).order == rest + [e.key];
      }
    }
  }

  lemma {:induction false} SameOrder(before: seq<Event>, h: seq<Event>, ks: seq<Key>)
    requires InUseOrder(before, ks) && forall k :: k in ks ==> LastUse(h, k) == LastUse(before, k)
    ensures InUseOrder(h, ks)
  {
    if ks != [] {
      SameOrder(before, h, ks[1..]);
      assert ks[0] in ks;
    }
  }

  lemma {:induction false} WithoutInOrder(h: seq<Event>, ks: seq<Key>, x: Key)
    requires InUseOrder(h, ks)
    ensures InUseOrder(h, Without(ks, x))
  {
    if ks != [] {
      WithoutInOrder(h, ks[1..], x);
      var rest := Without(ks[1..], x);
      assert ([ks[0]] + rest)[1..] == rest;
    }
  }

  lemma {:induction false} MinusInOrder(h: seq<Event>, ks: seq<Key>, dead: set<Key>)
    requires InUseOrder(h, ks)
    ensures InUseOrder(h, Minus(ks, dead))
  {
    if ks != [] {
      MinusInOrder(h, ks[1..], dead);
      var rest := Minus(ks[1..], dead);
      assert ([ks[0]] + rest)[1..] == rest;
    }
  }

  /** The key just used goes to the back. */
  lemma {:induction false} UsedLast(h: seq<Event>, ks: seq<Key>, k: Key)
    requires InUseOrder(h, ks) && k !in ks
    requires h != [] && !h[|h| - 1].Invalidate? && h[|h| - 1].key == k
    ensures InUseOrder(h, ks + [k])
  {
    if ks != [] {
      UsedLast(h, ks[1..], k);
      assert (ks + [k])[1..] == ks[1..] + [k];
      assert ks[0] in ks;
      LastUseBound(h[..|h| - 1], ks[0]);
    } else {
      assert (ks + [k])[1..] == [];
    }
  }

  /** A new key entering a full cache pushes out exactly one key, the one used least recently. */
  lemma EvictsLeastRecentlyUsed(h: seq<Event>, k: Key, p: Permissions, x: Key)
    requires |Run(h).order| == 10000 && k !in Run(h).values && x in Run(h).values
    ensures var after := Stored(Run(h), k, p);
            x !in after.values <==> forall y :: y in Run(h).values ==> LastUse(h, x) <= LastUse(h, y)
  {
    RunsInUseOrder(h);
    var c := Run(h);
    assert forall y :: y in c.order <==> y == c.order[0] || y in c.order[1..];
  }

  // ------------------------------------------------------------------
  // Without invalidations: the most recent distinct keys
  // ------------------------------------------------------------------

  /** The distinct keys used, in order of last use. */
  ghost function Recent(h: seq<Event>): (r: seq<Key>)
    requires forall e :: e in h ==> !e.Invalidate?
    decreases |h|
  {
    if h == [] then []
    else
      assert h[|h| - 1] in h;
      Without(Recent(h[..|h| - 1]), h[|h| - 1].key) + [h[|h| - 1].key]
  }

  lemma {:induction false} RecentNoDup(h: seq<Event>)
    requires forall e :: e in h ==> !e.Invalidate?
    ensures NoDup(Recent(h))
    decreases |h|
  {
    if h != [] {
      RecentNoDup(h[..|h| - 1]);
      assert h[|h| - 1] in h;
      var before := Recent(h[..|h| - 1]);
      WithoutNoDup(before, h[|h| - 1].key);
      NoDupAppend(Without(before, h[|h| - 1].key), h[|h| - 1].key);
    }
  }

  /** A run of uses caches exactly the last 10000 distinct keys used, in order of last use. */
  lemma {:induction false} CachesMostRecent(h: seq<Event>)
    requires forall e :: e in h ==> !e.Invalidate?
    ensures Run(h).order == LastN(Recent(h), 10000)
    decreases |h|
  {
    if h != [] {
      var before, e := h[..|h| - 1], h[|h| - 1];
      assert e in h;
      CachesMostRecent(before);
      RunsInUseOrder(before);
      RecentNoDup(before);
      LastNStep(Recent(before), e.key);
    }
  }

  lemma {:induction false} LastNStep(r: seq<Key>, k: Key)
    requires NoDup(r)
    ensures var last := LastN(r, MAX_SIZE);
            LastN(Without(r, k) + [k], MAX_SIZE) ==
            if k in last then Without(last, k) + [k]
            else if |last| < MAX_SIZE then last + [k] else last[1..] + [k]
  {
    WithoutNoDup(r, k);
    if |r| <= MAX_SIZE {
      if k !in r {
        WithoutAbsent(r, k);
        assert |r| == MAX_SIZE ==> (r + [k])[1..] == r[1..] + [k];
      }
    } else {
      LastNStep(r[1..], k);
      WithoutNoDup(r[1..], k);
      if r[0] != k {
        assert (Without(r, k) + [k])[1..] == Without(r[1..], k) + [k];
      }
    }
  }

  // ------------------------------------------------------------------
  // The code
  // ------------------------------------------------------------------

  /** The keys held by a list of nodes. */
  ghost function KeysOf(nodes: seq<nat>, node: map<nat, Key>): seq<Key>
    requires forall id :: id in nodes ==> id in node
  {
    if nodes == [] then []
    else
      assert nodes[0] in nodes;
      [node[nodes[0]]] + KeysOf(nodes[1..], node)
  }

  lemma {:induction false} KeysAt(nodes: seq<nat>, node: map<nat, Key>)
    requires forall id :: id in nodes ==> id in node
    ensures var ks := KeysOf(nodes, node); |ks| == |nodes| && forall i :: 0 <= i < |nodes| ==> ks[i] == node[nodes[i]]
  {
    if nodes != [] {
      KeysAt(nodes[1..], node);
    }
  }

  lemma {:induction false} KeysConcat(a: seq<nat>, b: seq<nat>, node: map<nat, Key>)
    requires (forall id :: id in a ==> id in node) && (forall id :: id in b ==> id in node)
    ensures forall id :: id in a + b ==> id in node
    ensures KeysOf(a + b, node) == KeysOf(a, node) + KeysOf(b, node)
  {
    if a == [] {
      assert a + b == b;
    } else {
      assert (a + b)[1..] == a[1..] + b;
      KeysConcat(a[1..], b, node);
    }
  }

  /** The code's state: hash, list, node contents, index, and the identity the next node will get. */
  datatype Rep = Rep(values: map<Key, Permissions>, nodes: seq<nat>, node: map<nat, Key>, index: map<Key, nat>,
                     next: nat)

  /** One node per key and one index entry per node. */
  ghost predicate Indexed(node: map<nat, Key>, index: map<Key, nat>) {
    && (forall id :: id in node ==> node[id] in index && index[node[id]] == id)
    && (forall k :: k in index ==> index[k] in node && node[index[k]] == k)
  }

  ghost predicate Listed(nodes: seq<nat>, node: map<nat, Key>) {
    NoDup(nodes) && forall id :: id in nodes <==> id in node
  }

  /** Hash, list and index agree. */
  ghost predicate Linked(r: Rep) {
    && Listed(r.nodes, r.node)
    && Indexed(r.node, r.index)
    && r.index.Keys == r.values.Keys
    && |r.nodes| <= MAX_SIZE
    && forall id :: id in r.node ==> id < r.next
  }

  /** What the state stands for. */
  ghost function Abs(r: Rep): Lru
    requires Linked(r)
  {
    Lru(KeysOf(r.nodes, r.node), r.values)
  }

  lemma {:induction false} KeysNoDup(nodes: seq<nat>, node: map<nat, Key>)
    requires NoDup(nodes) && forall id :: id in nodes ==> id in node
    requires forall x, y :: x in node && y in node && node[x] == node[y] ==> x == y
    ensures var ks := KeysOf(nodes, node);
            NoDup(ks) && |ks| == |nodes| && forall k :: k in ks <==> exists id :: id in nodes && node[id] == k
  {
    if nodes != [] {
      var rest := nodes[1..];
      KeysNoDup(rest, node);
      assert nodes[0] in nodes && nodes[0] !in rest;
      assert forall id :: id in nodes <==> id == nodes[0] || id in rest;
      assert node[nodes[0]] !in KeysOf(rest, node);
      NoDupPrepend(node[nodes[0]], KeysOf(rest, node));
    }
  }

  /** The abstract cache of a linked state is well formed, and as large as the hash. */
  lemma LinkedIsLru(r: Rep)
    requires Linked(r)
    ensures LruInv(Abs(r)) && |r.nodes| == |r.values| == |Abs(r).order|
  {
    KeysNoDup(r.nodes, r.node);
    forall k ensures k in Abs(r).order <==> k in r.values {
      if k in r.index {
        assert r.index[k] in r.nodes && r.node[r.index[k]] == k;
      }
    }
    NoDupCard(Abs(r).order, r.values.Keys);
  }

  /** Removing a node removes exactly its key. */
  lemma {:induction false} UnlinkedKeys(nodes: seq<nat>, node: map<nat, Key>, id: nat)
    requires id in node && forall x :: x in nodes ==> x in node && (node[x] == node[id] ==> x == id)
    ensures KeysOf(Without(nodes, id), node) == Without(KeysOf(nodes, node), node[id])
  {
    if nodes != [] {
      var rest := nodes[1..];
      UnlinkedKeys(rest, node, id);
      assert nodes[0] in nodes;
      var ks := KeysOf(nodes, node);
      assert ks[1..] == KeysOf(rest, node);
      if nodes[0] == id {
        assert Without(nodes, id) == Without(rest, id);
      } else {
        assert Without(nodes, id) == [nodes[0]] + Without(rest, id);
        assert ([nodes[0]] + Without(rest, id))[1..] == Without(rest, id);
      }
    }
  }

  lemma {:induction false} SameKeys(nodes: seq<nat>, node: map<nat, Key>, moved: map<nat, Key>)
    requires forall x :: x in nodes ==> x in node && x in moved && node[x] == moved[x]
    ensures KeysOf(nodes, node) == KeysOf(nodes, moved)
  {
    if nodes != [] {
      SameKeys(nodes[1..], node, moved);
    }
  }

  /** The node of a key spliced to the back of the list. */
  function Spliced(r: Rep, k: Key): Rep
    requires k in r.index
  {
    r.(nodes := Without(r.nodes, r.index[k]) + [r.index[k]])
  }

  /** The node, index entry and value of a key erased. */
  function Erased(r: Rep, k: Key): Rep
    requires k in r.index
  {
    Rep(r.values - {k}, Without(r.nodes, r.index[k]), r.node - {r.index[k]}, r.index - {k}, r.next)
  }

  /** A fresh node for a new key linked in at the back. */
  function Linked1(r: Rep, k: Key, p: Permissions): Rep {
    Rep(r.values[k := p], r.nodes + [r.next], r.node[r.next := k], r.index[k := r.next], r.next + 1)
  }

  lemma ListedSpliced(nodes: seq<nat>, node: map<nat, Key>, id: nat)
    requires Listed(nodes, node) && id in nodes
    ensures Listed(Without(nodes, id) + [id], node) && |Without(nodes, id) + [id]| == |nodes|
  {
    WithoutNoDup(nodes, id);
    NoDupAppend(Without(nodes, id), id);
  }

  lemma ListedErased(nodes: seq<nat>, node: map<nat, Key>, id: nat)
    requires Listed(nodes, node) && id in nodes
    ensures Listed(Without(nodes, id), node - {id}) && |Without(nodes, id)| == |nodes| - 1
  {
    WithoutNoDup(nodes, id);
  }

  lemma IndexedErased(node: map<nat, Key>, index: map<Key, nat>, k: Key)
    requires Indexed(node, index) && k in index
    ensures Indexed(node - {index[k]}, index - {k})
  {
  }

  lemma SplicedKeys(nodes: seq<nat>, node: map<nat, Key>, index: map<Key, nat>, k: Key)
    requires Listed(nodes, node) && Indexed(node, index) && k in index
    ensures forall x :: x in Without(nodes, index[k]) + [index[k]] ==> x in node
    ensures KeysOf(Without(nodes, index[k]) + [index[k]], node) == Without(KeysOf(nodes, node), k) + [k]
    ensures KeysOf(Without(nodes, index[k]), node) == Without(KeysOf(nodes, node), k)
  {
    var id := index[k];
    UnlinkedKeys(nodes, node, id);
    KeysConcat(Without(nodes, id), [id], node);
    assert KeysOf([id], node) == [k] by { assert [id][1..] == []; }
  }

  lemma SplicedKeeps(r: Rep, k: Key)
    requires Linked(r) && k in r.index
    ensures Linked(Spliced(r, k)) && Abs(Spliced(r, k)) == Lru(Without(Abs(r).order, k) + [k], r.values)
  {
    ListedSpliced(r.nodes, r.node, r.index[k]);
    SplicedKeys(r.nodes, r.node, r.index, k);
  }

  lemma ErasedKeeps(r: Rep, k: Key)
    requires Linked(r) && k in r.index
    ensures Linked(Erased(r, k)) && Abs(Erased(r, k)) == Lru(Without(Abs(r).order, k), r.values - {k})
  {
    var id := r.index[k];
    ListedErased(r.nodes, r.node, id);
    IndexedErased(r.node, r.index, k);
    SplicedKeys(r.nodes, r.node, r.index, k);
    SameKeys(Without(r.nodes, id), r.node, r.node - {id});
  }

  lemma InvalidatedNothing(c: Lru)
    ensures Invalidated(c, {}) == c
  {
    MinusNothing(c.order);
    assert c.values - {} == c.values;
  }

  lemma InvalidatedOneMore(c: Lru, gone: set<Key>, k: Key)
    ensures var d := Invalidated(c, gone); Lru(Without(d.order, k), d.values - {k}) == Invalidated(c, gone + {k})
  {
    MinusThenOne(c.order, gone, k);
    assert c.values - gone - {k} == c.values - (gone + {k});
  }

  function WithoutOldest(c: Lru): Lru
    requires c.order != []
  {
    Lru(c.order[1..], c.values - {c.order[0]})
  }

  /** Erasing the key at the front of the list. */
  lemma FrontErased(r: Rep)
    requires Linked(r) && r.nodes != []
    ensures r.nodes[0] in r.node && Linked(Erased(r, r.node[r.nodes[0]]))
    ensures Abs(r).order != [] && Abs(Erased(r, r.node[r.nodes[0]])) == WithoutOldest(Abs(r))
    ensures Erased(r, r.node[r.nodes[0]]).nodes == r.nodes[1..]
  {
    var front := r.nodes[0];
    assert front in r.nodes;
    ErasedKeeps(r, r.node[front]);
    LinkedIsLru(r);
    assert r.nodes[0] !in r.nodes[1..];
    WithoutAbsent(r.nodes[1..], front);
    WithoutAbsent(Abs(r).order[1..], r.node[front]);
  }

  lemma ListedOneMore(nodes: seq<nat>, node: map<nat, Key>, id: nat, k: Key)
    requires Listed(nodes, node) && id !in node
    ensures Listed(nodes + [id], node[id := k])
    ensures KeysOf(nodes + [id], node[id := k]) == KeysOf(nodes, node) + [k]
  {
    NoDupAppend(nodes, id);
    SameKeys(nodes, node, node[id := k]);
    KeysConcat(nodes, [id], node[id := k]);
    assert KeysOf([id], node[id := k]) == [k] by { assert [id][1..] == []; }
  }

  lemma IndexedOneMore(node: map<nat, Key>, index: map<Key, nat>, id: nat, k: Key)
    requires Indexed(node, index) && id !in node && k !in index
    ensures Indexed(node[id := k], index[k := id])
  {
  }

  lemma LinkedOneMore(r: Rep, k: Key, p: Permissions)
    requires Linked(r) && k !in r.values && |r.nodes| < MAX_SIZE
    ensures Linked(Linked1(r, k, p)) && Abs(Linked1(r, k, p)) == Lru(Abs(r).order + [k], r.values[k := p])
  {
    assert r.next !in r.node;
    assert k !in r.index by { assert k !in r.index.Keys; }
    ListedOneMore(r.nodes, r.node, r.next, k);
    IndexedOneMore(r.node, r.index, r.next, k);
  }

  class PermissionManager {
    var permissionCache: map<Key, Permissions>
    var permissionCacheLru: seq<nat>                 // list nodes, front first
    var node: map<nat, Key>                          // the key stored in each live node
    var permissionCacheLruIndex: map<Key, nat>
    var nextNode: nat                                // nodes are allocated with fresh identities
    var signals: seq<int>                            // channelPermissionsChanged

    ghost function Fields(): Rep
      reads this
    {
      Rep(permissionCache, permissionCacheLru, node, permissionCacheLruIndex, nextNode)
    }

    ghost predicate Valid()
      reads this
    {
      Linked(Fields())
    }

    /** What the cache stands for. */
    ghost function View(): Lru
      requires Valid()
      reads this
    {
      Abs(Fields())
    }

    constructor ()
      ensures Valid() && View() == Run([]) && signals == []
    {
      permissionCache, permissionCacheLru, node, permissionCacheLruIndex := map[], [], map[], map[];
      nextNode, signals := 0, [];
    }

    /** Splices the node of a key to the back of the list. */
    method Promote(k: Key)
      requires Valid() && k in permissionCacheLruIndex
      modifies this`permissionCacheLru
      ensures Valid()
      ensures View() == Lru(Without(old(View()).order, k) + [k], permissionCache)
    {
      SplicedKeeps(Fields(), k);
      var id := permissionCacheLruIndex[k];
      permissionCacheLru := Without(permissionCacheLru, id) + [id];
    }

    method InsertIntoCache(key: Key, permissions: Permissions)
      requires Valid()
      modifies this`permissionCache, this`permissionCacheLru, this`node, this`permissionCacheLruIndex, this`nextNode
      ensures Valid() && View() == Stored(old(View()), key, permissions)
    {
      LinkedIsLru(Fields());
      if key in permissionCache {
        permissionCache := permissionCache[key := permissions];
        if key in permissionCacheLruIndex {
          Promote(key);
        } else {
          assert false;   // every cached key is indexed
        }
        return;
      }
      MakeRoom();
      LinkedIsLru(Fields());
      AppendNode(key, permissions);
    }

    /** Evicts from the front while the cache is full. */
    method MakeRoom()
      requires Valid()
      modifies this`permissionCache, this`permissionCacheLru, this`node, this`permissionCacheLruIndex
      ensures Valid()
      ensures View() == if |old(View()).order| < MAX_SIZE then old(View()) else WithoutOldest(old(View()))
    {
      LinkedIsLru(Fields());
      ghost var start := View();
      while |permissionCache| >= MAX_SIZE && permissionCacheLru != []
        invariant Valid() && |permissionCache| == |View().order|
        invariant View() == start || (|start.order| == MAX_SIZE && View() == WithoutOldest(start))
        decreases |permissionCacheLru|
      {
        EvictOldest();
        LinkedIsLru(Fields());
      }
      LinkedIsLru(Fields());
    }

    method AppendNode(key: Key, permissions: Permissions)
      requires Valid() && key !in permissionCache && |permissionCacheLru| < MAX_SIZE
      modifies this`permissionCache, this`permissionCacheLru, this`node, this`permissionCacheLruIndex, this`nextNode
      ensures Valid()
      ensures View() == Lru(old(View()).order + [key], old(permissionCache)[key := permissions])
    {
      LinkedOneMore(Fields(), key, permissions);
      var id := nextNode;
      nextNode := nextNode + 1;
      permissionCache := permissionCache[key := permissions];
      permissionCacheLru := permissionCacheLru + [id];
      node := node[id := key];
      permissionCacheLruIndex := permissionCacheLruIndex[key := id];
      assert Fields() == Linked1(old(Fields()), key, permissions);
    }

    /** Drops the front of the list and everything that refers to it. */
    method EvictOldest()
      requires Valid() && permissionCacheLru != []
      modifies this`permissionCache, this`permissionCacheLru, this`node, this`permissionCacheLruIndex
      ensures Valid() && |permissionCacheLru| < |old(permissionCacheLru)|
      ensures old(View()).order != [] && View() == WithoutOldest(old(View()))
    {
      FrontErased(Fields());
      var front := permissionCacheLru[0];
      var victim := node[front];
      permissionCacheLru := permissionCacheLru[1..];
      permissionCacheLruIndex := permissionCacheLruIndex - {victim};
      permissionCache := permissionCache - {victim};
      node := node - {front};
      assert Fields() == Erased(old(Fields()), victim);
    }

    /** The permissions of a user in a channel, computed on a miss. */
    method GetChannelPermissions(key: Key, computed: Permissions) returns (p: Permissions)
      requires Valid()
      modifies this`permissionCache, this`permissionCacheLru, this`node, this`permissionCacheLruIndex, this`nextNode
      ensures Valid() && View() == Fetched(old(View()), key, computed)
      ensures p == if key in old(permissionCache) then old(permissionCache)[key] else computed
    {
      if key in permissionCache {
        if key in permissionCacheLruIndex {
          Promote(key);
        }
        assert permissionCache[key := permissionCache[key]] == permissionCache;
        return permissionCache[key];
      }
      InsertIntoCache(key, computed);
      return computed;
    }

    /** Erases one key from list, index and hash. */
    method EraseKey(k: Key)
      requires Valid() && k in permissionCache
      modifies this`permissionCache, this`permissionCacheLru, this`node, this`permissionCacheLruIndex
      ensures Valid() && View() == Lru(Without(old(View()).order, k), old(permissionCache) - {k})
    {
      ErasedKeeps(Fields(), k);
      var id := permissionCacheLruIndex[k];
      permissionCacheLru := Without(permissionCacheLru, id);
      permissionCacheLruIndex := permissionCacheLruIndex - {k};
      permissionCache := permissionCache - {k};
      node := node - {id};
      assert Fields() == Erased(old(Fields()), k);
    }

    /** Erases every key of `dead` that is cached, in whatever order the hash yields them. */
    method EraseKeys(dead: set<Key>)
      requires Valid() && forall k :: k in dead ==> k in permissionCache
      modifies this`permissionCache, this`permissionCacheLru, this`node, this`permissionCacheLruIndex
      ensures Valid() && View() == Invalidated(old(View()), dead)
    {
      var left := dead;
      ghost var start, gone: set<Key> := View(), {};
      InvalidatedNothing(start);
      while left != {}
        invariant forall k :: k in dead <==> k in gone || k in left
        invariant forall k :: k in left ==> k in permissionCache
        invariant Valid() && View() == Invalidated(start, gone)
        decreases left
      {
        var k :| k in left;
        EraseKey(k);
        InvalidatedOneMore(start, gone, k);
        gone := gone + {k};
        left := left - {k};
      }
      assert gone == dead;
    }

    method InvalidateChannelCache(channelId: int)
      requires Valid()
      modifies this
      ensures Valid()
      ensures View() == Invalidated(old(View()), set k | k in old(permissionCache) && k.1 == channelId)
      ensures signals == old(signals) + [channelId]
    {
      var dead := set k | k in permissionCache && k.1 == channelId;
      EraseKeys(dead);
      signals := signals + [channelId];
    }

    /** Forgets a user's permissions in the channels of one guild and announces each channel forgotten. */
    method InvalidateUserGuildCache(userId: int, channelIds: set<int>)
      requires Valid()
      modifies this
      ensures Valid()
      ensures var dead := set k | k in old(permissionCache) && k.0 == userId && k.1 in channelIds;
              && View() == Invalidated(old(View()), dead)
              && exists invalidated ::
                   && signals == old(signals) + invalidated && |invalidated| == |dead|
                   && forall c :: c in invalidated <==> (userId, c) in dead
    {
      var dead := set k | k in permissionCache && k.0 == userId && k.1 in channelIds;
      EraseKeys(dead);
      var invalidated := Announced(userId, dead);
      signals := signals + invalidated;
    }
  }

  /** The channels of the erased keys, in whatever order the hash yielded them. */
  method Announced(userId: int, dead: set<Key>) returns (invalidated: seq<int>)
    requires forall k :: k in dead ==> k.0 == userId
    ensures |invalidated| == |dead|
    ensures forall c :: c in invalidated <==> (userId, c) in dead
  {
    invalidated := [];
    var left := dead;
    while left != {}
      invariant left <= dead
      invariant |invalidated| == |dead| - |left|
      invariant forall c :: c in invalidated <==> (userId, c) in dead - left
      decreases left
    {
      var k :| k in left;
      assert k == (userId, k.1);
      invalidated := invalidated + [k.1];
      left := left - {k};
    }
  }
}
