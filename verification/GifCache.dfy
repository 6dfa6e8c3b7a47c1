/**
  The cache of loaded GIF animations (src/Core/ImageManager.cpp): a use-ordered list, a memory
  total kept beside the animations' own costs, and a loop that unloads old animations.
  Unloading frees an animation's buffers but keeps the animation itself, so the number of
  entries never shrinks: the loop ends because the newest animation comes to the front.
*/
module GifCache {
  import opened Sequences

  type Url = int

  const BUDGET := 100 * 1024 * 1024
  const MAX_ENTRIES := 200

  /** `costs` are the live animations with their memory cost, `order` lists them least recently used first. */
  datatype Gifs = Gifs(order: seq<Url>, costs: map<Url, nat>, total: int)

  // ------------------------------------------------------------------
  // Sums over the animations, in whatever order a hash is walked
  // ------------------------------------------------------------------

  ghost function Sum(m: map<Url, nat>): nat
    decreases |m|
  {
    if m == map[] then 0
    else
      HasKey(m);
      var u :| u in m;
      m[u] + Sum(m - {u})
  }

  lemma HasKey(m: map<Url, nat>)
    requires m != map[]
    ensures exists u :: u in m
  {
    if forall u :: u !in m {
      assert false;
    }
  }

  lemma {:induction false} SumSplit(m: map<Url, nat>, k: Url)
    requires k in m
    ensures Sum(m) == m[k] + Sum(m - {k})
    decreases |m|
  {
    HasKey(m);
    var u :| u in m && Sum(m) == m[u] + Sum(m - {u});
    if u != k {
      SumSplit(m - {u}, k);
      SumSplit(m - {k}, u);
      assert m - {u} - {k} == m - {k} - {u};
    }
  }

  lemma SumReplace(m: map<Url, nat>, k: Url, c: nat)
    requires k in m
    ensures Sum(m[k := c]) == Sum(m) - m[k] + c
  {
    SumSplit(m, k);
    SumSplit(m[k := c], k);
    assert m[k := c] - {k} == m - {k};
  }

  // ------------------------------------------------------------------
  // Positions in the use order
  // ------------------------------------------------------------------

  function Pos(order: seq<Url>, u: Url): (p: nat)
    requires u in order
    ensures p < |order| && order[p] == u && u !in order[..p]
  {
    if order[0] == u then 0
    else
      HeadTail(order);
      var p := 1 + Pos(order[1..], u);
      assert order[..p] == [order[0]] + order[1..][..p - 1];
      p
  }

  /** The list with its front moved to the back. */
  function Turned(order: seq<Url>): seq<Url>
    requires order != []
  {
    order[1..] + [order[0]]
  }

  lemma TurnedSame(order: seq<Url>)
    requires order != []
    ensures forall u :: u in Turned(order) <==> u in order
    ensures NoDup(order) ==> NoDup(Turned(order))
  {
    HeadTail(order);
    if NoDup(order) {
      NoDupAppend(order[1..], order[0]);
    }
  }

  lemma TurnedPos(order: seq<Url>, u: Url)
    requires u in order && order[0] != u
    ensures u in Turned(order)
    ensures Pos(Turned(order), u) == Pos(order, u) - 1
  {
    HeadTail(order);
    PosInPrefix(order[1..], [order[0]], u);
  }

  lemma {:induction false} PosInPrefix(a: seq<Url>, b: seq<Url>, u: Url)
    requires u in a
    ensures u in a + b && Pos(a + b, u) == Pos(a, u)
  {
    assert a[Pos(a, u)] == (a + b)[Pos(a, u)];
    if a[0] != u {
      HeadTail(a);
      assert (a + b)[1..] == a[1..] + b;
      PosInPrefix(a[1..], b, u);
    }
  }

  // ------------------------------------------------------------------
  // The eviction loop
  // ------------------------------------------------------------------

  ghost predicate Coherent(s: Gifs) {
    && NoDup(s.order)
    && (forall u :: u in s.order <==> u in s.costs)
    && s.total == Sum(s.costs)
  }

  predicate Over(s: Gifs) {
    |s.order| > 1 && (|s.costs| > MAX_ENTRIES || s.total > BUDGET)
  }

  /** One victim unloaded, or an empty shell passed over, and moved to the back. */
  function Passed(s: Gifs): Gifs
    requires s.order != [] && s.order[0] in s.costs
  {
    var victim := s.order[0];
    Gifs(Turned(s.order), s.costs[victim := 0], s.total - s.costs[victim])
  }

  lemma PassedCoherent(s: Gifs)
    requires Coherent(s) && s.order != [] && s.order[0] in s.costs
    ensures Coherent(Passed(s)) && Passed(s).costs.Keys == s.costs.Keys
  {
    TurnedSame(s.order);
    SumReplace(s.costs, s.order[0], 0);
  }

  ghost function Evicted(s: Gifs, newest: Url): (t: Gifs)
    requires Coherent(s) && newest in s.order
    ensures Coherent(t) && newest in t.order
    decreases Pos(s.order, newest)
  {
    TurnedSame(s.order);
    if !Over(s) then s
    else if s.order[0] == newest then s.(order := Turned(s.order))
    else
      var next := Passed(s);
      PassedCoherent(s);
      TurnedPos(s.order, newest);
      if s.costs[s.order[0]] == 0 && s.total <= BUDGET then next else Evicted(next, newest)
  }

  /** What one round of the loop does when the front is not the newest animation. */
  lemma EvictedStep(s: Gifs, newest: Url)
    requires Coherent(s) && newest in s.order && s.order[0] != newest && Over(s)
    ensures s.order[0] in s.costs
    ensures Coherent(Passed(s)) && newest in Passed(s).order && Passed(s).costs.Keys == s.costs.Keys
    ensures Pos(Passed(s).order, newest) < Pos(s.order, newest)
    ensures Evicted(s, newest) == if s.costs[s.order[0]] == 0 && s.total <= BUDGET then Passed(s)
                                  else Evicted(Passed(s), newest)
  {
    TurnedSame(s.order);
    assert s.order[0] in s.order;
    PassedCoherent(s);
    TurnedPos(s.order, newest);
  }

  /**
    The first `m` of the list were passed: all of them but the newest are empty now, the rest
    is untouched, and the use order is only rotated. Below the entry limit nothing is passed
    that the budget did not call for.
  */
  ghost predicate PrefixUnloaded(s: Gifs, t: Gifs, newest: Url, m: nat) {
    && m <= |s.order|
    && t.order == s.order[m..] + s.order[..m]
    && t.costs.Keys == s.costs.Keys
    && (forall u :: u in s.costs ==> t.costs[u] == if u in s.order[..m] && u != newest then 0 else s.costs[u])
    && (|s.costs| <= MAX_ENTRIES && m > 0 ==>
          s.order[m - 1] in s.costs && t.total + s.costs[s.order[m - 1]] > BUDGET)
  }

  lemma {:induction false} EvictsOldestFirst(s: Gifs, newest: Url, t: Gifs) returns (m: nat)
    requires Coherent(s) && newest in s.order && t == Evicted(s, newest)
    ensures m <= Pos(s.order, newest) + 1 && PrefixUnloaded(s, t, newest, m)
    ensures m == 0 ==> t == s
    decreases Pos(s.order, newest)
  {
    if !Over(s) {
      NoRound(s, newest);
      m := 0;
    } else if s.order[0] == newest {
      LastRound(s, newest, t);
      m := 1;
    } else {
      EvictedStep(s, newest);
      var next := Passed(s);
      if s.costs[s.order[0]] == 0 && s.total <= BUDGET {
        LastRound(s, newest, t);
        m := 1;
      } else {
        var k := EvictsOldestFirst(next, newest, t);
        PrefixGrows(s, next, t, newest, k);
        m := k + 1;
      }
    }
  }

  lemma NoRound(s: Gifs, newest: Url)
    ensures PrefixUnloaded(s, s, newest, 0)
  {
    assert s.order[0..] + s.order[..0] == s.order;
  }

  lemma LastRound(s: Gifs, newest: Url, t: Gifs)
    requires Coherent(s) && Over(s) && s.order[0] in s.costs
    requires (s.order[0] == newest && t == s.(order := Turned(s.order)))
             || (t == Passed(s) && s.costs[s.order[0]] == 0 && s.total <= BUDGET)
    ensures PrefixUnloaded(s, t, newest, 1)
  {
    assert s.order[..1] == [s.order[0]];
    assert t.costs.Keys == s.costs.Keys;
  }

  lemma PrefixGrows(s: Gifs, next: Gifs, t: Gifs, newest: Url, k: nat)
    requires Coherent(s) && Over(s) && s.order[0] != newest && next == Passed(s)
    requires k < |s.order| && PrefixUnloaded(next, t, newest, k)
    requires k == 0 ==> t == next
    ensures PrefixUnloaded(s, t, newest, k + 1)
  {
    var order := s.order;
    var first: Url := order[0];
    assert Turned(order)[k..] + Turned(order)[..k] == order[k + 1..] + order[..k + 1];
    assert order[..k + 1] == [first] + Turned(order)[..k];
    assert next.costs.Keys == s.costs.Keys;
    forall u | u in s.costs
      ensures t.costs[u] == if u in order[..k + 1] && u != newest then 0 else s.costs[u]
    {
      assert u in order[..k + 1] <==> u == first || u in Turned(order)[..k];
    }
    assert |next.costs| == |s.costs| by {
      assert next.costs.Keys == s.costs.Keys;
      assert |next.costs| == |next.costs.Keys| && |s.costs| == |s.costs.Keys|;
    }
    if k > 0 {
      assert Turned(order)[k - 1] == order[k];
      NoDupDistinct(order, 0, k);
    }
  }

  function CostAt(costs: map<Url, nat>, u: Url): nat {
    if u in costs then costs[u] else 0
  }

  function CostOf(costs: map<Url, nat>, ids: seq<Url>): nat {
    if ids == [] then 0 else CostAt(costs, ids[0]) + CostOf(costs, ids[1..])
  }

  lemma {:induction false} CostElsewhere(costs: map<Url, nat>, ids: seq<Url>, k: Url, c: nat)
    requires k !in ids
    ensures CostOf(costs[k := c], ids) == CostOf(costs, ids)
  {
    if ids != [] {
      assert ids[0] in ids;
      CostElsewhere(costs, ids[1..], k, c);
    }
  }

  /**
    The loop ends at the `p`-th oldest animation: it is the newest, or with everything before it
    unloaded the 100 MiB are kept to and either there are at most 200 entries or it is an empty shell.
  */
  predicate EndsAt(s: Gifs, newest: Url, p: nat)
    requires p < |s.order|
  {
    || s.order[p] == newest
    || (s.total - CostOf(s.costs, s.order[..p]) <= 104857600
        && (|s.order| <= 200 || CostAt(s.costs, s.order[p]) == 0))
  }

  /** After one round the loop ends one place earlier. */
  lemma EndsOneEarlier(s: Gifs, newest: Url, p: nat)
    requires NoDup(s.order) && s.order != [] && s.order[0] in s.costs && p + 1 < |s.order|
    ensures EndsAt(Passed(s), newest, p) == EndsAt(s, newest, p + 1)
  {
    var order, first: Url, next := s.order, s.order[0], Passed(s);
    assert next.order[p] == order[p + 1];
    assert next.order[..p] == order[1..p + 1];
    assert order[..p + 1][1..] == order[1..p + 1];
    assert order[1..p + 1] == order[1..][..p];
    CostElsewhere(s.costs, order[1..p + 1], first, 0);
    NoDupDistinct(order, 0, p + 1);
  }

  /** If the loop does not end at the front there is a further round. */
  lemma NotAtFront(s: Gifs, newest: Url)
    requires Coherent(s) && newest in s.order && !EndsAt(s, newest, 0)
    ensures s.order[0] != newest && Over(s) && s.order[0] in s.costs
    ensures !(s.costs[s.order[0]] == 0 && s.total <= BUDGET)
  {
    SizeIsKeys(s);
    assert s.order[..0] == [];
    assert s.order[0] in s.order;
  }

  lemma AtFront(s: Gifs, newest: Url)
    requires Coherent(s) && newest in s.order && EndsAt(s, newest, 0)
    ensures Evicted(s, newest).costs == s.costs
  {
    SizeIsKeys(s);
    assert s.order[..0] == [];
    assert s.order[0] in s.order;
    assert s.costs[s.order[0]] == 0 ==> s.costs[s.order[0] := 0] == s.costs;
  }

  /** There is a first place to end, at the newest animation at the latest. */
  lemma {:induction false} FirstEnd(s: Gifs, newest: Url, from: nat) returns (p: nat)
    requires newest in s.order && from <= Pos(s.order, newest)
    requires forall q :: 0 <= q < from ==> !EndsAt(s, newest, q)
    ensures from <= p <= Pos(s.order, newest) && EndsAt(s, newest, p)
    ensures forall q :: 0 <= q < p ==> !EndsAt(s, newest, q)
    decreases Pos(s.order, newest) - from
  {
    p := from;
    if !EndsAt(s, newest, from) {
      p := FirstEnd(s, newest, from + 1);
    }
  }

  /** Exactly what is unloaded: everything older than the first place where the loop can end. */
  lemma {:induction false} UnloadsUpToTheEnd(s: Gifs, newest: Url, p: nat)
    requires Coherent(s) && newest in s.order && p <= Pos(s.order, newest)
    requires EndsAt(s, newest, p) && forall q :: 0 <= q < p ==> !EndsAt(s, newest, q)
    ensures Evicted(s, newest).costs.Keys == s.costs.Keys
    ensures forall u :: u in s.costs ==> Evicted(s, newest).costs[u] == if u in s.order[..p] then 0 else s.costs[u]
    decreases p
  {
    if p == 0 {
      AtFront(s, newest);
    } else {
      NotAtFront(s, newest);
      EvictedStep(s, newest);
      var next := Passed(s);
      TurnedPos(s.order, newest);
      forall q | 0 <= q < p
        ensures EndsAt(next, newest, q) == EndsAt(s, newest, q + 1)
      {
        EndsOneEarlier(s, newest, q);
      }
      UnloadsUpToTheEnd(next, newest, p - 1);
      UnloadedOneMore(s, next, p);
    }
  }

  lemma SizeIsKeys(s: Gifs)
    requires Coherent(s)
    ensures |s.order| == |s.costs| == |s.costs.Keys|
  {
    assert |s.costs| == |s.costs.Keys|;
    assert forall u :: u in s.order <==> u in s.costs.Keys;
    NoDupCard(s.order, s.costs.Keys);
  }

  lemma UnloadedOneMore(s: Gifs, next: Gifs, p: nat)
    requires 0 < p < |s.order| && s.order[0] in s.costs && next == Passed(s)
    ensures forall u :: u in s.order[..p] <==> u == s.order[0] || u in next.order[..p - 1]
  {
    assert s.order[..p] == [s.order[0]] + next.order[..p - 1];
  }

  /**
    Too many entries but little memory: what is unloaded is the longest run of loaded animations
    at the old end of the list, up to the first empty shell or the newest.
  */
  lemma OverCountUnloadsShellFree(s: Gifs, newest: Url, p: nat)
    requires Coherent(s) && newest in s.order && |s.order| > 200 && s.total <= 104857600
    requires p <= Pos(s.order, newest)
    requires forall q :: 0 <= q < p ==> CostAt(s.costs, s.order[q]) > 0
    requires p == Pos(s.order, newest) || CostAt(s.costs, s.order[p]) == 0
    ensures Evicted(s, newest).costs.Keys == s.costs.Keys
    ensures forall u :: u in s.costs ==> Evicted(s, newest).costs[u] == if u in s.order[..p] then 0 else s.costs[u]
  {
    forall q | 0 <= q < p
      ensures !EndsAt(s, newest, q)
    {
      assert s.order[..Pos(s.order, newest)][q] == s.order[q];
    }
    UnloadsUpToTheEnd(s, newest, p);
  }

  /** Within the budget nothing is unloaded exactly if there are few entries or the front is a shell or the newest. */
  lemma WithinBudgetUnloadsNothingIff(s: Gifs, newest: Url)
    requires Coherent(s) && newest in s.order && s.total <= 104857600
    ensures Evicted(s, newest).costs == s.costs
            <==> |s.order| <= 200 || s.order[0] == newest || CostAt(s.costs, s.order[0]) == 0
  {
    assert s.order[..0] == [];
    if EndsAt(s, newest, 0) {
      AtFront(s, newest);
    } else {
      var p := FirstEnd(s, newest, 0);
      UnloadsUpToTheEnd(s, newest, p);
      NotAtFront(s, newest);
      assert s.order[..p][0] == s.order[0];
      assert Evicted(s, newest).costs[s.order[0]] == 0;
    }
  }

  /** Everything behind the newest animation is an empty shell. */
  ghost predicate OnlyShellsAfter(s: Gifs, newest: Url) {
    && newest in s.order
    && forall i :: Pos(s.order, newest) < i < |s.order| ==> s.order[i] in s.costs && s.costs[s.order[i]] == 0
  }

  ghost predicate OthersEmpty(s: Gifs, newest: Url) {
    forall u :: u in s.costs && u != newest ==> s.costs[u] == 0
  }

  /** No empty shell is older than the newest animation. */
  ghost predicate NoShellBefore(s: Gifs, newest: Url) {
    newest in s.order && forall i :: 0 <= i < Pos(s.order, newest) ==> s.order[i] in s.costs && s.costs[s.order[i]] > 0
  }

  lemma FrontIsNewest(s: Gifs, newest: Url)
    requires Coherent(s) && OnlyShellsAfter(s, newest) && s.order[0] == newest
    ensures OthersEmpty(s, newest)
  {
    forall u | u in s.costs && u != newest
      ensures s.costs[u] == 0
    {
      assert u in s.order;
      var i :| 0 <= i < |s.order| && s.order[i] == u;
      assert i > 0;
    }
  }

  lemma ShellsStayBehind(s: Gifs, newest: Url)
    requires Coherent(s) && OnlyShellsAfter(s, newest) && s.order[0] != newest && s.order[0] in s.costs
    ensures OnlyShellsAfter(Passed(s), newest)
  {
    var next := Passed(s);
    TurnedPos(s.order, newest);
    forall i | Pos(next.order, newest) < i < |next.order|
      ensures next.order[i] in next.costs && next.costs[next.order[i]] == 0
    {
      if i < |s.order| - 1 {
        assert next.order[i] == s.order[i + 1];
      }
    }
  }

  lemma NoShellAhead(s: Gifs, newest: Url)
    requires Coherent(s) && NoShellBefore(s, newest) && s.order[0] != newest && s.order[0] in s.costs
    ensures NoShellBefore(Passed(s), newest)
  {
    var next := Passed(s);
    TurnedPos(s.order, newest);
    forall i | 0 <= i < Pos(next.order, newest)
      ensures next.order[i] in next.costs && next.costs[next.order[i]] > 0
    {
      assert next.order[i] == s.order[i + 1];
      NoDupDistinct(s.order, 0, i + 1);
    }
  }

  lemma {:induction false} EndsWithinBudget(s: Gifs, newest: Url)
    requires Coherent(s) && OnlyShellsAfter(s, newest)
    ensures Evicted(s, newest).total <= BUDGET || OthersEmpty(Evicted(s, newest), newest)
    decreases Pos(s.order, newest)
  {
    if !Over(s) {
      if |s.order| <= 1 {
        assert s.order == [newest];
      }
    } else if s.order[0] == newest {
      FrontIsNewest(s, newest);
    } else {
      EvictedStep(s, newest);
      ShellsStayBehind(s, newest);
      if !(s.costs[s.order[0]] == 0 && s.total <= BUDGET) {
        EndsWithinBudget(Passed(s), newest);
      }
    }
  }

  /**
    With one animation too many, and no empty shell among the older ones, every other
    animation is unloaded however little memory they use.
  */
  lemma {:induction false} OverCountUnloadsAll(s: Gifs, newest: Url)
    requires Coherent(s) && OnlyShellsAfter(s, newest) && NoShellBefore(s, newest)
    requires |s.costs.Keys| > 200
    ensures OthersEmpty(Evicted(s, newest), newest)
    decreases Pos(s.order, newest)
  {
    assert |s.costs| == |s.costs.Keys|;
    assert forall u :: u in s.order <==> u in s.costs.Keys;
    NoDupCard(s.order, s.costs.Keys);
    if s.order[0] == newest {
      FrontIsNewest(s, newest);
    } else {
      EvictedStep(s, newest);
      ShellsStayBehind(s, newest);
      NoShellAhead(s, newest);
      OverCountUnloadsAll(Passed(s), newest);
    }
  }

  // ------------------------------------------------------------------
  // The cache and its runs
  // ------------------------------------------------------------------

  datatype Event =
    | Create(url: Url)
    | Look(url: Url)
    | Release(url: Url)
    | Destroyed(url: Url)
    | Loaded(url: Url, cost: nat)

  ghost function Touched(order: seq<Url>, u: Url): seq<Url> {
    Without(order, u) + [u]
  }

  ghost function Dropped(s: Gifs, u: Url): Gifs {
    Gifs(Without(s.order, u), s.costs - {u}, Sum(s.costs - {u}))
  }

  lemma TouchedKeeps(order: seq<Url>, u: Url)
    requires NoDup(order)
    ensures NoDup(Touched(order, u)) && forall v :: v in Touched(order, u) <==> v in order || v == u
  {
    WithoutNoDup(order, u);
    NoDupAppend(Without(order, u), u);
  }

  /** A new animation has no buffers yet: it enters at cost zero and most recently used. */
  ghost function Entered(s: Gifs, u: Url): (t: Gifs)
    requires Coherent(s) && u !in s.costs
    ensures Coherent(t) && u in t.order
  {
    TouchedKeeps(s.order, u);
    SumReplace(s.costs[u := 0], u, 0);
    SumSplit(s.costs[u := 0], u);
    assert s.costs[u := 0] - {u} == s.costs;
    Gifs(Touched(s.order, u), s.costs[u := 0], s.total)
  }

  ghost function Next(s: Gifs, ev: Event): (t: Gifs)
    requires Coherent(s)
    ensures Coherent(t)
  {
    match ev
    case Create(u) =>
      TouchedKeeps(s.order, u);
      if u in s.costs then s.(order := Touched(s.order, u)) else Evicted(Entered(s, u), u)
    case Look(u) =>
      TouchedKeeps(s.order, u);
      if u in s.costs then s.(order := Touched(s.order, u)) else s
    case Release(u) =>
      WithoutNoDup(s.order, u);
      if u in s.costs then Dropped(s, u) else s
    case Destroyed(u) =>
      WithoutNoDup(s.order, u);
      Dropped(s, u)
    case Loaded(u, cost) =>
      if u in s.costs then Gifs(s.order, s.costs[u := cost], Sum(s.costs[u := cost])) else s
  }

  /** The tables with the animations that are released and not yet destroyed. */
  datatype Cache = Cache(gifs: Gifs, doomed: multiset<Url>)

  const INITIAL := Cache(Gifs([], map[], 0), multiset{})

  /** An animation is destroyed only after its release; other destructions do not happen. */
  ghost function Step(x: Cache, ev: Event): (y: Cache)
    requires Coherent(x.gifs)
    ensures Coherent(y.gifs)
  {
    match ev
    case Release(u) => Cache(Next(x.gifs, ev), if u in x.gifs.costs then x.doomed + multiset{u} else x.doomed)
    case Destroyed(u) => if u in x.doomed then Cache(Next(x.gifs, ev), x.doomed - multiset{u}) else x
    case _ => x.(gifs := Next(x.gifs, ev))
  }

  ghost function Run(x: Cache, events: seq<Event>): (y: Cache)
    requires Coherent(x.gifs)
    ensures Coherent(y.gifs)
    decreases |events|
  {
    if events == [] then x else Run(Step(x, events[0]), events[1..])
  }

  lemma {:induction false} RunConcat(x: Cache, a: seq<Event>, b: seq<Event>)
    requires Coherent(x.gifs)
    ensures Run(x, a + b) == Run(Run(x, a), b)
    decreases |a|
  {
    if a == [] {
      assert a + b == b;
    } else {
      assert (a + b)[1..] == a[1..] + b;
      RunConcat(Step(x, a[0]), a[1..], b);
    }
  }

  lemma NewestIsLast(s: Gifs, u: Url)
    requires Coherent(s) && u !in s.costs
    ensures Pos(Entered(s, u).order, u) == |Entered(s, u).order| - 1
  {
    var order := Entered(s, u).order;
    if Pos(order, u) < |order| - 1 {
      NoDupDistinct(order, Pos(order, u), |order| - 1);
      assert false;
    }
  }

  /** Whatever happened before, a newly created animation leaves the cache within budget or the only one loaded. */
  lemma CreationRestoresBudget(events: seq<Event>, u: Url)
    requires u !in Run(INITIAL, events).gifs.costs
    ensures var t := Step(Run(INITIAL, events), Create(u)).gifs;
            && t.total == Sum(t.costs)
            && (t.total <= 104857600 || OthersEmpty(t, u))
            && u in t.costs
  {
    var s := Run(INITIAL, events).gifs;
    NewestIsLast(s, u);
    EndsWithinBudget(Entered(s, u), u);
  }

  /** What the other events leave: a use makes newest, and only release and destruction take an animation away. */
  lemma WhatEventsLeave(s: Gifs, u: Url, cost: nat)
    requires Coherent(s)
    ensures u in s.costs ==>
              forall t :: t == Next(s, Create(u)) || t == Next(s, Look(u)) ==>
                && t.costs == s.costs && t.order[|t.order| - 1] == u && Without(t.order, u) == Without(s.order, u)
    ensures u !in s.costs ==> Next(s, Look(u)) == s && Next(s, Release(u)) == s && Next(s, Loaded(u, cost)) == s
    ensures u in s.costs ==>
              && Next(s, Release(u)).costs == s.costs - {u} && Next(s, Release(u)).order == Without(s.order, u)
              && Next(s, Loaded(u, cost)).costs == s.costs[u := cost] && Next(s, Loaded(u, cost)).order == s.order
    ensures Next(s, Destroyed(u)).costs == s.costs - {u} && Next(s, Destroyed(u)).order == Without(s.order, u)
  {
    WithoutTwice(s.order, u);
    TouchedKeeps(s.order, u);
  }

  lemma {:induction false} WithoutTwice(order: seq<Url>, u: Url)
    ensures Without(Without(order, u) + [u], u) == Without(order, u)
  {
    if order == [] {
      assert Without([u], u) == [];
    } else {
      var w := Without(order, u);
      WithoutTwice(order[1..], u);
      if order[0] != u {
        assert (w + [u])[1..] == Without(order[1..], u) + [u];
      }
    }
  }

  lemma EvictionOnlyEmpties(s: Gifs, newest: Url)
    requires Coherent(s) && newest in s.order
    ensures var t := Evicted(s, newest);
            && t.costs.Keys == s.costs.Keys && newest in t.costs && t.costs[newest] == CostAt(s.costs, newest)
            && forall v :: v in s.costs ==> t.costs[v] == s.costs[v] || t.costs[v] == 0
  {
    var t := Evicted(s, newest);
    var m := EvictsOldestFirst(s, newest, t);
  }

  /** A new animation enters empty; of the others each keeps its cost or is unloaded. */
  lemma NewAnimationEnters(s: Gifs, u: Url)
    requires Coherent(s) && u !in s.costs
    ensures var t := Next(s, Create(u));
            && u in t.costs && t.costs[u] == 0
            && (forall v :: v in t.costs <==> v in s.costs || v == u)
            && forall v :: v in s.costs ==> v in t.costs && (t.costs[v] == s.costs[v] || t.costs[v] == 0)
  {
    var entered := Entered(s, u);
    EvictionOnlyEmpties(entered, u);
    assert entered.costs == s.costs[u := 0];
    var t := Evicted(entered, u);
    forall v ensures v in t.costs <==> v in s.costs || v == u {
      assert v in t.costs.Keys <==> v in entered.costs.Keys;
    }
  }

  // ------------------------------------------------------------------
  // Late destruction
  // ------------------------------------------------------------------

  lemma EvictedKeys(s: Gifs, newest: Url)
    requires Coherent(s) && newest in s.order
    ensures Evicted(s, newest).costs.Keys == s.costs.Keys
  {
    var m := EvictsOldestFirst(s, newest, Evicted(s, newest));
  }

  lemma {:induction false} Survives(x: Cache, u: Url, events: seq<Event>)
    requires Coherent(x.gifs) && u in x.gifs.costs && u !in x.doomed && Release(u) !in events
    ensures u in Run(x, events).gifs.costs
    decreases |events|
  {
    if events != [] {
      HeadTail(events);
      match events[0] {
        case Create(v) =>
          if v !in x.gifs.costs {
            EvictedKeys(Entered(x.gifs, v), v);
          }
        case Release(v) => assert events[0] in events;
        case _ =>
      }
      Survives(Step(x, events[0]), u, events[1..]);
    }
  }

  /**
    An animation in use stays until it is released, whatever else happens, exactly if no earlier
    animation of its url still awaits destruction.
  */
  lemma SurvivesIff(x: Cache, u: Url)
    requires Coherent(x.gifs) && u in x.gifs.costs
    ensures (forall events :: Release(u) !in events ==> u in Run(x, events).gifs.costs) <==> u !in x.doomed
  {
    if u in x.doomed {
      var events := [Destroyed(u)];
      assert Run(x, events) == Run(Step(x, events[0]), []);
      assert u !in Run(x, events).gifs.costs;
      assert Release(u) !in events;
    } else {
      forall events | Release(u) !in events
        ensures u in Run(x, events).gifs.costs
      {
        Survives(x, u, events);
      }
    }
  }

  /**
    Releasing an animation only schedules its destruction. If its url is used again before
    that, the destruction removes the new animation from every table.
  */
  lemma LateDestructionDropsTheNewOne(u: Url)
    ensures var again := Run(INITIAL, [Create(u), Release(u), Create(u)]);
            && u in again.gifs.costs && u in again.doomed
            && u !in Step(again, Destroyed(u)).gifs.costs && u !in Step(again, Destroyed(u)).gifs.order
  {
    var created := Step(INITIAL, Create(u));
    EvictedKeys(Entered(INITIAL.gifs, u), u);
    var released := Step(created, Release(u));
    EvictedKeys(Entered(released.gifs, u), u);
    var again := Step(released, Create(u));
    assert Run(INITIAL, [Create(u), Release(u), Create(u)]) == again by {
      assert [Create(u), Release(u), Create(u)][1..] == [Release(u), Create(u)];
      assert [Release(u), Create(u)][1..] == [Create(u)];
      assert Run(released, [Create(u)]) == Run(again, []);
    }
    assert Coherent(Step(again, Destroyed(u)).gifs);
  }

  // ------------------------------------------------------------------
  // One animation too many
  // ------------------------------------------------------------------

  /** Urls 0 to n - 1 created and loaded one after the other, one byte each. */
  function Filling(n: nat): seq<Event> {
    if n == 0 then [] else Filling(n - 1) + [Create(n - 1), Loaded(n - 1, 1)]
  }

  ghost predicate Filled(s: Gifs, n: nat) {
    && |s.order| == n && (forall i :: 0 <= i < n ==> s.order[i] == i)
    && (forall u :: u in s.costs <==> 0 <= u < n)
    && (forall u :: 0 <= u < n ==> s.costs[u] == 1)
    && s.total == n
  }

  lemma RunTwo(x: Cache, a: Event, b: Event)
    requires Coherent(x.gifs)
    ensures Run(x, [a, b]) == Step(Step(x, a), b)
  {
    assert [a, b][1..] == [b];
    assert Run(Step(x, a), [b]) == Run(Step(Step(x, a), b), []);
  }

  lemma {:induction false} FillingFills(n: nat) returns (x: Cache)
    requires n <= MAX_ENTRIES
    ensures x == Run(INITIAL, Filling(n)) && Coherent(x.gifs) && Filled(x.gifs, n)
  {
    if n == 0 {
      x := INITIAL;
    } else {
      var k: nat := n - 1;
      var y := FillingFills(k);
      OneMoreFills(y, k);
      RunConcat(INITIAL, Filling(k), [Create(k), Loaded(k, 1)]);
      x := Run(y, [Create(k), Loaded(k, 1)]);
    }
  }

  lemma OneMoreFills(x: Cache, n: nat)
    requires Coherent(x.gifs) && Filled(x.gifs, n) && n < MAX_ENTRIES
    ensures Filled(Run(x, [Create(n), Loaded(n, 1)]).gifs, n + 1)
  {
    RunTwo(x, Create(n), Loaded(n, 1));
    OneMoreFits(x.gifs, n);
  }

  lemma EnteredLast(s: Gifs, n: nat)
    requires Coherent(s) && Filled(s, n)
    ensures var t := Entered(s, n);
            && |t.order| == n + 1 && (forall i :: 0 <= i <= n ==> t.order[i] == i)
            && (forall u :: u in t.costs <==> 0 <= u <= n)
            && (forall u :: 0 <= u < n ==> t.costs[u] == 1) && t.costs[n] == 0
            && t.total == n
  {
    WithoutAbsent(s.order, n);
  }

  lemma OneMoreFits(s: Gifs, n: nat)
    requires Coherent(s) && Filled(s, n) && n < MAX_ENTRIES
    ensures Filled(Next(Next(s, Create(n)), Loaded(n, 1)), n + 1)
  {
    var entered := Entered(s, n);
    EnteredLast(s, n);
    SizeIsKeys(entered);
    assert Next(s, Create(n)) == entered;
    SumReplace(entered.costs, n, 1);
  }

  /** Two hundred animations of a byte each are all unloaded when the next one is created. */
  lemma OneTooManyUnloadsAll(n: nat)
    requires n == MAX_ENTRIES
    ensures Filled(Run(INITIAL, Filling(n)).gifs, n)
    ensures AllEmpty(Step(Run(INITIAL, Filling(n)), Create(n)).gifs, n + 1)
  {
    var x := FillingFills(n);
    UnloadedByTheNext(x.gifs, n);
  }

  /** Urls 0 to n - 1, none of them loaded. */
  ghost predicate AllEmpty(s: Gifs, n: nat) {
    (forall u :: u in s.costs <==> 0 <= u < n) && forall u :: u in s.costs ==> s.costs[u] == 0
  }

  lemma UnloadedByTheNext(s: Gifs, n: nat)
    requires Coherent(s) && Filled(s, n) && n == MAX_ENTRIES
    ensures AllEmpty(Evicted(Entered(s, n), n), n + 1)
  {
    var entered := Entered(s, n);
    EnteredLast(s, n);
    NewestIsLast(s, n);
    OverCountUnloadsShellFree(entered, n, n);
    assert forall u :: u in Evicted(entered, n).costs.Keys <==> u in entered.costs.Keys;
    forall u | 0 <= u < n
      ensures u in entered.order[..n]
    {
      assert entered.order[..n][u] == u;
    }
  }

  class ImageManager {
    var gifAnimations: map<Url, nat>
    var gifLruOrder: seq<Url>
    var gifLruMap: set<Url>
    var gifMemoryTotal: int

    function Tables(): Gifs
      reads this
    {
      Gifs(gifLruOrder, gifAnimations, gifMemoryTotal)
    }

    ghost predicate Valid()
      reads this
    {
      Coherent(Tables()) && forall u :: u in gifLruMap <==> u in gifLruOrder
    }

    constructor ()
      ensures Valid() && Tables() == INITIAL.gifs
    {
      gifAnimations, gifLruOrder, gifLruMap, gifMemoryTotal := map[], [], {}, 0;
    }

    method TouchGifAnimation(url: Url)
      modifies this`gifLruOrder, this`gifLruMap
      ensures gifLruOrder == if url in old(gifLruMap) then Touched(old(gifLruOrder), url) else old(gifLruOrder) + [url]
      ensures gifLruMap == old(gifLruMap) + {url}
    {
      if url in gifLruMap {
        gifLruOrder := Without(gifLruOrder, url) + [url];
        assert gifLruMap == gifLruMap + {url};
      } else {
        gifLruOrder := gifLruOrder + [url];
        gifLruMap := gifLruMap + {url};
      }
    }

    method RecalcGifMemoryTotal()
      modifies this`gifMemoryTotal
      ensures gifMemoryTotal == Sum(gifAnimations)
    {
      var total := 0;
      var left := gifAnimations;
      while left != map[]
        invariant left.Keys <= gifAnimations.Keys
        invariant total + Sum(left) == Sum(gifAnimations)
        decreases |left|
      {
        HasKey(left);
        var url :| url in left;
        SumSplit(left, url);
        total := total + left[url];
        left := left - {url};
      }
      gifMemoryTotal := total;
    }

    /** Empties the front animation, if it has anything to free, and moves it to the back. */
    method PassFront() returns (cost: nat)
      requires gifLruOrder != [] && gifLruOrder[0] in gifAnimations
      modifies this`gifAnimations, this`gifMemoryTotal, this`gifLruOrder
      ensures Tables() == Passed(old(Tables()))
      ensures cost == old(gifAnimations)[old(gifLruOrder)[0]]
    {
      var victim := gifLruOrder[0];
      cost := gifAnimations[victim];
      if cost == 0 {
        assert gifAnimations == gifAnimations[victim := 0];
      } else {
        gifAnimations := gifAnimations[victim := 0];
        gifMemoryTotal := gifMemoryTotal - cost;
      }
      gifLruOrder := Turned(gifLruOrder);
    }

    /** One round of the loop; `done` when it breaks out. */
    method EvictFront(mostRecent: Url) returns (done: bool)
      requires Valid() && mostRecent in gifLruOrder && Over(Tables())
      modifies this`gifAnimations, this`gifMemoryTotal, this`gifLruOrder
      ensures Valid() && mostRecent in gifLruOrder
      ensures Evicted(old(Tables()), mostRecent) == if done then Tables() else Evicted(Tables(), mostRecent)
      ensures !done ==> Pos(gifLruOrder, mostRecent) < Pos(old(gifLruOrder), mostRecent)
    {
      var victim := gifLruOrder[0];
      TurnedSame(gifLruOrder);
      assert victim in gifLruOrder;
      if victim !in gifLruMap || victim !in gifAnimations {
        assert false;
      }
      if victim == mostRecent {
        gifLruOrder := Turned(gifLruOrder);
        return true;
      }
      EvictedStep(Tables(), mostRecent);
      var cost := PassFront();
      done := cost == 0 && gifMemoryTotal <= BUDGET;
    }

    method EnforceGifCacheLimits(mostRecent: Url)
      requires Valid() && mostRecent in gifLruOrder
      modifies this`gifAnimations, this`gifMemoryTotal, this`gifLruOrder
      ensures Valid() && Tables() == Evicted(old(Tables()), mostRecent)
    {
      RecalcGifMemoryTotal();
      var done := false;
      while !done && |gifLruOrder| > 1 && (|gifAnimations| > MAX_ENTRIES || gifMemoryTotal > BUDGET)
        invariant Valid() && mostRecent in gifLruOrder
        invariant Evicted(old(Tables()), mostRecent) == if done then Tables() else Evicted(Tables(), mostRecent)
        decreases !done, Pos(gifLruOrder, mostRecent)
      {
        done := EvictFront(mostRecent);
      }
    }

    method CreateGifAnimation(url: Url)
      requires Valid()
      modifies this
      ensures Valid() && Tables() == Next(old(Tables()), Create(url))
    {
      TouchedKeeps(gifLruOrder, url);
      if url in gifAnimations {
        TouchGifAnimation(url);
        return;
      }
      ghost var before := Tables();
      gifAnimations := gifAnimations[url := 0];
      TouchGifAnimation(url);
      WithoutAbsent(before.order, url);
      assert Tables() == Entered(before, url);
      EnforceGifCacheLimits(url);
    }

    method GifAnimation(url: Url) returns (found: bool)
      requires Valid()
      modifies this
      ensures Valid() && Tables() == Next(old(Tables()), Look(url))
      ensures found == (url in old(gifAnimations))
    {
      TouchedKeeps(gifLruOrder, url);
      found := url in gifAnimations;
      if found {
        TouchGifAnimation(url);
      }
    }

    method ForgetUse(url: Url)
      requires forall u :: u in gifLruMap <==> u in gifLruOrder
      modifies this`gifLruOrder, this`gifLruMap
      ensures gifLruOrder == Without(old(gifLruOrder), url) && gifLruMap == old(gifLruMap) - {url}
    {
      if url in gifLruMap {
        gifLruOrder := Without(gifLruOrder, url);
        gifLruMap := gifLruMap - {url};
      } else {
        WithoutAbsent(gifLruOrder, url);
        assert gifLruMap == gifLruMap - {url};
      }
    }

    method ReleaseGifAnimation(url: Url)
      requires Valid()
      modifies this
      ensures Valid() && Tables() == Next(old(Tables()), Release(url))
    {
      WithoutNoDup(gifLruOrder, url);
      if url in gifAnimations {
        gifAnimations := gifAnimations - {url};
        ForgetUse(url);
        RecalcGifMemoryTotal();
      }
    }

    method OnDestroyed(url: Url)
      requires Valid()
      modifies this
      ensures Valid() && Tables() == Next(old(Tables()), Destroyed(url))
    {
      WithoutNoDup(gifLruOrder, url);
      gifAnimations := gifAnimations - {url};
      ForgetUse(url);
      RecalcGifMemoryTotal();
    }
  }
}
