/**
  Reaction counters of one message (src/Core/MessageManager.cpp): single adds, debounced adds
  of many users at once, and removals, all applied in place to the message's reaction list.
*/
module Reactions {
  import opened Options

  type User = int

  /** A custom emoji carries an id, a unicode emoji only its name. */
  datatype Emoji = Emoji(id: Option<int>, name: string)

  datatype Details = Details(burst: int, normal: int)

  datatype Reaction = Reaction(
    emoji: Emoji,
    count: int,
    details: Option<Details>,
    me: bool,
    meBurst: Option<bool>,
    burstCount: Option<int>,
    burstColors: Option<seq<string>>)

  /** What identifies an emoji: its id, or its name where it has none. */
  datatype EmojiKey = ById(id: int) | ByName(name: string)

  function KeyOf(e: Emoji): (key: EmojiKey)
    ensures forall i :: key == ById(i) <==> e.id == Some(i)
    ensures forall n :: key == ByName(n) <==> e.id.None? && e.name == n
  {
    if e.id.Some? then ById(e.id.value) else ByName(e.name)
  }

  predicate Match(a: Emoji, b: Emoji)
    ensures Match(a, b) <==> KeyOf(a) == KeyOf(b)
  {
    if a.id.Some? && b.id.Some? then a.id == b.id
    else if a.id.None? && b.id.None? then a.name == b.name
    else false
  }

  // ------------------------------------------------------------------
  // The three operations as functions of the list
  // ------------------------------------------------------------------

  predicate Has(rs: seq<Reaction>, e: Emoji) {
    rs != [] && (Match(rs[0].emoji, e) || Has(rs[1..], e))
  }

  function Bumped(r: Reaction, isBurst: bool, isMe: bool, colors: seq<string>): Reaction {
    r.(count := r.count + 1,
       details := if r.details.None? then None
                  else if isBurst then Some(r.details.value.(burst := r.details.value.burst + 1))
                  else Some(r.details.value.(normal := r.details.value.normal + 1)),
       burstCount := if isBurst && r.burstCount.Some? then Some(r.burstCount.value + 1) else r.burstCount,
       me := if isMe && !isBurst then true else r.me,
       meBurst := if isMe && isBurst then Some(true) else r.meBurst,
       burstColors := if isBurst && colors != [] then Some(colors) else r.burstColors)
  }

  function Fresh(e: Emoji, isBurst: bool, isMe: bool, colors: seq<string>): Reaction {
    Reaction(e, 1, Some(if isBurst then Details(1, 0) else Details(0, 1)), !isBurst && isMe,
             Some(isBurst && isMe), Some(if isBurst then 1 else 0),
             if isBurst && colors != [] then Some(colors) else None)
  }

  function Added(rs: seq<Reaction>, e: Emoji, isBurst: bool, isMe: bool, colors: seq<string>): seq<Reaction> {
    if rs == [] then [Fresh(e, isBurst, isMe, colors)]
    else if Match(rs[0].emoji, e) then [Bumped(rs[0], isBurst, isMe, colors)] + rs[1..]
    else [rs[0]] + Added(rs[1..], e, isBurst, isMe, colors)
  }

  function Raised(r: Reaction, n: nat, isMe: bool): Reaction {
    r.(count := r.count + n,
       details := if r.details.None? then None
                  else Some(r.details.value.(normal := r.details.value.normal + n)),
       me := if isMe then true else r.me)
  }

  function FreshGroup(e: Emoji, n: nat, isMe: bool): Reaction {
    Reaction(e, n, Some(Details(0, n)), isMe, Some(false), Some(0), None)
  }

  function AddedGroup(rs: seq<Reaction>, e: Emoji, n: nat, isMe: bool): seq<Reaction> {
    if rs == [] then [FreshGroup(e, n, isMe)]
    else if Match(rs[0].emoji, e) then [Raised(rs[0], n, isMe)] + rs[1..]
    else [rs[0]] + AddedGroup(rs[1..], e, n, isMe)
  }

  datatype Debounced = Debounced(emoji: Emoji, users: seq<User>)

  function AddedMany(rs: seq<Reaction>, groups: seq<Debounced>, self: User): seq<Reaction>
    decreases |groups|
  {
    if groups == [] then rs
    else AddedMany(AddedGroup(rs, groups[0].emoji, |groups[0].users|, self in groups[0].users), groups[1..], self)
  }

  function Max0(x: int): int {
    if x > 0 then x else 0
  }

  function Lowered(r: Reaction, isBurst: bool, isMe: bool): Reaction {
    r.(count := r.count - 1,
       details := if r.details.None? then None
                  else if isBurst then Some(r.details.value.(burst := Max0(r.details.value.burst - 1)))
                  else Some(r.details.value.(normal := Max0(r.details.value.normal - 1))),
       burstCount := if isBurst && r.burstCount.Some? then Some(Max0(r.burstCount.value - 1)) else r.burstCount,
       me := if isMe && !isBurst then false else r.me,
       meBurst := if isMe && isBurst then Some(false) else r.meBurst)
  }

  function Removed(rs: seq<Reaction>, e: Emoji, isBurst: bool, isMe: bool): seq<Reaction> {
    if rs == [] then []
    else if Match(rs[0].emoji, e) then
      (if rs[0].count - 1 <= 0 then [] else [Lowered(rs[0], isBurst, isMe)]) + rs[1..]
    else [rs[0]] + Removed(rs[1..], e, isBurst, isMe)
  }

  // ------------------------------------------------------------------
  // Debounced adds against single adds
  // ------------------------------------------------------------------

  /** The users of one group reported one by one. */
  function Singles(rs: seq<Reaction>, e: Emoji, users: seq<User>, self: User): seq<Reaction>
    decreases |users|
  {
    if users == [] then rs
    else Singles(Added(rs, e, false, users[0] == self, []), e, users[1..], self)
  }

  function AllSingles(rs: seq<Reaction>, groups: seq<Debounced>, self: User): seq<Reaction>
    decreases |groups|
  {
    if groups == [] then rs
    else AllSingles(Singles(rs, groups[0].emoji, groups[0].users, self), groups[1..], self)
  }

  lemma {:induction false} GroupAfterSingle(rs: seq<Reaction>, e: Emoji, n: nat, first: bool, others: bool)
    ensures Has(Added(rs, e, false, first, []), e)
    ensures AddedGroup(Added(rs, e, false, first, []), e, n, others) == AddedGroup(rs, e, n + 1, first || others)
  {
    if rs == [] || Match(rs[0].emoji, e) {
      assert Match(e, e);
      assert Added(rs, e, false, first, [])[1..] == if rs == [] then [] else rs[1..];
    } else {
      GroupAfterSingle(rs[1..], e, n, first, others);
      assert Added(rs, e, false, first, [])[1..] == Added(rs[1..], e, false, first, []);
    }
  }

  lemma {:induction false} EmptyGroup(rs: seq<Reaction>, e: Emoji)
    ensures AddedGroup(rs, e, 0, false) == if Has(rs, e) then rs else rs + [FreshGroup(e, 0, false)]
  {
    if rs != [] {
      if !Match(rs[0].emoji, e) {
        EmptyGroup(rs[1..], e);
      }
      assert rs == [rs[0]] + rs[1..];
    }
  }

  lemma {:induction false} GroupIsSingles(rs: seq<Reaction>, e: Emoji, users: seq<User>, self: User)
    requires users != [] || Has(rs, e)
    ensures AddedGroup(rs, e, |users|, self in users) == Singles(rs, e, users, self)
    decreases |users|
  {
    if users == [] {
      EmptyGroup(rs, e);
    } else {
      var first: User := users[0];
      var one := Added(rs, e, false, first == self, []);
      GroupAfterSingle(rs, e, |users| - 1, first == self, self in users[1..]);
      GroupIsSingles(one, e, users[1..], self);
      assert users == [first] + users[1..];
      assert self in users <==> first == self || self in users[1..];
    }
  }

  /**
    A debounced group equals its users' single adds, unless it names nobody and its emoji is
    new: then the group appends an entry that counts zero reactions.
  */
  lemma GroupIsSinglesIff(rs: seq<Reaction>, e: Emoji, users: seq<User>, self: User)
    ensures AddedGroup(rs, e, |users|, self in users) == Singles(rs, e, users, self)
            <==> users != [] || Has(rs, e)
  {
    if users != [] || Has(rs, e) {
      GroupIsSingles(rs, e, users, self);
    } else {
      EmptyGroup(rs, e);
    }
  }

  // ------------------------------------------------------------------
  // A whole debounced event
  // ------------------------------------------------------------------

  predicate Lists(es: seq<Emoji>, e: Emoji) {
    es != [] && (Match(es[0], e) || Lists(es[1..], e))
  }

  function Emojis(rs: seq<Reaction>): seq<Emoji> {
    if rs == [] then [] else [rs[0].emoji] + Emojis(rs[1..])
  }

  /** The emoji that groups list for the first time, in the order in which they do. */
  function Newcomers(listed: seq<Emoji>, groups: seq<Debounced>): seq<Emoji>
    decreases |groups|
  {
    if groups == [] then []
    else
      var e := groups[0].emoji;
      if Lists(listed, e) then Newcomers(listed, groups[1..]) else [e] + Newcomers(listed + [e], groups[1..])
  }

  /** The groups that name someone. */
  function Busy(groups: seq<Debounced>): seq<Debounced> {
    if groups == [] then []
    else (if groups[0].users == [] then [] else [groups[0]]) + Busy(groups[1..])
  }

  lemma {:induction false} GroupEmojis(rs: seq<Reaction>, e: Emoji, n: nat, isMe: bool)
    ensures Has(rs, e) == Lists(Emojis(rs), e)
    ensures Emojis(AddedGroup(rs, e, n, isMe)) == Emojis(rs) + if Lists(Emojis(rs), e) then [] else [e]
  {
    var after := AddedGroup(rs, e, n, isMe);
    if rs == [] {
      assert after[1..] == [];
    } else {
      assert Emojis(rs)[1..] == Emojis(rs[1..]);
      if Match(rs[0].emoji, e) {
        assert after[1..] == rs[1..];
      } else {
        GroupEmojis(rs[1..], e, n, isMe);
        assert after[1..] == AddedGroup(rs[1..], e, n, isMe);
      }
    }
  }

  lemma NewcomersStep(es: seq<Emoji>, groups: seq<Debounced>)
    requires groups != []
    ensures var now := es + if Lists(es, groups[0].emoji) then [] else [groups[0].emoji];
            es + Newcomers(es, groups) == now + Newcomers(now, groups[1..])
  {
    var e := groups[0].emoji;
    if Lists(es, e) {
      assert es + [] == es;
    } else {
      var later := Newcomers(es + [e], groups[1..]);
      assert es + [e] + later == es + ([e] + later);
    }
  }

  /** A debounced event appends one entry for each emoji it mentions first. */
  lemma {:induction false} ManyEmojis(rs: seq<Reaction>, groups: seq<Debounced>, self: User)
    ensures Emojis(AddedMany(rs, groups, self)) == Emojis(rs) + Newcomers(Emojis(rs), groups)
    decreases |groups|
  {
    if groups == [] {
      assert Emojis(rs) + [] == Emojis(rs);
    } else {
      var g := groups[0];
      GroupEmojis(rs, g.emoji, |g.users|, self in g.users);
      ManyEmojis(AddedGroup(rs, g.emoji, |g.users|, self in g.users), groups[1..], self);
      NewcomersStep(Emojis(rs), groups);
    }
  }

  /** Reported one by one, an event is its busy groups. */
  lemma {:induction false} SinglesAreBusy(rs: seq<Reaction>, groups: seq<Debounced>, self: User)
    ensures AllSingles(rs, groups, self) == AddedMany(rs, Busy(groups), self)
    decreases |groups|
  {
    if groups != [] {
      var g := groups[0];
      if g.users == [] {
        assert Busy(groups) == Busy(groups[1..]);
      } else {
        GroupIsSingles(rs, g.emoji, g.users, self);
        assert Busy(groups)[1..] == Busy(groups[1..]);
      }
      SinglesAreBusy(Singles(rs, g.emoji, g.users, self), groups[1..], self);
    }
  }

  lemma {:induction false} ListsMore(es: seq<Emoji>, more: seq<Emoji>, e: Emoji)
    ensures Lists(es + more, e) == (Lists(es, e) || Lists(more, e))
  {
    if es == [] {
      assert es + more == more;
    } else {
      assert (es + more)[1..] == es[1..] + more;
      ListsMore(es[1..], more, e);
    }
  }

  predicate Mentions(groups: seq<Debounced>, d: Emoji) {
    groups != [] && (Match(groups[0].emoji, d) || Mentions(groups[1..], d))
  }

  lemma {:induction false} ListsUnderMatch(es: seq<Emoji>, e: Emoji, d: Emoji)
    requires Match(e, d)
    ensures Lists(es, e) == Lists(es, d)
  {
    if es != [] {
      ListsUnderMatch(es[1..], e, d);
    }
  }

  lemma {:induction false} NewcomersAreMentioned(es: seq<Emoji>, groups: seq<Debounced>, d: Emoji)
    ensures Lists(es + Newcomers(es, groups), d) == (Lists(es, d) || Mentions(groups, d))
    decreases |groups|
  {
    if groups == [] {
      assert es + [] == es;
    } else {
      var e := groups[0].emoji;
      if Match(e, d) {
        ListsUnderMatch(es, e, d);
      }
      if Lists(es, e) {
        NewcomersAreMentioned(es, groups[1..], d);
      } else {
        NewcomersAreMentioned(es + [e], groups[1..], d);
        ListsMore(es, [e], d);
        assert Lists([e], d) == Match(e, d) by { assert [e][1..] == []; }
        NewcomersStep(es, groups);
      }
    }
  }

  /**
    What each way of reporting an event lists: an emoji that is new and only mentioned by groups naming
    nobody ends up listed, with zero reactions, by the debounced event and not by the single adds.
  */
  lemma IdleGroupsLinger(rs: seq<Reaction>, groups: seq<Debounced>, self: User, d: Emoji)
    ensures Emojis(AddedMany(rs, groups, self)) == Emojis(rs) + Newcomers(Emojis(rs), groups)
    ensures Emojis(AllSingles(rs, groups, self)) == Emojis(rs) + Newcomers(Emojis(rs), Busy(groups))
    ensures Has(AddedMany(rs, groups, self), d) == (Has(rs, d) || Mentions(groups, d))
    ensures Has(AllSingles(rs, groups, self), d) == (Has(rs, d) || Mentions(Busy(groups), d))
  {
    SinglesAreBusy(rs, groups, self);
    ManyEmojis(rs, groups, self);
    ManyEmojis(rs, Busy(groups), self);
    NewcomersAreMentioned(Emojis(rs), groups, d);
    NewcomersAreMentioned(Emojis(rs), Busy(groups), d);
    GroupEmojis(rs, d, 0, false);
    GroupEmojis(AddedMany(rs, groups, self), d, 0, false);
    GroupEmojis(AllSingles(rs, groups, self), d, 0, false);
  }

  /** Entries that count zero reactions. */
  ghost function Blanks(es: seq<Emoji>): seq<Reaction> {
    if es == [] then [] else [FreshGroup(es[0], 0, false)] + Blanks(es[1..])
  }

  /** An emoji listed in front is counted there, a new one takes over a blank entry of its own. */
  lemma {:induction false} GroupBefore(rs: seq<Reaction>, more: seq<Reaction>, e: Emoji, n: nat, isMe: bool)
    ensures Has(rs, e) ==> AddedGroup(rs + more, e, n, isMe) == AddedGroup(rs, e, n, isMe) + more
    ensures !Has(rs, e) ==>
              AddedGroup(rs + [FreshGroup(e, 0, false)] + more, e, n, isMe) == AddedGroup(rs, e, n, isMe) + more
  {
    var blank := [FreshGroup(e, 0, false)];
    if rs == [] {
      assert Match(e, e);
      assert rs + blank + more == blank + more && (blank + more)[1..] == more;
    } else {
      assert (rs + more)[1..] == rs[1..] + more;
      assert (rs + blank + more)[1..] == rs[1..] + blank + more;
      GroupBefore(rs[1..], more, e, n, isMe);
    }
  }

  /** Entering the newcomers with zero reactions beforehand changes nothing. */
  lemma {:induction false} BlanksBeforehand(rs: seq<Reaction>, groups: seq<Debounced>, self: User)
    ensures AddedMany(rs + Blanks(Newcomers(Emojis(rs), groups)), groups, self) == AddedMany(rs, groups, self)
    decreases |groups|
  {
    var newcomers := Newcomers(Emojis(rs), groups);
    if groups == [] {
      assert rs + Blanks(newcomers) == rs;
    } else {
      var g := groups[0];
      var e, n, isMe := g.emoji, |g.users|, self in g.users;
      var after := AddedGroup(rs, e, n, isMe);
      var later := Newcomers(Emojis(after), groups[1..]);
      GroupEmojis(rs, e, n, isMe);
      GroupBefore(rs, Blanks(later), e, n, isMe);
      if Has(rs, e) {
        assert Emojis(rs) + [] == Emojis(rs);
      } else {
        assert newcomers == [e] + later && newcomers[1..] == later;
        assert rs + Blanks(newcomers) == rs + [FreshGroup(e, 0, false)] + Blanks(later);
      }
      BlanksBeforehand(after, groups[1..], self);
    }
  }

  ghost predicate AllListed(es: seq<Emoji>, groups: seq<Debounced>) {
    groups != [] ==> Lists(es, groups[0].emoji) && AllListed(es, groups[1..])
  }

  lemma {:induction false} MentionedListed(es: seq<Emoji>, groups: seq<Debounced>)
    requires forall d :: Mentions(groups, d) ==> Lists(es, d)
    ensures AllListed(es, groups)
  {
    if groups != [] {
      assert Mentions(groups, groups[0].emoji) by { assert Match(groups[0].emoji, groups[0].emoji); }
      MentionedListed(es, groups[1..]);
    }
  }

  lemma NewcomersListed(es: seq<Emoji>, groups: seq<Debounced>)
    ensures AllListed(es + Newcomers(es, groups), groups)
  {
    forall d | Mentions(groups, d) ensures Lists(es + Newcomers(es, groups), d) {
      NewcomersAreMentioned(es, groups, d);
    }
    MentionedListed(es + Newcomers(es, groups), groups);
  }

  /** A group that names nobody does nothing to an emoji already listed. */
  lemma {:induction false} ListedIsBusy(rs: seq<Reaction>, groups: seq<Debounced>, self: User)
    requires AllListed(Emojis(rs), groups)
    ensures AddedMany(rs, groups, self) == AddedMany(rs, Busy(groups), self)
    decreases |groups|
  {
    if groups != [] {
      var g := groups[0];
      var after := AddedGroup(rs, g.emoji, |g.users|, self in g.users);
      GroupEmojis(rs, g.emoji, |g.users|, self in g.users);
      assert Emojis(rs) + [] == Emojis(rs);
      ListedIsBusy(after, groups[1..], self);
      if g.users == [] {
        EmptyGroup(rs, g.emoji);
        assert Busy(groups) == Busy(groups[1..]);
      } else {
        assert Busy(groups)[1..] == Busy(groups[1..]);
      }
    }
  }

  lemma {:induction false} EmojisOfBlanks(es: seq<Emoji>)
    ensures Emojis(Blanks(es)) == es
  {
    if es != [] {
      EmojisOfBlanks(es[1..]);
      assert Blanks(es)[1..] == Blanks(es[1..]);
      assert es == [es[0]] + es[1..];
    }
  }

  lemma {:induction false} EmojisConcat(a: seq<Reaction>, b: seq<Reaction>)
    ensures Emojis(a + b) == Emojis(a) + Emojis(b)
  {
    if a == [] {
      assert a + b == b;
    } else {
      assert (a + b)[1..] == a[1..] + b;
      EmojisConcat(a[1..], b);
    }
  }

  /**
    A whole debounced event equals its users' single adds in order exactly when leaving out the groups that
    name nobody changes neither which emoji the event lists first nor their order.
  */
  lemma EventIsSinglesIff(rs: seq<Reaction>, groups: seq<Debounced>, self: User)
    ensures AddedMany(rs, groups, self) == AllSingles(rs, groups, self)
            <==> Newcomers(Emojis(rs), groups) == Newcomers(Emojis(rs), Busy(groups))
  {
    var es, newcomers, busy := Emojis(rs), Newcomers(Emojis(rs), groups), Newcomers(Emojis(rs), Busy(groups));
    SinglesAreBusy(rs, groups, self);
    ManyEmojis(rs, groups, self);
    ManyEmojis(rs, Busy(groups), self);
    if newcomers == busy {
      EmojisOfBlanks(newcomers);
      EmojisConcat(rs, Blanks(newcomers));
      NewcomersListed(es, groups);
      BlanksBeforehand(rs, groups, self);
      ListedIsBusy(rs + Blanks(newcomers), groups, self);
      BlanksBeforehand(rs, Busy(groups), self);
    } else {
      assert (es + newcomers)[|es|..] == newcomers && (es + busy)[|es|..] == busy;
    }
  }

  // ------------------------------------------------------------------
  // Removing right after adding
  // ------------------------------------------------------------------

  /** What the entry must look like for a removal to undo an add on it. */
  predicate Restorable(r: Reaction, isBurst: bool, isMe: bool, colors: seq<string>) {
    && r.count >= 1
    && (r.details.Some? ==> (if isBurst then r.details.value.burst else r.details.value.normal) >= 0)
    && (isBurst && r.burstCount.Some? ==> r.burstCount.value >= 0)
    && (isMe ==> if isBurst then r.meBurst == Some(false) else !r.me)
    && (isBurst && colors != [] ==> r.burstColors == Some(colors))
  }

  /** The entry an emoji is counted under. */
  function Entry(rs: seq<Reaction>, e: Emoji): Reaction
    requires Has(rs, e)
  {
    if Match(rs[0].emoji, e) then rs[0] else Entry(rs[1..], e)
  }

  lemma BumpThenLower(r: Reaction, isBurst: bool, isMe: bool, colors: seq<string>)
    requires r.count >= 1
    ensures Lowered(Bumped(r, isBurst, isMe, colors), isBurst, isMe) == r
            <==> Restorable(r, isBurst, isMe, colors)
  {
    var back := Lowered(Bumped(r, isBurst, isMe, colors), isBurst, isMe);
    assert back.count == r.count && back.emoji == r.emoji;
    if r.details.Some? {
      var d := r.details.value;
      var b := back.details.value;
      assert b == if isBurst then Details(Max0(d.burst), d.normal) else Details(d.burst, Max0(d.normal));
    }
  }

  lemma {:induction false} RemoveUndoesAddIff(
      rs: seq<Reaction>, e: Emoji, isBurst: bool, isMe: bool, colors: seq<string>)
    ensures Removed(Added(rs, e, isBurst, isMe, colors), e, isBurst, isMe) == rs
            <==> (Has(rs, e) ==> Restorable(Entry(rs, e), isBurst, isMe, colors))
  {
    var added := Added(rs, e, isBurst, isMe, colors);
    if rs == [] {
      assert Match(e, e);
    } else {
      assert rs == [rs[0]] + rs[1..];
      if Match(rs[0].emoji, e) {
        assert added[1..] == rs[1..];
        if rs[0].count >= 1 {
          BumpThenLower(rs[0], isBurst, isMe, colors);
        } else {
          assert |Removed(added, e, isBurst, isMe)| == |rs| - 1;
        }
      } else {
        RemoveUndoesAddIff(rs[1..], e, isBurst, isMe, colors);
        assert added[1..] == Added(rs[1..], e, isBurst, isMe, colors);
        var back := Removed(added, e, isBurst, isMe);
        assert back == [rs[0]] + Removed(added[1..], e, isBurst, isMe);
        assert back[1..] == Removed(added[1..], e, isBurst, isMe);
      }
    }
  }

  // ------------------------------------------------------------------
  // Runs: the list keeps the tally of the events
  // ------------------------------------------------------------------

  datatype Event =
    | Add(emoji: Emoji, isBurst: bool, isMe: bool, colors: seq<string>)
    | AddGroup(emoji: Emoji, users: seq<User>)
    | Remove(emoji: Emoji, isBurst: bool, isMe: bool)

  function Next(rs: seq<Reaction>, ev: Event, self: User): seq<Reaction> {
    match ev
    case Add(e, isBurst, isMe, colors) => Added(rs, e, isBurst, isMe, colors)
    case AddGroup(e, users) => AddedGroup(rs, e, |users|, self in users)
    case Remove(e, isBurst, isMe) => Removed(rs, e, isBurst, isMe)
  }

  function Run(rs: seq<Reaction>, events: seq<Event>, self: User): seq<Reaction>
    decreases |events|
  {
    if events == [] then rs else Run(Next(rs, events[0], self), events[1..], self)
  }

  /** An entry whose total is the sum of its two kinds, none of them negative, at least one reaction. */
  predicate Sound(r: Reaction) {
    && r.count >= 1
    && r.details.Some? && r.details.value.burst >= 0 && r.details.value.normal >= 0
    && r.count == r.details.value.burst + r.details.value.normal
    && (r.burstCount.Some? ==> r.burstCount.value == r.details.value.burst)
  }

  /** One entry per emoji, every entry sound. */
  ghost predicate Consistent(rs: seq<Reaction>) {
    rs != [] ==> Sound(rs[0]) && !Has(rs[1..], rs[0].emoji) && Consistent(rs[1..])
  }

  /** Reactions of one kind shown for an emoji. */
  function Shown(rs: seq<Reaction>, e: Emoji, burst: bool): int {
    if rs == [] then 0
    else if KeyOf(rs[0].emoji) == KeyOf(e) then
      if rs[0].details.None? then 0
      else if burst then rs[0].details.value.burst else rs[0].details.value.normal
    else Shown(rs[1..], e, burst)
  }

  /** What one event changes about the reactions of one kind under an emoji. */
  function Change(ev: Event, e: Emoji, burst: bool): int {
    if KeyOf(ev.emoji) != KeyOf(e) then 0
    else match ev
      case Add(_, isBurst, _, _) => if isBurst == burst then 1 else 0
      case AddGroup(_, users) => if burst then 0 else |users|
      case Remove(_, isBurst, _) => if isBurst == burst then -1 else 0
  }

  function Balance(events: seq<Event>, e: Emoji, burst: bool): int {
    if events == [] then 0 else Change(events[0], e, burst) + Balance(events[1..], e, burst)
  }

  /** A group names someone, and what is removed was there. */
  predicate Legal(rs: seq<Reaction>, ev: Event) {
    match ev
    case Add(_, _, _, _) => true
    case AddGroup(_, users) => users != []
    case Remove(e, isBurst, _) => Shown(rs, e, isBurst) > 0
  }

  ghost predicate LegalRun(rs: seq<Reaction>, events: seq<Event>, self: User)
    decreases |events|
  {
    events != [] ==> Legal(rs, events[0]) && LegalRun(Next(rs, events[0], self), events[1..], self)
  }

  lemma {:induction false} AbsentShowsNothing(rs: seq<Reaction>, e: Emoji, burst: bool)
    requires !Has(rs, e)
    ensures Shown(rs, e, burst) == 0
  {
    if rs != [] {
      AbsentShowsNothing(rs[1..], e, burst);
    }
  }

  lemma {:induction false} AbsentUnderMatch(rs: seq<Reaction>, d: Emoji, e: Emoji)
    requires Match(d, e)
    ensures Has(rs, d) == Has(rs, e)
  {
    if rs != [] {
      AbsentUnderMatch(rs[1..], d, e);
    }
  }

  /** Consistency and the tally survive rebuilding the list from its first entry. */
  lemma PrependKeeps(r: Reaction, rs: seq<Reaction>)
    requires Sound(r) && !Has(rs, r.emoji) && Consistent(rs)
    ensures Consistent([r] + rs)
    ensures forall d, burst :: Match(r.emoji, d) ==>
              Shown([r] + rs, d, burst) == if burst then r.details.value.burst else r.details.value.normal
    ensures forall d, burst :: !Match(r.emoji, d) ==> Shown([r] + rs, d, burst) == Shown(rs, d, burst)
  {
    assert ([r] + rs)[1..] == rs;
  }

  lemma {:induction false} AddTallies(rs: seq<Reaction>, e: Emoji, isBurst: bool, isMe: bool, colors: seq<string>,
                                      d: Emoji, burst: bool)
    requires Consistent(rs)
    ensures var after := Added(rs, e, isBurst, isMe, colors);
            && Consistent(after)
            && Shown(after, d, burst) == Shown(rs, d, burst) + (if Match(e, d) && isBurst == burst then 1 else 0)
            && Has(after, d) == (Has(rs, d) || Match(e, d))
  {
    if rs == [] {
      PrependKeeps(Fresh(e, isBurst, isMe, colors), []);
      assert Added(rs, e, isBurst, isMe, colors) == [Fresh(e, isBurst, isMe, colors)] + [];
    } else if Match(rs[0].emoji, e) {
      PrependKeeps(Bumped(rs[0], isBurst, isMe, colors), rs[1..]);
      assert Added(rs, e, isBurst, isMe, colors)[1..] == rs[1..];
    } else {
      AddTallies(rs[1..], e, isBurst, isMe, colors, d, burst);
      AddTallies(rs[1..], e, isBurst, isMe, colors, rs[0].emoji, burst);
      PrependKeeps(rs[0], Added(rs[1..], e, isBurst, isMe, colors));
      assert Added(rs, e, isBurst, isMe, colors)[1..] == Added(rs[1..], e, isBurst, isMe, colors);
    }
  }

  lemma {:induction false} SinglesTally(rs: seq<Reaction>, e: Emoji, users: seq<User>, self: User,
                                        d: Emoji, burst: bool)
    requires Consistent(rs)
    ensures Consistent(Singles(rs, e, users, self))
    ensures Shown(Singles(rs, e, users, self), d, burst)
            == Shown(rs, d, burst) + (if Match(e, d) && !burst then |users| else 0)
    decreases |users|
  {
    if users != [] {
      AddTallies(rs, e, false, users[0] == self, [], d, burst);
      SinglesTally(Added(rs, e, false, users[0] == self, []), e, users[1..], self, d, burst);
    }
  }

  lemma {:induction false} RemoveTallies(rs: seq<Reaction>, e: Emoji, isBurst: bool, isMe: bool,
                                         d: Emoji, burst: bool)
    requires Consistent(rs) && Shown(rs, e, isBurst) > 0
    ensures var after := Removed(rs, e, isBurst, isMe);
            && Consistent(after)
            && Shown(after, d, burst) == Shown(rs, d, burst) - (if Match(e, d) && isBurst == burst then 1 else 0)
            && (Has(after, d) ==> Has(rs, d))
  {
    if Match(rs[0].emoji, e) {
      if rs[0].count == 1 {
        assert Removed(rs, e, isBurst, isMe) == rs[1..];
        if Match(e, d) {
          AbsentUnderMatch(rs[1..], rs[0].emoji, d);
          AbsentShowsNothing(rs[1..], d, burst);
        }
      } else {
        PrependKeeps(Lowered(rs[0], isBurst, isMe), rs[1..]);
        assert Removed(rs, e, isBurst, isMe)[1..] == rs[1..];
      }
    } else {
      RemoveTallies(rs[1..], e, isBurst, isMe, d, burst);
      RemoveTallies(rs[1..], e, isBurst, isMe, rs[0].emoji, burst);
      PrependKeeps(rs[0], Removed(rs[1..], e, isBurst, isMe));
      assert Removed(rs, e, isBurst, isMe)[1..] == Removed(rs[1..], e, isBurst, isMe);
    }
  }

  lemma NextTallies(rs: seq<Reaction>, ev: Event, self: User, d: Emoji, burst: bool)
    requires Consistent(rs) && Legal(rs, ev)
    ensures Consistent(Next(rs, ev, self))
    ensures Shown(Next(rs, ev, self), d, burst) == Shown(rs, d, burst) + Change(ev, d, burst)
  {
    match ev
    case Add(e, isBurst, isMe, colors) => AddTallies(rs, e, isBurst, isMe, colors, d, burst);
    case AddGroup(e, users) =>
      GroupIsSingles(rs, e, users, self);
      SinglesTally(rs, e, users, self, d, burst);
    case Remove(e, isBurst, isMe) => RemoveTallies(rs, e, isBurst, isMe, d, burst);
  }

  /** Whatever order legal events come in, each emoji shows exactly adds minus removals of each kind. */
  lemma {:induction false} RunsKeepTheTally(rs: seq<Reaction>, events: seq<Event>, self: User, d: Emoji, burst: bool)
    requires Consistent(rs) && LegalRun(rs, events, self)
    ensures Consistent(Run(rs, events, self))
    ensures Shown(Run(rs, events, self), d, burst) == Shown(rs, d, burst) + Balance(events, d, burst)
    decreases |events|
  {
    if events != [] {
      NextTallies(rs, events[0], self, d, burst);
      RunsKeepTheTally(Next(rs, events[0], self), events[1..], self, d, burst);
    }
  }

  /** The entry of an emoji is the one with its key, and entries of different keys do not share a count. */
  lemma {:induction false} EntryByKey(rs: seq<Reaction>, i: nat, d: Emoji)
    requires Consistent(rs) && i < |rs|
    ensures forall j :: 0 <= j < |rs| && KeyOf(rs[j].emoji) == KeyOf(rs[i].emoji) ==> j == i
    ensures Sound(rs[i])
    ensures KeyOf(d) == KeyOf(rs[i].emoji) ==>
              && Shown(rs, d, true) == rs[i].details.value.burst
              && Shown(rs, d, false) == rs[i].details.value.normal
              && rs[i].count == rs[i].details.value.burst + rs[i].details.value.normal
  {
    var tail := rs[1..];
    forall j | 0 < j < |rs| ensures KeyOf(rs[j].emoji) != KeyOf(rs[0].emoji) {
      assert tail[j - 1] == rs[j];
      ListedAt(tail, j - 1);
      if KeyOf(rs[j].emoji) == KeyOf(rs[0].emoji) {
        AbsentUnderMatch(tail, rs[0].emoji, rs[j].emoji);
      }
    }
    if i > 0 {
      EntryByKey(tail, i - 1, d);
      forall j | 0 <= j < |rs| && KeyOf(rs[j].emoji) == KeyOf(rs[i].emoji) ensures j == i {
        if j > 0 {
          assert tail[j - 1] == rs[j];
        }
      }
    }
  }

  lemma {:induction false} ListedAt(rs: seq<Reaction>, i: nat)
    requires i < |rs|
    ensures Has(rs, rs[i].emoji)
  {
    if i > 0 {
      ListedAt(rs[1..], i - 1);
    }
  }

  /** Two unicode emoji of different names added to an empty list stand in entries of their own. */
  lemma NamesKeptApart(a: string, b: string)
    requires a != b
    ensures var x, y := Emoji(None, a), Emoji(None, b);
            var rs := Added(Added([], x, false, false, []), y, false, false, []);
            |rs| == 2 && rs[0].emoji == x && rs[0].count == 1 && rs[1].emoji == y && rs[1].count == 1
  {
    var x, y := Emoji(None, a), Emoji(None, b);
    var one := Added([], x, false, false, []);
    assert one[1..] == [] && !Match(x, y);
  }

  // ------------------------------------------------------------------
  // Own reactions and burst colours
  // ------------------------------------------------------------------

  /** The user has reacted with the emoji, in the way named. */
  predicate Mine(rs: seq<Reaction>, e: Emoji, burst: bool) {
    Has(rs, e) && if burst then Entry(rs, e).meBurst == Some(true) else Entry(rs, e).me
  }

  function ColorsOf(rs: seq<Reaction>, e: Emoji): Option<seq<string>> {
    if Has(rs, e) then Entry(rs, e).burstColors else None
  }

  /** An add marks the user's own reaction if it is one, a burst with colours recolours, and nothing else changes. */
  lemma {:induction false} AddMarks(rs: seq<Reaction>, e: Emoji, isBurst: bool, isMe: bool, colors: seq<string>,
                                    d: Emoji, burst: bool)
    ensures var after, same := Added(rs, e, isBurst, isMe, colors), KeyOf(d) == KeyOf(e);
            && (Mine(after, d, burst) <==> Mine(rs, d, burst) || (same && isMe && isBurst == burst))
            && ColorsOf(after, d) == (if same && isBurst && colors != [] then Some(colors) else ColorsOf(rs, d))
            && (Has(after, d) <==> Has(rs, d) || same)
            && (Has(rs, d) ==> Entry(after, d).emoji == Entry(rs, d).emoji)
            && (Has(rs, d) && !same ==> Entry(after, d) == Entry(rs, d))
  {
    var after := Added(rs, e, isBurst, isMe, colors);
    if rs == [] {
      assert after[1..] == [];
    } else if Match(rs[0].emoji, e) {
      assert after[1..] == rs[1..];
    } else {
      AddMarks(rs[1..], e, isBurst, isMe, colors, d, burst);
      assert after[1..] == Added(rs[1..], e, isBurst, isMe, colors);
    }
  }

  /** A debounced group marks the user if it names the user. */
  lemma {:induction false} GroupMarks(rs: seq<Reaction>, e: Emoji, n: nat, isMe: bool, d: Emoji, burst: bool)
    ensures var after, same := AddedGroup(rs, e, n, isMe), KeyOf(d) == KeyOf(e);
            && (Mine(after, d, burst) <==> Mine(rs, d, burst) || (same && isMe && !burst))
            && ColorsOf(after, d) == ColorsOf(rs, d)
            && (Has(after, d) <==> Has(rs, d) || same)
            && (Has(rs, d) ==> Entry(after, d).emoji == Entry(rs, d).emoji)
            && (Has(rs, d) && !same ==> Entry(after, d) == Entry(rs, d))
  {
    var after := AddedGroup(rs, e, n, isMe);
    if rs == [] {
      assert after[1..] == [];
    } else if Match(rs[0].emoji, e) {
      assert after[1..] == rs[1..];
    } else {
      GroupMarks(rs[1..], e, n, isMe, d, burst);
      assert after[1..] == AddedGroup(rs[1..], e, n, isMe);
    }
  }

  /** While the entry stays, a removal takes back the user's own mark if it is the user's, and nothing else changes. */
  lemma {:induction false} RemoveUnmarks(rs: seq<Reaction>, e: Emoji, isBurst: bool, isMe: bool, d: Emoji, burst: bool)
    requires Consistent(rs)
    ensures var after, same := Removed(rs, e, isBurst, isMe), KeyOf(d) == KeyOf(e);
            && (Has(after, d) <==> Has(rs, d) && !(same && Entry(rs, d).count == 1))
            && (Has(after, d) ==>
                  && (Mine(after, d, burst) <==> Mine(rs, d, burst) && !(same && isMe && isBurst == burst))
                  && ColorsOf(after, d) == ColorsOf(rs, d) && Entry(after, d).emoji == Entry(rs, d).emoji)
            && (Has(rs, d) && !same ==> Entry(after, d) == Entry(rs, d))
  {
    var after := Removed(rs, e, isBurst, isMe);
    if rs == [] {
    } else if Match(rs[0].emoji, e) {
      if rs[0].count == 1 {
        assert after == rs[1..];
        if KeyOf(d) == KeyOf(e) {
          AbsentUnderMatch(rs[1..], rs[0].emoji, d);
        }
      } else {
        assert after[1..] == rs[1..];
      }
    } else {
      RemoveUnmarks(rs[1..], e, isBurst, isMe, d, burst);
      assert after[1..] == Removed(rs[1..], e, isBurst, isMe);
    }
  }

  /** An emoji is listed exactly while it has reactions: nothing lingers at zero. */
  lemma {:induction false} ListedIffReacted(rs: seq<Reaction>, e: Emoji)
    requires Consistent(rs)
    ensures Has(rs, e) <==> Shown(rs, e, true) + Shown(rs, e, false) > 0
    ensures Has(rs, e) ==> Entry(rs, e).count == Shown(rs, e, true) + Shown(rs, e, false)
  {
    if rs != [] && !Match(rs[0].emoji, e) {
      ListedIffReacted(rs[1..], e);
    }
  }

  /**
    A removal keeps the list consistent exactly when it takes away a reaction that is shown
    or hits no entry: otherwise the total drops while the detail stays at zero, and the entry's total no
    longer is the sum of its parts (or the last reaction of the other kind disappears).
  */
  lemma {:induction false} RemovalKeepsTotalsIff(rs: seq<Reaction>, e: Emoji, isBurst: bool, isMe: bool)
    requires Consistent(rs)
    ensures Consistent(Removed(rs, e, isBurst, isMe))
            <==> !Has(rs, e) || Shown(rs, e, isBurst) > 0 || Entry(rs, e).count == 1
  {
    if rs == [] {
    } else if Match(rs[0].emoji, e) {
      if rs[0].count == 1 {
        assert Removed(rs, e, isBurst, isMe) == rs[1..];
      } else {
        var lowered := Lowered(rs[0], isBurst, isMe);
        assert Removed(rs, e, isBurst, isMe) == [lowered] + rs[1..];
        assert ([lowered] + rs[1..])[1..] == rs[1..];
      }
    } else {
      RemovalKeepsTotalsIff(rs[1..], e, isBurst, isMe);
      var after := Removed(rs, e, isBurst, isMe);
      assert after[0] == rs[0];
      assert after[1..] == Removed(rs[1..], e, isBurst, isMe);
      RemovalAddsNone(rs[1..], e, isBurst, isMe, rs[0].emoji);
    }
  }

  lemma {:induction false} RemovalAddsNone(rs: seq<Reaction>, e: Emoji, isBurst: bool, isMe: bool, d: Emoji)
    requires !Has(rs, d)
    ensures !Has(Removed(rs, e, isBurst, isMe), d)
  {
    if rs != [] {
      var after := Removed(rs, e, isBurst, isMe);
      if Match(rs[0].emoji, e) {
        assert after == rs[1..] || after[1..] == rs[1..];
      } else {
        RemovalAddsNone(rs[1..], e, isBurst, isMe, d);
        assert after[1..] == Removed(rs[1..], e, isBurst, isMe);
      }
    }
  }

  // ------------------------------------------------------------------
  // The operations in place
  // ------------------------------------------------------------------

  lemma AddedFrom(rs: seq<Reaction>, i: nat, e: Emoji, isBurst: bool, isMe: bool, colors: seq<string>)
    requires i < |rs| && !Match(rs[i].emoji, e)
    ensures rs[..i] + Added(rs[i..], e, isBurst, isMe, colors)
            == rs[..i + 1] + Added(rs[i + 1..], e, isBurst, isMe, colors)
  {
    assert rs[i..][1..] == rs[i + 1..];
    assert rs[..i + 1] == rs[..i] + [rs[i]];
  }

  lemma AddedAt(rs: seq<Reaction>, i: nat, e: Emoji, isBurst: bool, isMe: bool, colors: seq<string>)
    requires i < |rs| && Match(rs[i].emoji, e)
    ensures rs[..i] + Added(rs[i..], e, isBurst, isMe, colors)
            == rs[i := Bumped(rs[i], isBurst, isMe, colors)]
  {
    assert rs[i..][1..] == rs[i + 1..];
  }

  lemma AddedGroupAt(rs: seq<Reaction>, i: nat, e: Emoji, n: nat, isMe: bool)
    requires i < |rs| && Match(rs[i].emoji, e)
    ensures rs[..i] + AddedGroup(rs[i..], e, n, isMe) == rs[i := Raised(rs[i], n, isMe)]
  {
    assert rs[i..][1..] == rs[i + 1..];
  }

  lemma RemovedAt(rs: seq<Reaction>, i: nat, e: Emoji, isBurst: bool, isMe: bool)
    requires i < |rs| && Match(rs[i].emoji, e)
    ensures rs[..i] + Removed(rs[i..], e, isBurst, isMe)
            == if rs[i].count <= 1 then rs[..i] + rs[i + 1..] else rs[i := Lowered(rs[i], isBurst, isMe)]
  {
    assert rs[i..][1..] == rs[i + 1..];
  }

  lemma AddedGroupFrom(rs: seq<Reaction>, i: nat, e: Emoji, n: nat, isMe: bool)
    requires i < |rs| && !Match(rs[i].emoji, e)
    ensures rs[..i] + AddedGroup(rs[i..], e, n, isMe) == rs[..i + 1] + AddedGroup(rs[i + 1..], e, n, isMe)
  {
    assert rs[i..][1..] == rs[i + 1..];
    assert rs[..i + 1] == rs[..i] + [rs[i]];
  }

  lemma RemovedFrom(rs: seq<Reaction>, i: nat, e: Emoji, isBurst: bool, isMe: bool)
    requires i < |rs| && !Match(rs[i].emoji, e)
    ensures rs[..i] + Removed(rs[i..], e, isBurst, isMe) == rs[..i + 1] + Removed(rs[i + 1..], e, isBurst, isMe)
  {
    assert rs[i..][1..] == rs[i + 1..];
    assert rs[..i + 1] == rs[..i] + [rs[i]];
  }

  method BumpEntry(entry: Reaction, isBurst: bool, isMe: bool, burstColors: seq<string>) returns (r: Reaction)
    ensures r == Bumped(entry, isBurst, isMe, burstColors)
  {
    r := entry.(count := entry.count + 1);
    if r.details.Some? {
      if isBurst {
        r := r.(details := Some(r.details.value.(burst := r.details.value.burst + 1)));
      } else {
        r := r.(details := Some(r.details.value.(normal := r.details.value.normal + 1)));
      }
    }
    if isBurst && r.burstCount.Some? {
      r := r.(burstCount := Some(r.burstCount.value + 1));
    }
    if isMe {
      if isBurst {
        r := r.(meBurst := Some(true));
      } else {
        r := r.(me := true);
      }
    }
    if isBurst && burstColors != [] {
      r := r.(burstColors := Some(burstColors));
    }
  }

  method RaiseEntry(entry: Reaction, addCount: nat, isMe: bool) returns (r: Reaction)
    ensures r == Raised(entry, addCount, isMe)
  {
    r := entry.(count := entry.count + addCount);
    if r.details.Some? {
      r := r.(details := Some(r.details.value.(normal := r.details.value.normal + addCount)));
    }
    if isMe {
      r := r.(me := true);
    }
  }

  method LowerEntry(entry: Reaction, isBurst: bool, isMe: bool) returns (r: Reaction)
    ensures r == Lowered(entry, isBurst, isMe)
  {
    r := entry.(count := entry.count - 1);
    if r.details.Some? {
      if isBurst {
        r := r.(details := Some(r.details.value.(burst := Max0(r.details.value.burst - 1))));
      } else {
        r := r.(details := Some(r.details.value.(normal := Max0(r.details.value.normal - 1))));
      }
    }
    if isBurst && r.burstCount.Some? {
      r := r.(burstCount := Some(Max0(r.burstCount.value - 1)));
    }
    if isMe {
      if isBurst {
        r := r.(meBurst := Some(false));
      } else {
        r := r.(me := false);
      }
    }
  }

  class Message {
    var reactions: seq<Reaction>

    method ApplyReactionAdd(emoji: Emoji, isBurst: bool, isMe: bool, burstColors: seq<string>)
      modifies this
      ensures reactions == Added(old(reactions), emoji, isBurst, isMe, burstColors)
    {
      var found := false;
      ghost var was := reactions;
      var i := 0;
      while i < |reactions|
        invariant 0 <= i <= |was|
        invariant !found && reactions == was
        invariant was[..i] + Added(was[i..], emoji, isBurst, isMe, burstColors)
                  == Added(was, emoji, isBurst, isMe, burstColors)
      {
        if Match(reactions[i].emoji, emoji) {
          var r := BumpEntry(reactions[i], isBurst, isMe, burstColors);
          reactions := reactions[i := r];
          AddedAt(was, i, emoji, isBurst, isMe, burstColors);
          found := true;
          break;
        }
        AddedFrom(was, i, emoji, isBurst, isMe, burstColors);
        i := i + 1;
      }
      if !found {
        var newReaction := Reaction(emoji, 1, Some(Details(if isBurst then 1 else 0, if isBurst then 0 else 1)),
                                    !isBurst && isMe, Some(isBurst && isMe), Some(if isBurst then 1 else 0),
                                    if isBurst && burstColors != [] then Some(burstColors) else None);
        assert was[..i] == was;
        reactions := reactions + [newReaction];
      }
    }

    method ApplyGroup(emoji: Emoji, addCount: nat, isMe: bool)
      modifies this
      ensures reactions == AddedGroup(old(reactions), emoji, addCount, isMe)
    {
      var found := false;
      ghost var was := reactions;
      var i := 0;
      while i < |reactions|
        invariant 0 <= i <= |was|
        invariant !found && reactions == was
        invariant was[..i] + AddedGroup(was[i..], emoji, addCount, isMe) == AddedGroup(was, emoji, addCount, isMe)
      {
        if Match(reactions[i].emoji, emoji) {
          var r := RaiseEntry(reactions[i], addCount, isMe);
          reactions := reactions[i := r];
          AddedGroupAt(was, i, emoji, addCount, isMe);
          found := true;
          break;
        }
        AddedGroupFrom(was, i, emoji, addCount, isMe);
        i := i + 1;
      }
      if !found {
        assert was[..i] == was;
        reactions := reactions
          + [Reaction(emoji, addCount, Some(Details(0, addCount)), isMe, Some(false), Some(0), None)];
      }
    }

    method ApplyReactionAddMany(groups: seq<Debounced>, myId: User)
      modifies this
      ensures reactions == AddedMany(old(reactions), groups, myId)
    {
      var i := 0;
      while i < |groups|
        invariant 0 <= i <= |groups|
        invariant AddedMany(old(reactions), groups, myId) == AddedMany(reactions, groups[i..], myId)
      {
        var users := groups[i].users;
        var isMe := false;
        var u := 0;
        while u < |users| && !isMe
          invariant 0 <= u <= |users|
          invariant isMe <==> myId in users[..u]
        {
          assert users[..u + 1] == users[..u] + [users[u]];
          isMe := users[u] == myId;
          u := u + 1;
        }
        assert isMe <==> myId in users by {
          if u == |users| {
            assert users[..u] == users;
          } else {
            assert users == users[..u] + users[u..];
          }
        }
        assert groups[i..][1..] == groups[i + 1..];
        ApplyGroup(groups[i].emoji, |users|, isMe);
        i := i + 1;
      }
    }

    method ApplyReactionRemove(emoji: Emoji, isBurst: bool, isMe: bool)
      modifies this
      ensures reactions == Removed(old(reactions), emoji, isBurst, isMe)
    {
      ghost var was := reactions;
      var i := 0;
      while i < |reactions|
        invariant 0 <= i <= |was|
        invariant reactions == was
        invariant was[..i] + Removed(was[i..], emoji, isBurst, isMe) == Removed(was, emoji, isBurst, isMe)
      {
        if Match(reactions[i].emoji, emoji) {
          var r := LowerEntry(reactions[i], isBurst, isMe);
          RemovedAt(was, i, emoji, isBurst, isMe);
          reactions := reactions[i := r];
          if r.count <= 0 {
            reactions := reactions[..i] + reactions[i + 1..];
          }
          return;
        }
        RemovedFrom(was, i, emoji, isBurst, isMe);
        i := i + 1;
      }
    }
  }
}
