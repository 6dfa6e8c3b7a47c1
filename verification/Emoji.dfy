/**
  The emoji catalog (src/Core/EmojiCatalog.cpp, EmojiCatalog.hpp): the text form of a custom
  emoji and its parser, the registry of custom emoji, and the name index that is rebuilt when
  the registry has changed. Case folding and query normalisation are parameters.
*/
module Emoji {
  import opened Options
  import opened Sequences

  datatype Item = Item(
    name: string,
    unicodeEmoji: string,
    category: string,
    customId: string,
    animated: bool,
    guildName: string,
    guildId: string)
  {
    predicate IsCustom() {
      customId != ""
    }

    function SelectionValue(): string {
      if IsCustom() then Token(animated, name, customId) else unicodeEmoji
    }
  }

  datatype Selection = Selection(raw: string, customId: string, name: string, animated: bool)

  function Token(animated: bool, name: string, id: string): string {
    "<" + (if animated then "a" else "") + ":" + name + ":" + id + ">"
  }

  // ------------------------------------------------------------------
  // Parsing
  // ------------------------------------------------------------------

  predicate WordChar(c: char) {
    'A' <= c <= 'Z' || 'a' <= c <= 'z' || '0' <= c <= '9' || c == '_'
  }

  predicate Digit(c: char) {
    '0' <= c <= '9'
  }

  predicate AllWord(s: string) {
    forall i :: 0 <= i < |s| ==> WordChar(s[i])
  }

  predicate AllDigits(s: string) {
    forall i :: 0 <= i < |s| ==> Digit(s[i])
  }

  predicate IsName(s: string) {
    1 <= |s| <= 32 && AllWord(s)
  }

  predicate IsId(s: string) {
    17 <= |s| <= 20 && AllDigits(s)
  }

  /** Word characters are letters, digits and the underscore, and end where those end. */
  lemma CharacterClasses()
    ensures forall c :: c in "AZaz09_" ==> WordChar(c)
    ensures forall c :: c in "@[`{/:^- " ==> !WordChar(c)
    ensures forall c :: c in "0123456789" ==> Digit(c) && WordChar(c)
    ensures forall c :: c in "/:Aa_ " ==> !Digit(c)
  {
  }

  /** A custom emoji as it is written, and the selection it stands for. */
  lemma ParsedExample()
    ensures ParseCustomEmoji("<a:go_1:12345678901234567>")
            == Some(Selection("<a:go_1:12345678901234567>", "12345678901234567", "go_1", true))
    ensures ParseCustomEmoji("<:go_1:12345678901234567>")
            == Some(Selection("<:go_1:12345678901234567>", "12345678901234567", "go_1", false))
  {
    assert "<" + "a" + ":" + "go_1" + ":" + "12345678901234567" + ">" == "<a:go_1:12345678901234567>";
    assert "<" + "" + ":" + "go_1" + ":" + "12345678901234567" + ">" == "<:go_1:12345678901234567>";
    ParseComplete("<a:go_1:12345678901234567>", true, "go_1", "12345678901234567");
    ParseComplete("<:go_1:12345678901234567>", false, "go_1", "12345678901234567");
  }

  /** The expression of the source: its end anchor also matches before a final line feed. */
  predicate Matches(v: string, animated: bool, name: string, id: string) {
    IsName(name) && IsId(id) && (v == Token(animated, name, id) || v == Token(animated, name, id) + "\n")
  }

  /** How far `p` holds from the start. */
  function Span(s: string, p: char -> bool): (n: nat)
    ensures n <= |s|
    ensures forall i :: 0 <= i < n ==> p(s[i])
    ensures n < |s| ==> !p(s[n])
  {
    if s == "" || !p(s[0]) then 0
    else
      assert forall i :: 0 < i < |s| ==> s[1..][i - 1] == s[i];
      1 + Span(s[1..], p)
  }

  /** Digits, the closing bracket and the end of the text. */
  function ParseId(s: string): Option<string> {
    var n := Span(s, Digit);
    if 17 <= n <= 20 && (s[n..] == ">" || s[n..] == ">\n") then Some(s[..n]) else None
  }

  /** The name, a colon and the id. */
  function ParseTail(s: string): Option<(string, string)> {
    var n := Span(s, WordChar);
    if 1 <= n <= 32 && n < |s| && s[n] == ':' then
      var id := ParseId(s[n + 1..]);
      if id.Some? then Some((s[..n], id.value)) else None
    else None
  }

  function ParseCustomEmoji(v: string): Option<Selection> {
    var animated := |v| >= 2 && v[1] == 'a';
    var at := if animated then 2 else 1;
    if |v| > at && v[0] == '<' && v[at] == ':' then
      var rest := ParseTail(v[at + 1..]);
      if rest.Some? then Some(Selection(v, rest.value.1, rest.value.0, animated)) else None
    else None
  }

  /** A run that ends at a character outside the class is the whole span. */
  lemma {:induction false} SpanOf(s: string, n: nat, p: char -> bool)
    requires n <= |s| && (forall i :: 0 <= i < n ==> p(s[i])) && (n < |s| ==> !p(s[n]))
    ensures Span(s, p) == n
  {
    if n > 0 {
      SpanOf(s[1..], n - 1, p);
    }
  }

  predicate Ends(t: string) {
    t == ">" || t == ">\n"
  }

  lemma ParseIdSound(s: string) returns (t: string)
    requires ParseId(s).Some?
    ensures IsId(ParseId(s).value) && Ends(t) && s == ParseId(s).value + t
  {
    var n := Span(s, Digit);
    t := s[n..];
    assert s == s[..n] + s[n..];
  }

  lemma ParseIdComplete(id: string, t: string)
    requires IsId(id) && Ends(t)
    ensures ParseId(id + t) == Some(id)
  {
    SpanOf(id + t, |id|, Digit);
    assert (id + t)[..|id|] == id && (id + t)[|id|..] == t;
  }

  lemma CutAt(s: string, n: nat)
    requires n < |s| && s[n] == ':'
    ensures s == s[..n] + (":" + s[n + 1..])
  {
  }

  lemma NameSpan(s: string)
    requires 1 <= Span(s, WordChar) <= 32
    ensures IsName(s[..Span(s, WordChar)])
  {
  }

  lemma ParseTailSound(s: string) returns (t: string)
    requires ParseTail(s).Some?
    ensures var (name, id) := ParseTail(s).value;
            IsName(name) && IsId(id) && Ends(t) && s == name + (":" + (id + t))
  {
    var n := Span(s, WordChar);
    var name, rest := s[..n], s[n + 1..];
    CutAt(s, n);
    NameSpan(s);
    t := ParseIdSound(rest);
    var id := ParseId(rest).value;
    assert ParseTail(s).value == (name, id);
    assert rest == id + t;
  }

  lemma ParseTailComplete(name: string, id: string, t: string)
    requires IsName(name) && IsId(id) && Ends(t)
    ensures ParseTail(name + (":" + (id + t))) == Some((name, id))
  {
    var s := name + (":" + (id + t));
    SpanOf(s, |name|, WordChar);
    assert s[..|name|] == name && s[|name| + 1..] == id + t;
    ParseIdComplete(id, t);
  }

  function Opening(animated: bool): string {
    if animated then "<a:" else "<:"
  }

  lemma TokenShape(animated: bool, name: string, id: string)
    ensures Token(animated, name, id) == Opening(animated) + (name + (":" + (id + ">")))
    ensures Token(animated, name, id) + "\n" == Opening(animated) + (name + (":" + (id + ">\n")))
  {
    var inner := name + ":" + id + ">";
    assert inner == name + (":" + (id + ">"));
    assert inner + "\n" == name + (":" + (id + ">\n"));
    assert Token(animated, name, id) == Opening(animated) + inner;
    assert Opening(animated) + inner + "\n" == Opening(animated) + (inner + "\n");
  }

  /** An opening followed by a tail is parsed as that tail. */
  lemma ParseOpened(animated: bool, tail: string)
    ensures ParseCustomEmoji(Opening(animated) + tail)
            == (var rest := ParseTail(tail);
                if rest.Some? then Some(Selection(Opening(animated) + tail, rest.value.1, rest.value.0, animated))
                else None)
  {
    var v := Opening(animated) + tail;
    assert v[|Opening(animated)|..] == tail;
  }

  lemma ParseOpens(v: string)
    requires ParseCustomEmoji(v).Some?
    ensures var open := Opening(ParseCustomEmoji(v).value.animated);
            |v| >= |open| && v == open + v[|open|..]
  {
    var open := Opening(ParseCustomEmoji(v).value.animated);
    assert v[..|open|] == open;
  }

  lemma ParseSound(v: string)
    requires ParseCustomEmoji(v).Some?
    ensures var sel := ParseCustomEmoji(v).value;
            sel.raw == v && Matches(v, sel.animated, sel.name, sel.customId)
  {
    ParseOpens(v);
    var sel := ParseCustomEmoji(v).value;
    var tail := v[|Opening(sel.animated)|..];
    ParseOpened(sel.animated, tail);
    var t := ParseTailSound(tail);
    TokenShape(sel.animated, sel.name, sel.customId);
  }

  lemma ParseComplete(v: string, animated: bool, name: string, id: string)
    requires Matches(v, animated, name, id)
    ensures ParseCustomEmoji(v) == Some(Selection(v, id, name, animated))
  {
    TokenShape(animated, name, id);
    var t := if v == Token(animated, name, id) then ">" else ">\n";
    ParseTailComplete(name, id, t);
    ParseOpened(animated, name + (":" + (id + t)));
  }

  /** The parser accepts exactly the expression's language, and each text in one way. */
  lemma ParseIffMatches(v: string, sel: Selection)
    ensures ParseCustomEmoji(v) == Some(sel) <==> sel.raw == v && Matches(v, sel.animated, sel.name, sel.customId)
  {
    if ParseCustomEmoji(v) == Some(sel) {
      ParseSound(v);
    }
    if sel.raw == v && Matches(v, sel.animated, sel.name, sel.customId) {
      ParseComplete(v, sel.animated, sel.name, sel.customId);
    }
  }

  /** Printing undoes parsing unless the text ends in a line feed, which parsing ignores. */
  lemma PrintParsedIff(v: string)
    requires ParseCustomEmoji(v).Some?
    ensures var sel := ParseCustomEmoji(v).value;
            Token(sel.animated, sel.name, sel.customId) == v <==> v[|v| - 1] != '\n'
  {
    var sel := ParseCustomEmoji(v).value;
    ParseSound(v);
    var token := Token(sel.animated, sel.name, sel.customId);
    assert token[|token| - 1] == '>';
  }

  /** Two texts around a colon agree if the parts of one of them hold no other colon. */
  lemma SplitOnce(a: string, b: string, n: string, d: string)
    requires a + (":" + b) == n + (":" + d)
    requires ':' !in n && ':' !in d
    ensures a == n && b == d
  {
    var s := n + (":" + d);
    assert s[|a|] == ':' by {
      assert (a + (":" + b))[|a|] == ':';
    }
    assert forall i :: 0 <= i < |s| && i != |n| ==> s[i] == (if i < |n| then n[i] else d[i - |n| - 1]);
    assert |a| == |n|;
    assert s[..|n|] == n && s[|n| + 1..] == d;
    assert (a + (":" + b))[..|a|] == a && (a + (":" + b))[|a| + 1..] == b;
  }

  lemma NoColonInside(n: string, d: string)
    requires AllWord(n) && AllDigits(d)
    ensures ':' !in n && ':' !in d + ">"
  {
  }

  /** The text before the last character decides nothing about it. */
  lemma EndsAlike(a: string, b: string, t: string)
    requires a + ">" == b + t && Ends(t)
    ensures t == ">" && a == b
  {
    assert (a + ">")[|a|] == '>';
    assert (b + t)[|b + t| - 1] == t[|t| - 1];
    assert (a + ">")[..|a|] == a && (b + ">")[..|b|] == b;
  }

  lemma TailParsesBack(name: string, id: string)
    requires ParseTail(name + (":" + (id + ">"))).Some?
    ensures IsName(name) && IsId(id)
  {
    var s := name + (":" + (id + ">"));
    var (n, d) := ParseTail(s).value;
    var t := ParseTailSound(s);
    assert s == (name + (":" + id)) + ">" && n + (":" + (d + t)) == (n + (":" + d)) + t;
    EndsAlike(name + (":" + id), n + (":" + d), t);
    NoColonInside(n, d);
    SplitOnce(name, id + ">", n, d + ">");
    EndsAlike(id, d, ">");
  }

  /** What a name and id that are not well formed parse to: nothing at all. */
  lemma TailParsesIff(name: string, id: string)
    ensures ParseTail(name + (":" + (id + ">"))).Some? <==> IsName(name) && IsId(id)
  {
    if IsName(name) && IsId(id) {
      ParseTailComplete(name, id, ">");
    }
    if ParseTail(name + (":" + (id + ">"))).Some? {
      TailParsesBack(name, id);
    }
  }

  /** A custom item's text is understood exactly if its name and id are well formed, and then as that item. */
  lemma SelectionValueParsesIff(item: Item)
    requires item.IsCustom()
    ensures ParseCustomEmoji(item.SelectionValue()).Some? <==> IsName(item.name) && IsId(item.customId)
    ensures IsName(item.name) && IsId(item.customId) ==>
              ParseCustomEmoji(item.SelectionValue())
              == Some(Selection(item.SelectionValue(), item.customId, item.name, item.animated))
  {
    TokenShape(item.animated, item.name, item.customId);
    ParseOpened(item.animated, item.name + (":" + (item.customId + ">")));
    TailParsesIff(item.name, item.customId);
    if IsName(item.name) && IsId(item.customId) {
      ParseComplete(item.SelectionValue(), item.animated, item.name, item.customId);
    }
  }

  /** What selecting an item inserts: the emoji itself, or the text of a custom one. */
  lemma InsertedText(item: Item)
    ensures item.SelectionValue() ==
            if item.customId == "" then item.unicodeEmoji
            else (if item.animated then "<a:" else "<:") + item.name + ":" + item.customId + ">"
  {
    assert "<" + "a" + ":" == "<a:" && "<" + "" + ":" == "<:";
  }

  // ------------------------------------------------------------------
  // The registry
  // ------------------------------------------------------------------

  type Registry = map<string, Item>

  datatype Op =
    | Register(item: Item)
    | RegisterMany(items: seq<Item>)
    | Unregister(customId: string)
    | UnregisterGuild(guildId: string)
    | Clear

  predicate Acceptable(item: Item) {
    item.IsCustom() && item.name != ""
  }

  function WithItem(r: Registry, item: Item): Registry {
    if Acceptable(item) then r[item.customId := item] else r
  }

  function WithItems(r: Registry, items: seq<Item>): Registry
    decreases |items|
  {
    if items == [] then r else WithItems(WithItem(r, items[0]), items[1..])
  }

  function WithoutGuild(r: Registry, guildId: string): Registry {
    map id | id in r && r[id].guildId != guildId :: r[id]
  }

  function Changed(r: Registry, op: Op): Registry {
    match op
    case Register(item) => WithItem(r, item)
    case RegisterMany(items) => WithItems(r, items)
    case Unregister(id) => r - {id}
    case UnregisterGuild(guild) => if guild == "" then r else WithoutGuild(r, guild)
    case Clear => map[]
  }

  function RunOps(ops: seq<Op>): Registry {
    if ops == [] then map[] else Changed(RunOps(ops[..|ops| - 1]), ops[|ops| - 1])
  }

  function Lookup(r: Registry, id: string): Option<Item> {
    if id in r then Some(r[id]) else None
  }

  /** The last acceptable item of a list with a given id. */
  function LastOf(items: seq<Item>, id: string): Option<Item> {
    if items == [] then None
    else
      var later := LastOf(items[1..], id);
      if later.Some? then later
      else if Acceptable(items[0]) && items[0].customId == id then Some(items[0])
      else None
  }

  /** What was said last about one id. */
  function LastWord(ops: seq<Op>, id: string): Option<Item> {
    if ops == [] then None
    else
      var before := LastWord(ops[..|ops| - 1], id);
      match ops[|ops| - 1]
      case Register(item) => if Acceptable(item) && item.customId == id then Some(item) else before
      case RegisterMany(items) => var last := LastOf(items, id); if last.Some? then last else before
      case Unregister(gone) => if gone == id then None else before
      case UnregisterGuild(guild) =>
        if guild != "" && before.Some? && before.value.guildId == guild then None else before
      case Clear => None
  }

  lemma {:induction false} WithItemsLast(r: Registry, items: seq<Item>, id: string)
    ensures Lookup(WithItems(r, items), id)
            == (var last := LastOf(items, id); if last.Some? then last else Lookup(r, id))
    decreases |items|
  {
    if items != [] {
      WithItemsLast(WithItem(r, items[0]), items[1..], id);
    }
  }

  /** An item enters the registry exactly if it has a custom id and a name. */
  lemma NamedCustomItemsEnter(item: Item)
    ensures item.customId in RunOps([Register(item)]) <==> item.customId != "" && item.name != ""
  {
    assert [Register(item)][..0] == [];
    assert RunOps([]) == map[];
  }

  /** Each id is registered as what was said about it last, whatever happened to the others. */
  lemma {:induction false} RegistryIsLastWord(ops: seq<Op>, id: string)
    ensures Lookup(RunOps(ops), id) == LastWord(ops, id)
  {
    if ops != [] {
      var before := RunOps(ops[..|ops| - 1]);
      RegistryIsLastWord(ops[..|ops| - 1], id);
      match ops[|ops| - 1]
      case RegisterMany(items) => WithItemsLast(before, items, id);
      case _ =>
    }
  }

  // ------------------------------------------------------------------
  // Looking a name up by scanning
  // ------------------------------------------------------------------

  predicate Hit(item: Item, key: string, unicodeOnly: bool, fold: string -> string) {
    fold(item.name) == key && !(unicodeOnly && item.IsCustom())
  }

  function Scan(list: seq<Item>, key: string, unicodeOnly: bool, fold: string -> string): Option<Item> {
    if list == [] then None
    else if Hit(list[0], key, unicodeOnly, fold) then Some(list[0])
    else Scan(list[1..], key, unicodeOnly, fold)
  }

  lemma {:induction false} ScanConcat(a: seq<Item>, b: seq<Item>, key: string, unicodeOnly: bool,
                                      fold: string -> string)
    ensures Scan(a + b, key, unicodeOnly, fold)
            == (var first := Scan(a, key, unicodeOnly, fold);
                if first.Some? then first else Scan(b, key, unicodeOnly, fold))
  {
    if a == [] {
      assert a + b == b;
    } else {
      assert (a + b)[1..] == a[1..] + b;
      ScanConcat(a[1..], b, key, unicodeOnly, fold);
    }
  }

  lemma {:induction false} ScanFinds(list: seq<Item>, i: nat, key: string, unicodeOnly: bool, fold: string -> string)
    requires i < |list| && Hit(list[i], key, unicodeOnly, fold)
    requires forall j :: 0 <= j < i ==> !Hit(list[j], key, unicodeOnly, fold)
    ensures Scan(list, key, unicodeOnly, fold) == Some(list[i])
  {
    if i > 0 {
      ScanFinds(list[1..], i - 1, key, unicodeOnly, fold);
    }
  }

  lemma {:induction false} ScanMisses(list: seq<Item>, key: string, unicodeOnly: bool, fold: string -> string)
    requires forall j :: 0 <= j < |list| ==> !Hit(list[j], key, unicodeOnly, fold)
    ensures Scan(list, key, unicodeOnly, fold) == None
  {
    if list != [] {
      ScanMisses(list[1..], key, unicodeOnly, fold);
    }
  }

  lemma {:induction false} ScanFound(list: seq<Item>, key: string, unicodeOnly: bool, fold: string -> string)
    requires Scan(list, key, unicodeOnly, fold).Some?
    ensures var found := Scan(list, key, unicodeOnly, fold).value;
            found in list && Hit(found, key, unicodeOnly, fold)
  {
    if !Hit(list[0], key, unicodeOnly, fold) {
      ScanFound(list[1..], key, unicodeOnly, fold);
    }
  }

  // ------------------------------------------------------------------
  // Looking a name up in the index
  // ------------------------------------------------------------------

  ghost predicate FirstHit(list: seq<Item>, i: int, key: string, unicodeOnly: bool, fold: string -> string) {
    && 0 <= i < |list| && Hit(list[i], key, unicodeOnly, fold)
    && forall j :: 0 <= j < i ==> !Hit(list[j], key, unicodeOnly, fold)
  }

  /** Each key leads to the first of the first `n` items that hits it, and every hit has its key. */
  ghost predicate Indexes(index: map<string, int>, list: seq<Item>, n: int, unicodeOnly: bool, fold: string -> string) {
    && 0 <= n <= |list|
    && (forall key :: key in index ==> index[key] < n && FirstHit(list, index[key], key, unicodeOnly, fold))
    && (forall j :: 0 <= j < n && !(unicodeOnly && list[j].IsCustom()) ==> fold(list[j].name) in index)
  }

  function Found(index: map<string, int>, list: seq<Item>, key: string): Option<Item>
    requires key in index ==> 0 <= index[key] < |list|
  {
    if key in index then Some(list[index[key]]) else None
  }

  lemma IndexIsScan(index: map<string, int>, list: seq<Item>, key: string, unicodeOnly: bool, fold: string -> string)
    requires Indexes(index, list, |list|, unicodeOnly, fold)
    ensures Found(index, list, key) == Scan(list, key, unicodeOnly, fold)
  {
    if key in index {
      ScanFinds(list, index[key], key, unicodeOnly, fold);
    } else {
      ScanMisses(list, key, unicodeOnly, fold);
    }
  }

  function Inserted(index: map<string, int>, key: string, i: int): map<string, int> {
    if key in index then index else index[key := i]
  }

  lemma InsertedIndexes(index: map<string, int>, list: seq<Item>, i: int, unicodeOnly: bool, fold: string -> string)
    requires Indexes(index, list, i, unicodeOnly, fold) && i < |list|
    ensures Indexes(if unicodeOnly && list[i].IsCustom() then index else Inserted(index, fold(list[i].name), i),
                    list, i + 1, unicodeOnly, fold)
  {
    var key := fold(list[i].name);
    if !(unicodeOnly && list[i].IsCustom()) && key !in index {
      forall j | 0 <= j < i
        ensures !Hit(list[j], key, unicodeOnly, fold)
      {
        assert !(unicodeOnly && list[j].IsCustom()) ==> fold(list[j].name) in index;
      }
    }
  }

  // ------------------------------------------------------------------
  // The combined list, in whatever order the hash is walked
  // ------------------------------------------------------------------

  ghost predicate WellKeyed(r: Registry) {
    forall id :: id in r ==> r[id].customId == id && Acceptable(r[id])
  }

  ghost predicate Lists(ids: seq<string>, r: Registry) {
    NoDup(ids) && forall id :: id in ids <==> id in r
  }

  function Items(r: Registry, ids: seq<string>): (list: seq<Item>)
    requires forall id :: id in ids ==> id in r
    ensures |list| == |ids| && forall i :: 0 <= i < |ids| ==> list[i] == r[ids[i]]
  {
    if ids == [] then [] else
      HeadTail(ids);
      [r[ids[0]]] + Items(r, ids[1..])
  }

  ghost predicate Combined(list: seq<Item>, unicode: seq<Item>, r: Registry) {
    exists ids :: Lists(ids, r) && list == unicode + Items(r, ids)
  }

  lemma {:induction false} WithItemsWellKeyed(r: Registry, items: seq<Item>)
    requires WellKeyed(r)
    ensures WellKeyed(WithItems(r, items))
    decreases |items|
  {
    if items != [] {
      WithItemsWellKeyed(WithItem(r, items[0]), items[1..]);
    }
  }

  /** Unicode names are found among the built-in emoji alone: nothing registered can shadow them. */
  lemma UnicodeLookupIgnoresRegistry(list: seq<Item>, unicode: seq<Item>, r: Registry, key: string,
                                     fold: string -> string)
    requires WellKeyed(r) && Combined(list, unicode, r)
    ensures Scan(list, key, true, fold) == Scan(unicode, key, true, fold)
  {
    var ids :| Lists(ids, r) && list == unicode + Items(r, ids);
    forall j | 0 <= j < |ids|
      ensures !Hit(Items(r, ids)[j], key, true, fold)
    {
      assert ids[j] in ids;
    }
    ScanMisses(Items(r, ids), key, true, fold);
    ScanConcat(unicode, Items(r, ids), key, true, fold);
  }

  /** At most one registered emoji answers to `key`. */
  ghost predicate Unambiguous(r: Registry, key: string, fold: string -> string) {
    forall a, b :: a in r && b in r && fold(r[a].name) == key && fold(r[b].name) == key ==> a == b
  }

  lemma OneAnswer(r: Registry, a: seq<string>, b: seq<string>, key: string, fold: string -> string)
    requires Lists(a, r) && Lists(b, r) && Unambiguous(r, key, fold)
    ensures Scan(Items(r, a), key, false, fold) == Scan(Items(r, b), key, false, fold)
  {
    var x := Scan(Items(r, a), key, false, fold);
    var y := Scan(Items(r, b), key, false, fold);
    if x.Some? {
      HasOne(r, a, b, key, fold);
    }
    if y.Some? {
      HasOne(r, b, a, key, fold);
    }
  }

  lemma HasOne(r: Registry, a: seq<string>, b: seq<string>, key: string, fold: string -> string)
    requires Lists(a, r) && Lists(b, r) && Unambiguous(r, key, fold)
    requires Scan(Items(r, a), key, false, fold).Some?
    ensures Scan(Items(r, b), key, false, fold) == Scan(Items(r, a), key, false, fold)
  {
    ScanFound(Items(r, a), key, false, fold);
    var found := Scan(Items(r, a), key, false, fold).value;
    var i :| 0 <= i < |a| && Items(r, a)[i] == found;
    var id := a[i];
    assert id in a;
    assert id in b;
    var j :| 0 <= j < |b| && b[j] == id;
    forall k | 0 <= k < j
      ensures !Hit(Items(r, b)[k], key, false, fold)
    {
      NoDupDistinct(b, k, j);
      assert b[k] in b;
    }
    ScanFinds(Items(r, b), j, key, false, fold);
  }

  /** Some listing of the registry starts with any given emoji. */
  lemma StartingWith(r: Registry, first: string) returns (ids: seq<string>)
    requires first in r
    ensures Lists(ids, r) && ids != [] && ids[0] == first
  {
    var rest := SomeListing(r - {first});
    ids := [first] + rest;
    NoDupPrepend(first, rest);
    HeadTail(ids);
  }

  lemma {:induction false} SomeListing(r: Registry) returns (ids: seq<string>)
    ensures Lists(ids, r)
    decreases |r|
  {
    if r == map[] {
      ids := [];
    } else {
      SomeKey(r);
      var id :| id in r;
      var rest := SomeListing(r - {id});
      ids := [id] + rest;
      NoDupPrepend(id, rest);
      HeadTail(ids);
    }
  }

  lemma SomeKey(r: Registry)
    requires r != map[]
    ensures exists id :: id in r
  {
    if forall id :: id !in r {
      assert false;
    }
  }

  ghost predicate SameAnswer(unicode: seq<Item>, r: Registry, a: seq<string>, b: seq<string>, key: string,
                             fold: string -> string) {
    Lists(a, r) && Lists(b, r) ==>
      Scan(unicode + Items(r, a), key, false, fold) == Scan(unicode + Items(r, b), key, false, fold)
  }

  /**
    The order in which the registry's hash is walked decides what a name finds exactly if no
    built-in emoji has the name and two registered ones do.
  */
  lemma HashOrderMattersIff(unicode: seq<Item>, r: Registry, key: string, fold: string -> string)
    requires WellKeyed(r)
    ensures (forall a, b :: SameAnswer(unicode, r, a, b, key, fold))
            <==> Scan(unicode, key, false, fold).Some? || Unambiguous(r, key, fold)
  {
    if Scan(unicode, key, false, fold).Some? || Unambiguous(r, key, fold) {
      forall a, b ensures SameAnswer(unicode, r, a, b, key, fold) {
        if Lists(a, r) && Lists(b, r) {
          ScanConcat(unicode, Items(r, a), key, false, fold);
          ScanConcat(unicode, Items(r, b), key, false, fold);
          if Unambiguous(r, key, fold) {
            OneAnswer(r, a, b, key, fold);
          }
        }
      }
    } else {
      var x, y :| x in r && y in r && fold(r[x].name) == key && fold(r[y].name) == key && x != y;
      var a := StartingWith(r, x);
      var b := StartingWith(r, y);
      ScanConcat(unicode, Items(r, a), key, false, fold);
      ScanConcat(unicode, Items(r, b), key, false, fold);
      assert Items(r, a)[0] == r[x] && Items(r, b)[0] == r[y];
      assert !SameAnswer(unicode, r, a, b, key, fold);
    }
  }

  // ------------------------------------------------------------------
  // The catalog
  // ------------------------------------------------------------------

  class EmojiCatalog {
    const unicodeData: seq<Item>
    const fold: string -> string
    const normalize: string -> string
    var registry: Registry
    var generation: nat
    var dirty: bool
    var combined: seq<Item>
    var exactAny: map<string, int>
    var exactUnicode: map<string, int>

    /** The index always fits the list it was built with; the list is current unless marked dirty. */
    ghost predicate Valid()
      reads this
    {
      && WellKeyed(registry)
      && Indexes(exactAny, combined, |combined|, false, fold)
      && Indexes(exactUnicode, combined, |combined|, true, fold)
      && (!dirty ==> Combined(combined, unicodeData, registry))
    }

    constructor (unicodeData: seq<Item>, fold: string -> string, normalize: string -> string)
      ensures Valid() && registry == map[] && dirty
      ensures this.unicodeData == unicodeData && this.fold == fold && this.normalize == normalize
    {
      this.unicodeData, this.fold, this.normalize := unicodeData, fold, normalize;
      registry, generation, dirty := map[], 0, true;
      combined, exactAny, exactUnicode := [], map[], map[];
    }

    method RegisterCustomEmoji(item: Item)
      requires Valid()
      modifies this`registry, this`dirty, this`generation
      ensures Valid() && registry == Changed(old(registry), Register(item))
      ensures generation == old(generation) + if Acceptable(item) then 1 else 0
    {
      if !item.IsCustom() || item.name == "" {
        return;
      }
      registry := registry[item.customId := item];
      dirty := true;
      generation := generation + 1;
    }

    method RegisterCustomEmojis(items: seq<Item>)
      requires Valid()
      modifies this`registry, this`dirty, this`generation
      ensures Valid() && registry == Changed(old(registry), RegisterMany(items))
      ensures generation == old(generation) + 1
    {
      var i := 0;
      while i < |items|
        invariant 0 <= i <= |items|
        invariant WithItems(registry, items[i..]) == WithItems(old(registry), items)
        invariant generation == old(generation)
      {
        assert items[i..][0] == items[i] && items[i..][1..] == items[i + 1..];
        if items[i].IsCustom() && items[i].name != "" {
          registry := registry[items[i].customId := items[i]];
        }
        i := i + 1;
      }
      WithItemsWellKeyed(old(registry), items);
      dirty := true;
      generation := generation + 1;
    }

    method UnregisterCustomEmoji(customId: string)
      requires Valid()
      modifies this`registry, this`dirty, this`generation
      ensures Valid() && registry == Changed(old(registry), Unregister(customId))
      ensures generation == old(generation) + 1
    {
      registry := registry - {customId};
      dirty := true;
      generation := generation + 1;
    }

    method UnregisterCustomEmojisByGuild(guildId: string)
      requires Valid()
      modifies this`registry, this`dirty, this`generation
      ensures Valid() && registry == Changed(old(registry), UnregisterGuild(guildId))
      ensures generation == old(generation) + if guildId == "" then 0 else 1
    {
      if guildId == "" {
        return;
      }
      var toRemove := KeysOfGuild(guildId);
      registry := registry - toRemove;
      assert registry == WithoutGuild(old(registry), guildId);
      dirty := true;
      generation := generation + 1;
    }

    /** The pass over the registry that collects what to remove. */
    method KeysOfGuild(guildId: string) returns (toRemove: set<string>)
      ensures forall id :: id in toRemove <==> id in registry && registry[id].guildId == guildId
    {
      toRemove := {};
      var left := registry.Keys;
      while left != {}
        invariant left <= registry.Keys
        invariant forall id :: id in toRemove <==> id in registry && id !in left && registry[id].guildId == guildId
        decreases |left|
      {
        var id :| id in left;
        if registry[id].guildId == guildId {
          toRemove := toRemove + {id};
        }
        left := left - {id};
      }
    }

    method ClearCustomEmojis()
      requires Valid()
      modifies this`registry, this`dirty, this`generation
      ensures Valid() && registry == Changed(old(registry), Clear)
      ensures generation == old(generation) + 1
    {
      registry := map[];
      dirty := true;
      generation := generation + 1;
    }

    /** The registered ids in the order the hash yields them, which is unspecified. */
    method HashOrder() returns (ids: seq<string>)
      ensures Lists(ids, registry)
    {
      ids := [];
      var left := registry;
      while left != map[]
        invariant left.Keys <= registry.Keys && NoDup(ids)
        invariant forall id :: id in ids <==> id in registry && id !in left
        decreases |left|
      {
        SomeKey(left);
        var id :| id in left;
        NoDupAppend(ids, id);
        ids := ids + [id];
        left := left - {id};
      }
    }

    /** Rebuilds list and index if the registry changed. A failed allocation keeps the old ones. */
    method CombinedEmojiData(outOfMemory: bool)
      requires Valid()
      modifies this`combined, this`exactAny, this`exactUnicode, this`dirty
      ensures Valid()
      ensures if !outOfMemory then !dirty else dirty == old(dirty) && combined == old(combined)
    {
      if !dirty || outOfMemory {
        return;
      }
      var ids := HashOrder();
      var rebuilt := unicodeData + Items(registry, ids);
      var any: map<string, int> := map[];
      var unicode: map<string, int> := map[];
      var i := 0;
      while i < |rebuilt|
        invariant 0 <= i <= |rebuilt|
        invariant Indexes(any, rebuilt, i, false, fold) && Indexes(unicode, rebuilt, i, true, fold)
      {
        InsertedIndexes(any, rebuilt, i, false, fold);
        InsertedIndexes(unicode, rebuilt, i, true, fold);
        var foldedName := fold(rebuilt[i].name);
        if foldedName !in any {
          any := any[foldedName := i];
        }
        if !rebuilt[i].IsCustom() && foldedName !in unicode {
          unicode := unicode[foldedName := i];
        }
        i := i + 1;
      }
      combined, exactAny, exactUnicode, dirty := rebuilt, any, unicode, false;
    }

    method UnicodeForName(name: string, outOfMemory: bool) returns (value: string)
      requires Valid()
      modifies this`combined, this`exactAny, this`exactUnicode, this`dirty
      ensures Valid()
      ensures !outOfMemory ==> Combined(combined, unicodeData, registry)
      ensures var hit := Scan(combined, normalize(name), true, fold);
              value == if hit.Some? then hit.value.unicodeEmoji else ""
      ensures !outOfMemory ==>
                var hit := Scan(unicodeData, normalize(name), true, fold);
                value == if hit.Some? then hit.value.unicodeEmoji else ""
    {
      CombinedEmojiData(outOfMemory);
      var needle := normalize(name);
      IndexIsScan(exactUnicode, combined, needle, true, fold);
      if !dirty {
        UnicodeLookupIgnoresRegistry(combined, unicodeData, registry, needle, fold);
      }
      if needle !in exactUnicode {
        return "";
      }
      value := combined[exactUnicode[needle]].unicodeEmoji;
    }

    method ValueForName(name: string, outOfMemory: bool) returns (value: string)
      requires Valid()
      modifies this`combined, this`exactAny, this`exactUnicode, this`dirty
      ensures Valid()
      ensures !outOfMemory ==> Combined(combined, unicodeData, registry)
      ensures var hit := Scan(combined, normalize(name), false, fold);
              value == if hit.Some? then hit.value.SelectionValue() else ""
    {
      CombinedEmojiData(outOfMemory);
      var needle := normalize(name);
      IndexIsScan(exactAny, combined, needle, false, fold);
      if needle !in exactAny {
        return "";
      }
      value := combined[exactAny[needle]].SelectionValue();
    }
  }
}
