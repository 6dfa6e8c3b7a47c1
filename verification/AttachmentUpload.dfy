/**
  Sending a message with attachments (src/Discord/Client.cpp): one request for upload
  slots, then one PUT per attachment, the PUTs finishing in any order and racing with a
  cancel.  `Next` is the protocol as a step system over one upload; `Client` is the code.
  Every callback runs to its end before the next one starts.
*/
module AttachmentUpload {
  /** One slot of the server's answer. */
  datatype Slot = Slot(id: int, filename: string)

  datatype Reply = RequestFailed(error: string) | Slots(slots: seq<Slot>)

  /** What the outside sees: callbacks, deletions of uploaded files, removal from the active uploads. */
  datatype Effect = Failed(error: string) | Uploaded(filenames: seq<string>) | Deleted(filename: string) | Settled

  datatype Event =
    | SlotReply(reply: Reply, refused: set<nat>)       // refused: PUTs the HTTP client turns down on the spot
    | PutDone(index: nat, success: bool, error: string)
    | Cancel

  const UNEXPECTED := "Unexpected upload slot response"
  const REFUSED := "refused URL"

  /** `awaitingSlots` and `inFlight` are the HTTP calls not yet answered. */
  datatype Upload = Upload(
    count: nat, awaitingSlots: bool, inFlight: set<nat>, filenames: seq<string>, uploaded: seq<bool>,
    remaining: int, failed: bool, cancelled: bool, active: bool, effects: seq<Effect>)

  ghost function Start(n: nat): Upload {
    Upload(n, true, {}, seq(n, _ => ""), seq(n, _ => false), 0, false, false, true, [])
  }

  ghost function Emit(u: Upload, e: Effect): Upload {
    u.(effects := u.effects + [e])
  }

  ghost function Settle(u: Upload): Upload {
    Emit(u.(active := false), Settled)
  }

  predicate WellFormedSlots(slots: seq<Slot>, count: nat) {
    |slots| == count && forall s :: s in slots ==> 0 <= s.id < count
  }

  /** The file names after writing the first `k` slots; later slots for the same index win. */
  ghost function Assigned(filenames: seq<string>, slots: seq<Slot>, k: nat): (r: seq<string>)
    requires k <= |slots| && forall s :: s in slots[..k] ==> 0 <= s.id < |filenames|
    ensures |r| == |filenames|
  {
    if k == 0 then filenames
    else
      assert slots[k - 1] in slots[..k];
      Assigned(filenames, slots, k - 1)[slots[k - 1].id := slots[k - 1].filename]
  }

  /** How many slots come before the first one with an index out of range. */
  ghost function GoodPrefix(slots: seq<Slot>, count: nat): (k: nat)
    ensures k <= |slots|
    ensures forall s :: s in slots[..k] ==> 0 <= s.id < count
    ensures k < |slots| ==> !(0 <= slots[k].id < count)
  {
    if slots == [] || !(0 <= slots[0].id < count) then 0
    else
      var k := 1 + GoodPrefix(slots[1..], count);
      assert slots[..k] == [slots[0]] + slots[1..][..k - 1];
      k
  }

  /** The deletion of each uploaded file that has a name, among the first `k`. */
  ghost function Leftovers(filenames: seq<string>, uploaded: seq<bool>, k: nat): seq<Effect>
    requires |filenames| == |uploaded| && k <= |uploaded|
  {
    if k == 0 then []
    else Leftovers(filenames, uploaded, k - 1)
         + if uploaded[k - 1] && filenames[k - 1] != "" then [Deleted(filenames[k - 1])] else []
  }

  /** Every attachment index. */
  function Indices(n: nat): (r: set<nat>)
    ensures forall i: nat :: i in r <==> i < n
    ensures |r| == n
  {
    if n == 0 then {}
    else
      var below := Indices(n - 1);
      assert n - 1 !in below;
      below + {n - 1}
  }

  /** Deletes what has been uploaded so far. */
  ghost function CleanedUp(u: Upload): Upload
    requires Shaped(u)
  {
    u.(effects := u.effects + Leftovers(u.filenames, u.uploaded, u.count))
  }

  ghost predicate Shaped(u: Upload) {
    |u.filenames| == u.count && |u.uploaded| == u.count
  }

  /** The completion counted and recorded; the first failure aborts the upload. */
  ghost function PutRecorded(u: Upload, index: nat, success: bool, error: string): (v: Upload)
    requires Shaped(u) && index < u.count
    ensures Shaped(v) && v.count == u.count
  {
    var counted := u.(remaining := u.remaining - 1, inFlight := u.inFlight - {index});
    if success then counted.(uploaded := counted.uploaded[index := true])
    else if !counted.failed && !counted.cancelled then
      Emit(counted, Failed(error)).(failed := true, cancelled := true)
    else counted
  }

  ghost function OnPutDone(u: Upload, index: nat, success: bool, error: string): (v: Upload)
    requires Shaped(u) && index < u.count
    ensures Shaped(v) && v.count == u.count
  {
    var recorded := PutRecorded(u, index, success, error);
    if recorded.remaining > 0 then recorded
    else if recorded.failed || recorded.cancelled then
      Settle(CleanedUp(recorded))
    else Emit(Settle(recorded), Uploaded(recorded.filenames))
  }

  /** The PUTs of indices `i..` are started in turn; a refused one is answered before the next starts. */
  ghost function Launch(u: Upload, refused: set<nat>, i: nat): (v: Upload)
    requires Shaped(u) && i <= u.count
    ensures Shaped(v) && v.count == u.count
    decreases u.count - i
  {
    if i == u.count then u
    else Launch(if i in refused then OnPutDone(u, i, false, REFUSED) else u, refused, i + 1)
  }

  ghost function OnSlotReply(u: Upload, reply: Reply, refused: set<nat>): (v: Upload)
    requires Shaped(u)
    ensures Shaped(v) && v.count == u.count
  {
    var answered := u.(awaitingSlots := false);
    if u.cancelled then Settle(answered)
    else match reply
      case RequestFailed(error) => Emit(Settle(answered), Failed(error))
      case Slots(slots) =>
        if |slots| != u.count then Emit(Settle(answered), Failed(UNEXPECTED))
        else
          var k := GoodPrefix(slots, u.count);
          var named := answered.(filenames := Assigned(u.filenames, slots, k));
          if k < |slots| then Emit(Settle(named), Failed(UNEXPECTED))
          else Launch(named.(remaining := u.count, inFlight := Indices(u.count)), refused, 0)
  }

  ghost function Next(u: Upload, e: Event): (v: Upload)
    requires Shaped(u) && Enabled(u, e)
    ensures Shaped(v) && v.count == u.count
  {
    match e
    case SlotReply(reply, refused) => OnSlotReply(u, reply, refused)
    case PutDone(index, success, error) => OnPutDone(u, index, success, error)
    case Cancel => if u.active then u.(cancelled := true) else u
  }

  /** Each HTTP call is answered at most once; a cancel may come at any time. */
  ghost predicate Enabled(u: Upload, e: Event) {
    match e
    case SlotReply(_, _) => u.awaitingSlots
    case PutDone(index, _, _) => index in u.inFlight && index < u.count
    case Cancel => true
  }

  ghost predicate ValidRun(n: nat, es: seq<Event>)
    decreases |es|, 0
  {
    es != [] ==> ValidRun(n, es[..|es| - 1]) && Enabled(Run(n, es[..|es| - 1]), es[|es| - 1])
  }

  ghost function Run(n: nat, es: seq<Event>): (u: Upload)
    requires ValidRun(n, es)
    ensures Shaped(u) && u.count == n
    decreases |es|, 1
  {
    if es == [] then Start(n) else Next(Run(n, es[..|es| - 1]), es[|es| - 1])
  }

  // ------------------------------------------------------------------
  // Independent reading of a run: why it was aborted, and which PUTs succeeded
  // ------------------------------------------------------------------

  datatype Cause = Clean | UserCancel | Failure(error: string)

  /** Some PUT from index `i` on is turned down on the spot. */
  ghost predicate AnyRefused(refused: set<nat>, i: nat, count: nat) {
    exists k :: k in refused && i <= k < count
  }

  lemma AnyRefusedStep(refused: set<nat>, i: nat, count: nat)
    requires i < count
    ensures AnyRefused(refused, i, count) <==> i in refused || AnyRefused(refused, i + 1, count)
  {
    if AnyRefused(refused, i, count) && i !in refused {
      var k :| k in refused && i <= k < count;
      assert i + 1 <= k;
    }
  }

  /** What an event says about an upload nobody has aborted yet. */
  ghost function Verdict(e: Event, count: nat): Cause {
    match e
    case Cancel => UserCancel
    case PutDone(_, success, error) => if success then Clean else Failure(error)
    case SlotReply(RequestFailed(error), _) => Failure(error)
    case SlotReply(Slots(slots), refused) =>
      if !WellFormedSlots(slots, count) then Failure(UNEXPECTED)
      else if AnyRefused(refused, 0, count) then Failure(REFUSED)
      else Clean
  }

  /** The first event that aborts the upload while it is active. */
  ghost function AbortCause(n: nat, es: seq<Event>): Cause
    requires ValidRun(n, es)
    decreases |es|
  {
    if es == [] then Clean
    else
      var before := es[..|es| - 1];
      var earlier := AbortCause(n, before);
      if earlier != Clean || !Run(n, before).active then earlier else Verdict(es[|es| - 1], n)
  }

  /** The file name the server granted for attachment `i`: that of the last slot with this id, if there is one. */
  function GrantedName(slots: seq<Slot>, i: nat): string {
    if slots == [] then ""
    else
      var last := slots[|slots| - 1];
      if last.id == i then last.filename else GrantedName(slots[..|slots| - 1], i)
  }

  lemma {:induction false} LastSlotNames(slots: seq<Slot>, k: nat)
    requires k < |slots| && slots[k].id >= 0 && forall j :: k < j < |slots| ==> slots[j].id != slots[k].id
    ensures GrantedName(slots, slots[k].id) == slots[k].filename
    decreases |slots|
  {
    if k < |slots| - 1 {
      LastSlotNames(slots[..|slots| - 1], k);
    }
  }

  lemma {:induction false} NoSlotNoName(slots: seq<Slot>, i: nat)
    requires forall s :: s in slots ==> s.id != i
    ensures GrantedName(slots, i) == ""
    decreases |slots|
  {
    if slots != [] {
      assert slots[|slots| - 1] in slots;
      NoSlotNoName(slots[..|slots| - 1], i);
    }
  }

  /** The slots the server answered with. */
  ghost function RepliedSlots(es: seq<Event>): seq<Slot>
    decreases |es|
  {
    if es == [] then []
    else
      var e := es[|es| - 1];
      if e.SlotReply? && e.reply.Slots? then e.reply.slots else RepliedSlots(es[..|es| - 1])
  }

  /** The name of each attachment, from what the server answered. */
  ghost function Names(n: nat, es: seq<Event>): seq<string> {
    seq(n, i requires 0 <= i => GrantedName(RepliedSlots(es), i))
  }

  ghost predicate PutSucceeded(es: seq<Event>, i: nat) {
    exists k :: 0 <= k < |es| && es[k].PutDone? && es[k].index == i && es[k].success
  }

  /** The slots were granted, so the PUTs were started. */
  ghost predicate Launched(n: nat, es: seq<Event>)
    requires ValidRun(n, es)
    decreases |es|
  {
    && es != []
    && var before, e := es[..|es| - 1], es[|es| - 1];
       || Launched(n, before)
       || (e.SlotReply? && e.reply.Slots? && WellFormedSlots(e.reply.slots, n) && !Run(n, before).cancelled)
  }

  /** Everything a settled upload has done, from the cause alone. */
  ghost function ExpectedEffects(u: Upload, cause: Cause, launched: bool): seq<Effect>
    requires Shaped(u)
  {
    var leftovers := if launched then Leftovers(u.filenames, u.uploaded, u.count) else [];
    match cause
    case Clean => [Settled, Uploaded(u.filenames)]
    case UserCancel => leftovers + [Settled]
    case Failure(error) => if launched then [Failed(error)] + leftovers + [Settled] else [Settled, Failed(error)]
  }

  ghost predicate Explained(u: Upload, cause: Cause, launched: bool) {
    && Shaped(u)
    && (u.active <==> u.awaitingSlots || u.inFlight != {})
    && (u.active ==> (u.cancelled <==> cause != Clean) && (u.failed <==> cause.Failure?))
    && (u.active ==> u.effects == if cause.Failure? then [Failed(cause.error)] else [])
    && (!u.active ==> u.effects == ExpectedEffects(u, cause, launched))
    && (!u.active && cause == Clean ==> launched)
    && (u.awaitingSlots ==> !launched && !u.failed)
    && (launched ==> u.remaining == |u.inFlight|)
    && (!launched ==> u.inFlight == {})
    && (forall i :: i in u.inFlight ==> i < u.count && !u.uploaded[i])
    && (launched && cause == Clean ==> forall i :: 0 <= i < u.count && i !in u.inFlight ==> u.uploaded[i])
    && (!launched ==> forall i :: 0 <= i < u.count ==> !u.uploaded[i])
  }

  ghost function Combine(earlier: Cause, verdict: Cause): Cause {
    if earlier != Clean then earlier else verdict
  }

  lemma PutDoneExplained(u: Upload, cause: Cause, index: nat, success: bool, error: string)
    requires Explained(u, cause, true) && index in u.inFlight
    ensures var v := OnPutDone(u, index, success, error);
            && Explained(v, Combine(cause, if success then Clean else Failure(error)), true)
            && v.inFlight == u.inFlight - {index} && v.filenames == u.filenames && !v.awaitingSlots
            && v.uploaded == if success then u.uploaded[index := true] else u.uploaded
  {
    var v := OnPutDone(u, index, success, error);
    assert |u.inFlight - {index}| == |u.inFlight| - 1;
    assert v.inFlight == {} <==> |v.inFlight| == 0;
  }

  lemma {:induction false} LaunchExplained(u: Upload, cause: Cause, refused: set<nat>, i: nat)
    requires Explained(u, cause, true) && i <= u.count && !u.awaitingSlots
    requires forall k :: i <= k < u.count ==> k in u.inFlight
    requires i == u.count ==> u.inFlight != {} || !u.active
    ensures var v := Launch(u, refused, i);
            && Explained(v, Combine(cause, if AnyRefused(refused, i, u.count) then Failure(REFUSED) else Clean), true)
            && v.filenames == u.filenames && v.uploaded == u.uploaded && !v.awaitingSlots
    decreases u.count - i
  {
    if i < u.count {
      AnyRefusedStep(refused, i, u.count);
      if i in refused {
        PutDoneExplained(u, cause, i, false, REFUSED);
        LaunchExplained(OnPutDone(u, i, false, REFUSED), Combine(cause, Failure(REFUSED)), refused, i + 1);
      } else {
        LaunchExplained(u, cause, refused, i + 1);
      }
    }
  }

  lemma GoodPrefixAt(slots: seq<Slot>, count: nat, k: nat)
    requires k < |slots| && k <= GoodPrefix(slots, count)
    ensures if 0 <= slots[k].id < count then k < GoodPrefix(slots, count) else k == GoodPrefix(slots, count)
  {
    var p := GoodPrefix(slots, count);
    if k < p {
      assert slots[k] in slots[..p];
    }
  }

  lemma {:induction false} GoodPrefixWhole(slots: seq<Slot>, count: nat)
    ensures GoodPrefix(slots, count) == |slots| <==> forall s :: s in slots ==> 0 <= s.id < count
  {
    if slots != [] && 0 <= slots[0].id < count {
      GoodPrefixWhole(slots[1..], count);
      assert slots == [slots[0]] + slots[1..];
    } else if slots != [] {
      assert slots[0] in slots;
    }
  }

  lemma SlotReplyExplained(u: Upload, cause: Cause, reply: Reply, refused: set<nat>)
    requires u.count > 0 && Explained(u, cause, false) && u.awaitingSlots
    ensures var v := OnSlotReply(u, reply, refused);
            && Explained(v, Combine(cause, Verdict(SlotReply(reply, refused), u.count)),
                         reply.Slots? && WellFormedSlots(reply.slots, u.count) && !u.cancelled)
            && v.uploaded == u.uploaded && !v.awaitingSlots
            && (reply.Slots? && WellFormedSlots(reply.slots, u.count) && !u.cancelled ==>
                  v.filenames == Assigned(u.filenames, reply.slots, |reply.slots|))
  {
    if !u.cancelled && reply.Slots? {
      GoodPrefixWhole(reply.slots, u.count);
      if WellFormedSlots(reply.slots, u.count) {
        GrantedExplained(u, Assigned(u.filenames, reply.slots, |reply.slots|), refused);
      }
    }
  }

  lemma GrantedExplained(u: Upload, filenames: seq<string>, refused: set<nat>)
    requires u.count > 0 && Explained(u, Clean, false) && u.awaitingSlots && |filenames| == u.count
    ensures var v := Launch(u.(awaitingSlots := false, filenames := filenames, remaining := u.count,
                               inFlight := Indices(u.count)), refused, 0);
            && Explained(v, if AnyRefused(refused, 0, u.count) then Failure(REFUSED) else Clean, true)
            && v.uploaded == u.uploaded && v.filenames == filenames && !v.awaitingSlots
  {
    var granted := u.(awaitingSlots := false, filenames := filenames, remaining := u.count,
                      inFlight := Indices(u.count));
    assert 0 in granted.inFlight;
    LaunchExplained(granted, Clean, refused, 0);
  }

  /** Every valid run is explained by its first abort and by the PUTs that succeeded in it. */
  lemma {:induction false} RunExplained(n: nat, es: seq<Event>)
    requires n > 0 && ValidRun(n, es)
    ensures Explained(Run(n, es), AbortCause(n, es), Launched(n, es))
    ensures forall i :: 0 <= i < n ==> (Run(n, es).uploaded[i] <==> PutSucceeded(es, i))
    decreases |es|
  {
    if es != [] {
      var before, e := es[..|es| - 1], es[|es| - 1];
      RunExplained(n, before);
      var u, cause := Run(n, before), AbortCause(n, before);
      match e {
        case SlotReply(reply, refused) => SlotReplyExplained(u, cause, reply, refused);
        case PutDone(index, success, error) => PutDoneExplained(u, cause, index, success, error);
        case Cancel =>
      }
      forall i | 0 <= i < n ensures Run(n, es).uploaded[i] <==> PutSucceeded(es, i) {
        PutSucceededStep(es, i);
      }
    }
  }

  /** Until the slots are granted no attachment has a name. */
  lemma {:induction false} NamelessBefore(n: nat, es: seq<Event>)
    requires n > 0 && ValidRun(n, es) && Run(n, es).awaitingSlots
    ensures Run(n, es).filenames == seq(n, _ => "")
    decreases |es|
  {
    if es != [] {
      var before, e := es[..|es| - 1], es[|es| - 1];
      RunExplained(n, before);
      match e {
        case SlotReply(reply, refused) =>
          SlotReplyExplained(Run(n, before), AbortCause(n, before), reply, refused);
        case PutDone(index, success, error) =>
          PutDoneExplained(Run(n, before), AbortCause(n, before), index, success, error);
        case Cancel => NamelessBefore(n, before);
      }
    }
  }

  /** Writing the slots in order leaves each attachment the name granted for it. */
  lemma {:induction false} AssignedNames(n: nat, filenames: seq<string>, slots: seq<Slot>, k: nat, i: nat)
    requires k <= |slots| && |filenames| == n && forall s :: s in slots[..k] ==> 0 <= s.id < n
    requires i < n && filenames[i] == ""
    ensures Assigned(filenames, slots, k)[i] == GrantedName(slots[..k], i)
  {
    if k > 0 {
      assert slots[..k][..k - 1] == slots[..k - 1];
      AssignedNames(n, filenames, slots, k - 1, i);
    }
  }

  /** Once launched, each attachment is known by the name granted for it. */
  lemma {:induction false} LaunchedNames(n: nat, es: seq<Event>)
    requires n > 0 && ValidRun(n, es) && Launched(n, es)
    ensures Run(n, es).filenames == Names(n, es)
    decreases |es|
  {
    var before, e := es[..|es| - 1], es[|es| - 1];
    var u := Run(n, before);
    RunExplained(n, before);
    match e {
      case SlotReply(reply, refused) =>
        SlotReplyExplained(u, AbortCause(n, before), reply, refused);
        NamelessBefore(n, before);
        NamesAssigned(n, u.filenames, reply.slots);
      case PutDone(index, success, error) =>
        PutDoneExplained(u, AbortCause(n, before), index, success, error);
        LaunchedNames(n, before);
      case Cancel => LaunchedNames(n, before);
    }
  }

  lemma NamesAssigned(n: nat, filenames: seq<string>, slots: seq<Slot>)
    requires filenames == seq(n, _ => "") && WellFormedSlots(slots, n)
    ensures Assigned(filenames, slots, |slots|) == seq(n, i requires 0 <= i => GrantedName(slots, i))
  {
    assert slots[..|slots|] == slots;
    forall i | 0 <= i < n ensures Assigned(filenames, slots, |slots|)[i] == GrantedName(slots, i) {
      AssignedNames(n, filenames, slots, |slots|, i);
    }
  }

  lemma PutSucceededStep(es: seq<Event>, i: nat)
    requires es != []
    ensures PutSucceeded(es, i) <==>
            PutSucceeded(es[..|es| - 1], i) || (var e := es[|es| - 1]; e.PutDone? && e.index == i && e.success)
  {
    var before := es[..|es| - 1];
    if k :| 0 <= k < |before| && before[k].PutDone? && before[k].index == i && before[k].success {
      assert es[k] == before[k];
    }
    if k :| 0 <= k < |es| && es[k].PutDone? && es[k].index == i && es[k].success {
      assert k < |before| ==> before[k] == es[k];
    }
  }

  // ------------------------------------------------------------------
  // What the outside sees over a whole run
  // ------------------------------------------------------------------

  datatype Kind = OnFailed | OnUploaded | Deletion | Settlement

  ghost function KindOf(e: Effect): Kind {
    match e
    case Failed(_) => OnFailed
    case Uploaded(_) => OnUploaded
    case Deleted(_) => Deletion
    case Settled => Settlement
  }

  ghost function Only(effects: seq<Effect>, kind: Kind): seq<Effect> {
    if effects == [] then []
    else (if KindOf(effects[0]) == kind then [effects[0]] else []) + Only(effects[1..], kind)
  }

  lemma {:induction false} OnlyConcat(a: seq<Effect>, b: seq<Effect>, kind: Kind)
    ensures Only(a + b, kind) == Only(a, kind) + Only(b, kind)
  {
    if a == [] {
      assert a + b == b;
    } else {
      OnlyConcat(a[1..], b, kind);
      var head: seq<Effect> := if KindOf(a[0]) == kind then [a[0]] else [];
      assert (a + b)[1..] == a[1..] + b;
      assert head + (Only(a[1..], kind) + Only(b, kind)) == head + Only(a[1..], kind) + Only(b, kind);
    }
  }

  /** The deletions a cleanup must issue: in index order, every file whose PUT succeeded and that has a name. */
  ghost function SucceededFiles(es: seq<Event>, filenames: seq<string>, k: nat): seq<Effect>
    requires k <= |filenames|
  {
    if k == 0 then []
    else SucceededFiles(es, filenames, k - 1)
         + if PutSucceeded(es, k - 1) && filenames[k - 1] != "" then [Deleted(filenames[k - 1])] else []
  }

  lemma {:induction false} LeftoversAreSucceeded(es: seq<Event>, filenames: seq<string>, uploaded: seq<bool>, k: nat)
    requires |filenames| == |uploaded| && k <= |uploaded|
    requires forall i :: 0 <= i < |uploaded| ==> (uploaded[i] <==> PutSucceeded(es, i))
    ensures Leftovers(filenames, uploaded, k) == SucceededFiles(es, filenames, k)
  {
    if k > 0 {
      LeftoversAreSucceeded(es, filenames, uploaded, k - 1);
    }
  }

  lemma {:induction false} OnlyOfLeftovers(filenames: seq<string>, uploaded: seq<bool>, k: nat, kind: Kind)
    requires |filenames| == |uploaded| && k <= |uploaded|
    ensures Only(Leftovers(filenames, uploaded, k), kind) ==
            if kind == Deletion then Leftovers(filenames, uploaded, k) else []
  {
    if k > 0 {
      OnlyOfLeftovers(filenames, uploaded, k - 1, kind);
      if uploaded[k - 1] && filenames[k - 1] != "" {
        OnlyConcat(Leftovers(filenames, uploaded, k - 1), [Deleted(filenames[k - 1])], kind);
        OnlyOfOne(Deleted(filenames[k - 1]), kind);
      } else {
        assert Leftovers(filenames, uploaded, k) == Leftovers(filenames, uploaded, k - 1);
      }
    }
  }

  /** A cleanup: what came before it, the deletions, then the settlement. */
  lemma OnlyOfCleanup(before: seq<Effect>, filenames: seq<string>, uploaded: seq<bool>, kind: Kind)
    requires |filenames| == |uploaded|
    requires forall e :: e in before ==> e.Failed?
    requires |before| <= 1
    ensures Only(before + Leftovers(filenames, uploaded, |uploaded|) + [Settled], kind) ==
            match kind
            case OnFailed => before
            case Deletion => Leftovers(filenames, uploaded, |uploaded|)
            case Settlement => [Settled]
            case OnUploaded => []
  {
    var leftovers := Leftovers(filenames, uploaded, |uploaded|);
    OnlyOfLeftovers(filenames, uploaded, |uploaded|, kind);
    OnlyConcat(before + leftovers, [Settled], kind);
    OnlyConcat(before, leftovers, kind);
    OnlyOfOne(Settled, kind);
    if before != [] {
      OnlyOfOne(before[0], kind);
      assert before == [before[0]];
    }
  }

  lemma OnlyOfOne(e: Effect, kind: Kind)
    ensures Only([e], kind) == if KindOf(e) == kind then [e] else []
  {
    assert [e][1..] == [];
  }

  lemma OnlyOfTwo(a: Effect, b: Effect, kind: Kind)
    requires KindOf(a) != KindOf(b)
    ensures Only([a, b], kind) == if KindOf(a) == kind then [a] else if KindOf(b) == kind then [b] else []
  {
    OnlyConcat([a], [b], kind);
    OnlyOfOne(a, kind);
    OnlyOfOne(b, kind);
    assert [a] + [b] == [a, b];
  }

  lemma OnlyExpected(u: Upload, cause: Cause, launched: bool, kind: Kind)
    requires Shaped(u)
    ensures Only(ExpectedEffects(u, cause, launched), kind) ==
            match kind
            case Settlement => [Settled]
            case OnUploaded => if cause == Clean then [Uploaded(u.filenames)] else []
            case OnFailed => if cause.Failure? then [Failed(cause.error)] else []
            case Deletion => if launched && cause != Clean then Leftovers(u.filenames, u.uploaded, u.count) else []
  {
    var leftovers := Leftovers(u.filenames, u.uploaded, u.count);
    match cause {
      case Clean =>
        OnlyOfTwo(Settled, Uploaded(u.filenames), kind);
      case UserCancel =>
        OnlyOfOne(Settled, kind);
        OnlyOfCleanup([], u.filenames, u.uploaded, kind);
        assert [] + leftovers == leftovers && [] + [Settled] == [Settled];
      case Failure(error) =>
        if launched {
          OnlyOfCleanup([Failed(error)], u.filenames, u.uploaded, kind);
        } else {
          OnlyOfTwo(Settled, Failed(error), kind);
        }
    }
  }

  lemma OnlyFailure(cause: Cause, kind: Kind)
    ensures Only(if cause.Failure? then [Failed(cause.error)] else [], kind) ==
            if kind == OnFailed && cause.Failure? then [Failed(cause.error)] else []
  {
    if cause.Failure? {
      OnlyOfOne(Failed(cause.error), kind);
    }
  }

  /** An HTTP call of this upload is still unanswered. */
  ghost predicate Outstanding(u: Upload) {
    u.awaitingSlots || u.inFlight != {}
  }

  /** The effects of an explained upload, kind by kind. */
  lemma OutcomeOf(u: Upload, cause: Cause, launched: bool)
    requires Explained(u, cause, launched)
    ensures Only(u.effects, Settlement) == if Outstanding(u) then [] else [Settled]
    ensures Only(u.effects, OnUploaded) ==
            if !Outstanding(u) && cause == Clean then [Uploaded(u.filenames)] else []
    ensures Only(u.effects, OnFailed) == if cause.Failure? then [Failed(cause.error)] else []
    ensures Only(u.effects, Deletion) ==
            if !Outstanding(u) && launched && cause != Clean then Leftovers(u.filenames, u.uploaded, u.count) else []
  {
    if Outstanding(u) {
      OnlyFailure(cause, Settlement);
      OnlyFailure(cause, OnUploaded);
      OnlyFailure(cause, OnFailed);
      OnlyFailure(cause, Deletion);
    } else {
      OnlyExpected(u, cause, launched, Settlement);
      OnlyExpected(u, cause, launched, OnUploaded);
      OnlyExpected(u, cause, launched, OnFailed);
      OnlyExpected(u, cause, launched, Deletion);
    }
  }

  /**
    In every interleaving: one settlement, exactly when every call has been answered; the upload callback
    exactly when nothing aborted it, with the name granted for each attachment; the failure callback exactly
    when a failure aborted it; and the deletions exactly the granted names of the attachments whose PUT
    succeeded in an aborted upload.
  */
  lemma UploadOutcome(n: nat, es: seq<Event>)
    requires n > 0 && ValidRun(n, es)
    ensures var u, cause := Run(n, es), AbortCause(n, es);
            && Only(u.effects, Settlement) == (if Outstanding(u) then [] else [Settled])
            && Only(u.effects, OnUploaded) ==
               (if !Outstanding(u) && cause == Clean then [Uploaded(Names(n, es))] else [])
            && Only(u.effects, OnFailed) == (if cause.Failure? then [Failed(cause.error)] else [])
            && Only(u.effects, Deletion) ==
               (if !Outstanding(u) && cause != Clean && Launched(n, es) then SucceededFiles(es, Names(n, es), n)
                else [])
    ensures !Outstanding(Run(n, es)) && AbortCause(n, es) == Clean ==> forall i :: 0 <= i < n ==> PutSucceeded(es, i)
  {
    RunExplained(n, es);
    var u, cause, launched := Run(n, es), AbortCause(n, es), Launched(n, es);
    OutcomeOf(u, cause, launched);
    if launched {
      LaunchedNames(n, es);
      DeletedIsSucceeded(n, es);
    }
    if !Outstanding(u) && cause == Clean {
      AllSucceeded(n, es);
    }
  }

  /** The order of the effects: a failure is reported at once, but only after the settlement if no PUT was started. */
  lemma UploadOrder(n: nat, es: seq<Event>)
    requires n > 0 && ValidRun(n, es)
    ensures var u, cause := Run(n, es), AbortCause(n, es);
            var failure := if cause.Failure? then [Failed(cause.error)] else [];
            u.effects == if Outstanding(u) then failure
                         else if cause == Clean then [Settled, Uploaded(Names(n, es))]
                         else if Launched(n, es) then failure + SucceededFiles(es, Names(n, es), n) + [Settled]
                         else [Settled] + failure
  {
    RunExplained(n, es);
    if Launched(n, es) {
      LaunchedNames(n, es);
      DeletedIsSucceeded(n, es);
    }
  }

  lemma DeletedIsSucceeded(n: nat, es: seq<Event>)
    requires n > 0 && ValidRun(n, es) && Launched(n, es)
    ensures Leftovers(Run(n, es).filenames, Run(n, es).uploaded, n) == SucceededFiles(es, Names(n, es), n)
  {
    RunExplained(n, es);
    LaunchedNames(n, es);
    LeftoversAreSucceeded(es, Run(n, es).filenames, Run(n, es).uploaded, n);
  }

  lemma AllSucceeded(n: nat, es: seq<Event>)
    requires n > 0 && ValidRun(n, es) && !Outstanding(Run(n, es)) && AbortCause(n, es) == Clean
    ensures forall i :: 0 <= i < n ==> PutSucceeded(es, i)
  {
    RunExplained(n, es);
  }

  /** Once every call has been answered only a cancel can come, and it changes nothing. */
  lemma SettledIsFinal(n: nat, es: seq<Event>, e: Event)
    requires n > 0 && ValidRun(n, es) && !Outstanding(Run(n, es)) && Enabled(Run(n, es), e)
    ensures Next(Run(n, es), e) == Run(n, es)
  {
    RunExplained(n, es);
  }

  // ------------------------------------------------------------------
  // The code
  // ------------------------------------------------------------------

  /** How many times the upload has been removed from the active ones. */
  ghost function Settlements(effects: seq<Effect>): nat {
    if effects == [] then 0
    else Settlements(effects[..|effects| - 1]) + if effects[|effects| - 1] == Settled then 1 else 0
  }

  lemma SettlementsOneMore(effects: seq<Effect>, e: Effect)
    ensures Settlements(effects + [e]) == Settlements(effects) + if e == Settled then 1 else 0
  {
    assert (effects + [e])[..|effects|] == effects;
  }

  lemma {:induction false} DeletingSettlesNothing(before: seq<Effect>, filenames: seq<string>, uploaded: seq<bool>,
                                                  k: nat)
    requires |filenames| == |uploaded| && k <= |uploaded|
    ensures Settlements(before + Leftovers(filenames, uploaded, k)) == Settlements(before)
  {
    if k == 0 {
      assert before + [] == before;
    } else {
      var less, name := Leftovers(filenames, uploaded, k - 1), filenames[k - 1];
      DeletingSettlesNothing(before, filenames, uploaded, k - 1);
      if uploaded[k - 1] && name != "" {
        SettlementsOneMore(before + less, Deleted(name));
        assert before + (less + [Deleted(name)]) == before + less + [Deleted(name)];
      } else {
        assert less + [] == less;
      }
    }
  }

  class UploadState {
    const nonce: string
    const count: nat
    var awaitingSlots: bool
    var inFlight: set<nat>
    var uploadFilenames: seq<string>
    var uploaded: seq<bool>
    var remaining: int
    var failed: bool
    var cancelFlag: bool
    var effects: seq<Effect>

    constructor (nonce: string, count: nat)
      ensures this.nonce == nonce && this.count == count
      ensures uploadFilenames == seq(count, _ => "") && uploaded == seq(count, _ => false)
      ensures remaining == 0 && !failed && !cancelFlag && !awaitingSlots && inFlight == {} && effects == []
    {
      this.nonce, this.count := nonce, count;
      uploadFilenames, uploaded := seq(count, _ => ""), seq(count, _ => false);
      remaining, failed, cancelFlag := 0, false, false;
      awaitingSlots, inFlight, effects := false, {}, [];
    }
  }

  class Client {
    var activeUploads: map<string, UploadState>

    constructor ()
      ensures activeUploads == map[] && Keyed()
    {
      activeUploads := map[];
    }

    /** Every active upload is filed under its own nonce. */
    ghost predicate Keyed()
      reads this
    {
      forall k :: k in activeUploads ==> activeUploads[k].nonce == k
    }

    ghost predicate Active(state: UploadState)
      reads this
    {
      state.nonce in activeUploads && activeUploads[state.nonce] == state
    }

    ghost function View(state: UploadState): Upload
      reads this, state
    {
      Upload(state.count, state.awaitingSlots, state.inFlight, state.uploadFilenames, state.uploaded,
             state.remaining, state.failed, state.cancelFlag, Active(state), state.effects)
    }

    /** No other entry changes; the entry of this upload's nonce, whoever holds it, goes exactly when it settles. */
    twostate predicate OthersKept(state: UploadState)
      reads this, state
    {
      var before, now := old(Settlements(state.effects)), Settlements(state.effects);
      && before <= now
      && activeUploads == if before < now then old(activeUploads) - {state.nonce} else old(activeUploads)
    }

    /** sendMessage with attachments: register the upload, in place of any other of its nonce, and ask for its slots. */
    method SendAttachments(nonce: string, count: nat) returns (state: UploadState)
      modifies this
      ensures fresh(state) && state.nonce == nonce
      ensures View(state) == Start(count)
      ensures activeUploads == old(activeUploads)[nonce := state]
      ensures old(Keyed()) ==> Keyed()
    {
      state := new UploadState(nonce, count);
      activeUploads := activeUploads[nonce := state];
      state.awaitingSlots := true;
    }

    /** The answer to the slot request; `refused` are the indices whose URL the HTTP client turns down. */
    method OnSlotReply(state: UploadState, reply: Reply, refused: set<nat>)
      requires state.awaitingSlots && Shaped(View(state))
      modifies this, state
      ensures View(state) == Next(old(View(state)), SlotReply(reply, refused))
      ensures OthersKept(state)
    {
      state.awaitingSlots := false;
      if state.cancelFlag {
        SettleUpload(state);
        return;
      }
      if reply.RequestFailed? {
        SettleUpload(state);
        FailUpload(state, reply.error);
        return;
      }
      var uploadSlots := reply.slots;
      if |uploadSlots| != state.count {
        SettleUpload(state);
        FailUpload(state, UNEXPECTED);
        return;
      }
      var ok := RecordSlots(state, uploadSlots);
      if !ok {
        SettleUpload(state);
        FailUpload(state, UNEXPECTED);
        return;
      }
      state.remaining := state.count;
      state.inFlight := Indices(state.count);
      LaunchPuts(state, refused);
    }

    /** Writes the granted file names, stopping at the first slot for an index that does not exist. */
    method RecordSlots(state: UploadState, slots: seq<Slot>) returns (ok: bool)
      requires Shaped(View(state))
      modifies state`uploadFilenames
      ensures ok == (GoodPrefix(slots, state.count) == |slots|)
      ensures state.uploadFilenames == Assigned(old(state.uploadFilenames), slots, GoodPrefix(slots, state.count))
    {
      var k := 0;
      while k < |slots|
        invariant 0 <= k <= GoodPrefix(slots, state.count)
        invariant forall s :: s in slots[..k] ==> 0 <= s.id < state.count
        invariant state.uploadFilenames == Assigned(old(state.uploadFilenames), slots, k)
      {
        var slot := slots[k];
        GoodPrefixAt(slots, state.count, k);
        if slot.id < 0 || slot.id >= state.count {
          return false;
        }
        assert slots[..k + 1] == slots[..k] + [slot];
        state.uploadFilenames := state.uploadFilenames[slot.id := slot.filename];
        k := k + 1;
      }
      return true;
    }

    /** Starts the PUTs in index order; one refused by the HTTP client calls back before the next starts. */
    method LaunchPuts(state: UploadState, refused: set<nat>)
      requires Shaped(View(state))
      requires forall i: nat :: i in state.inFlight <==> i < state.count
      requires state.remaining == state.count
      modifies this, state
      ensures View(state) == Launch(old(View(state)), refused, 0)
      ensures OthersKept(state)
    {
      ghost var start := View(state);
      var index := 0;
      while index < state.count
        invariant 0 <= index <= state.count
        invariant Shaped(View(state))
        invariant Launch(View(state), refused, index) == Launch(start, refused, 0)
        invariant state.remaining >= state.count - index
        invariant OthersKept(state)
      {
        if index in refused {
          OnDone(state, index, false, REFUSED);
        }
        index := index + 1;
      }
    }

    /** Counts one PUT off and records its outcome. */
    method RecordPut(state: UploadState, index: nat, success: bool, error: string)
      requires Shaped(View(state)) && index < state.count
      modifies state
      ensures View(state) == PutRecorded(old(View(state)), index, success, error)
      ensures Settlements(state.effects) == old(Settlements(state.effects))
    {
      state.inFlight := state.inFlight - {index};
      state.remaining := state.remaining - 1;
      if success {
        state.uploaded := state.uploaded[index := true];
      } else if !state.failed && !state.cancelFlag {
        state.failed := true;
        FailUpload(state, error);
        state.cancelFlag := true;
      }
    }

    /** One PUT has finished. */
    method OnDone(state: UploadState, index: nat, success: bool, error: string)
      requires Shaped(View(state)) && index < state.count
      modifies this, state
      ensures View(state) == OnPutDone(old(View(state)), index, success, error)
      ensures OthersKept(state)
    {
      RecordPut(state, index, success, error);
      if state.remaining > 0 {
        return;
      }
      if state.failed || state.cancelFlag {
        CleanupUploadedSlots(state);
        SettleUpload(state);
        return;
      }
      FinishUpload(state);
    }

    /** Hands the uploaded file names to the message being sent, unless it has been cancelled. */
    method FinishUpload(state: UploadState)
      requires Shaped(View(state))
      modifies this, state`effects
      ensures View(state) ==
              if old(state.cancelFlag) then
                Settle(CleanedUp(old(View(state))))
              else Emit(Settle(old(View(state))), Uploaded(state.uploadFilenames))
      ensures activeUploads == old(activeUploads) - {state.nonce}
      ensures Settlements(state.effects) == old(Settlements(state.effects)) + 1
    {
      if state.cancelFlag {
        CleanupUploadedSlots(state);
        SettleUpload(state);
        return;
      }
      SettleUpload(state);
      SettlementsOneMore(state.effects, Uploaded(state.uploadFilenames));
      state.effects := state.effects + [Uploaded(state.uploadFilenames)];
    }

    method FailUpload(state: UploadState, error: string)
      modifies state`effects
      ensures View(state) == Emit(old(View(state)), Failed(error))
      ensures Settlements(state.effects) == old(Settlements(state.effects))
    {
      SettlementsOneMore(state.effects, Failed(error));
      state.effects := state.effects + [Failed(error)];
    }

    /** Deletes every uploaded file that has a name. */
    method CleanupUploadedSlots(state: UploadState)
      requires Shaped(View(state))
      modifies state`effects
      ensures View(state) == CleanedUp(old(View(state)))
      ensures Settlements(state.effects) == old(Settlements(state.effects))
    {
      var i := 0;
      while i < |state.uploaded|
        invariant 0 <= i <= |state.uploaded|
        invariant state.effects == old(state.effects) + Leftovers(state.uploadFilenames, state.uploaded, i)
      {
        if state.uploaded[i] && state.uploadFilenames[i] != "" {
          state.effects := state.effects + [Deleted(state.uploadFilenames[i])];
        }
        i := i + 1;
      }
      DeletingSettlesNothing(old(state.effects), state.uploadFilenames, state.uploaded, i);
    }

    method SettleUpload(state: UploadState)
      modifies this, state`effects
      ensures View(state) == Settle(old(View(state)))
      ensures activeUploads == old(activeUploads) - {state.nonce}
      ensures Settlements(state.effects) == old(Settlements(state.effects)) + 1
    {
      SettlementsOneMore(state.effects, Settled);
      activeUploads := activeUploads - {state.nonce};
      state.effects := state.effects + [Settled];
    }

    /** Marks an upload still in progress as cancelled; says whether there was one. */
    method CancelMessageSend(nonce: string) returns (found: bool)
      requires Keyed()
      modifies if nonce in activeUploads then {activeUploads[nonce]} else {}
      ensures found == (nonce in activeUploads)
      ensures found && old(Shaped(View(activeUploads[nonce]))) ==>
                View(activeUploads[nonce]) == Next(old(View(activeUploads[nonce])), Cancel)
    {
      if nonce !in activeUploads {
        return false;
      }
      activeUploads[nonce].cancelFlag := true;
      return true;
    }
  }
}
