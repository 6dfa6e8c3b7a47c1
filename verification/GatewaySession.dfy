/**
  Session, resume, heartbeat and reconnect handling of the gateway connection
  (src/Discord/Gateway.cpp). Three threads share the flags: the UI thread handles payloads, the
  network thread runs the connection, the heartbeat thread sends beats. A run is any
  interleaving of their handlers.

  What the gateway did so far is kept as a history. The results say what may appear in a
  history, in terms of the earlier part of the history alone and not of the flags.
*/
module GatewaySession {
  import opened Options
  import opened Sequences

  const DEFAULT_INTERVAL := 41250
  const MAX_MISSED := 2

  const SESSION_NO_LONGER_VALID := 4006
  const INVALID_SEQ := 4007
  const RATE_LIMITED := 4008
  const TOO_MANY_SESSIONS := 4015

  predicate IsFatal(code: int) {
    code == 4004 || (4010 <= code <= 4014)
  }

  // ------------------------------------------------------------------
  // Histories
  // ------------------------------------------------------------------

  datatype Note =
    | Ready(sessionId: Option<string>, url: Option<string>)
    | Restored
    | Dead
    | Ack
    | Identify
    | Resume(session: string, number: int)
    | Beat(at: int)
    | Zombie
    | Rejoin
    | Dial(to: Option<string>)
    | Penalty(least: nat)
    | Delay(ms: nat)

  datatype History = Nothing | Then(past: History, note: Note)

  /** The session a RESUME may name: that of the last READY with an id, unless the session died since. */
  function LiveSession(h: History): string {
    match h
    case Nothing => ""
    case Then(past, Ready(id, _)) => if id.Some? then id.value else LiveSession(past)
    case Then(past, Dead) => ""
    case Then(past, _) => LiveSession(past)
  }

  function ResumeUrl(h: History): string {
    match h
    case Nothing => ""
    case Then(past, Ready(_, url)) => if url.Some? then url.value else ResumeUrl(past)
    case Then(past, _) => ResumeUrl(past)
  }

  /** Since the last HELLO was answered, a live session was carried over a reconnect. */
  function RejoinPending(h: History): bool {
    match h
    case Nothing => false
    case Then(past, Identify) => false
    case Then(past, Resume(_, _)) => false
    case Then(past, Rejoin) => LiveSession(past) != ""
    case Then(past, _) => RejoinPending(past)
  }

  function BeatsSinceAck(h: History): nat {
    match h
    case Nothing => 0
    case Then(past, Ack) => 0
    case Then(past, Beat(_)) => BeatsSinceAck(past) + 1
    case Then(past, _) => BeatsSinceAck(past)
  }

  function DelaysSinceWelcome(h: History): nat {
    match h
    case Nothing => 0
    case Then(past, Ready(_, _)) => 0
    case Then(past, Restored) => 0
    case Then(past, Delay(_)) => DelaysSinceWelcome(past) + 1
    case Then(past, _) => DelaysSinceWelcome(past)
  }

  /** The delay the server asked for with the last close, until it is used. */
  function PendingPenalty(h: History): nat {
    match h
    case Nothing => 0
    case Then(past, Penalty(least)) => least
    case Then(past, Delay(_)) => 0
    case Then(past, _) => PendingPenalty(past)
  }

  function Power2(n: nat): (p: nat)
    ensures p >= 1
  {
    if n == 0 then 1 else 2 * Power2(n - 1)
  }

  function Clamped(attempt: int): nat {
    if attempt < 1 then 1 else if attempt > 16 then 16 else attempt
  }

  function Min(a: int, b: int): int {
    if a < b then a else b
  }

  function Max(a: int, b: int): int {
    if a > b then a else b
  }

  function Backoff(attempt: int): nat {
    Min(1000 * Power2(Clamped(attempt) - 1), 30000)
  }

  lemma {:induction false} Power2Grows(m: nat, n: nat)
    requires m <= n
    ensures Power2(m) <= Power2(n)
    decreases n
  {
    if m < n {
      Power2Grows(m, n - 1);
    }
  }

  /** The waits double from one second and stay at the cap from the sixth attempt on. */
  lemma BackoffDoublesToTheCap(attempt: int)
    ensures 1000 <= Backoff(attempt) <= 30000
    ensures Backoff(attempt) == 30000 <==> attempt >= 6
    ensures attempt <= 1 ==> Backoff(attempt) == 1000
    ensures 1 <= attempt < 5 ==> Backoff(attempt + 1) == 2 * Backoff(attempt)
    ensures Backoff(attempt) <= Backoff(attempt + 1)
  {
    var k := Clamped(attempt) - 1;
    Power2Grows(0, k);
    Power2Grows(k, Clamped(attempt + 1) - 1);
    assert Power2(0) == 1 && Power2(1) == 2 && Power2(2) == 4;
    assert Power2(3) == 8 && Power2(4) == 16 && Power2(5) == 32;
    if k >= 5 {
      Power2Grows(5, k);
    } else {
      Power2Grows(k, 4);
    }
  }

  /** What a note may be, given everything before it. */
  ghost predicate Allowed(past: History, note: Note) {
    match note
    case Resume(session, _) =>
      session == LiveSession(past) && session != "" && RejoinPending(past)
    case Identify =>
      LiveSession(past) == "" || !RejoinPending(past)
    case Zombie => BeatsSinceAck(past) == MAX_MISSED
    case Beat(_) => BeatsSinceAck(past) < MAX_MISSED
    case Dial(to) =>
      to == if LiveSession(past) != "" && RejoinPending(past) && ResumeUrl(past) != "" then Some(ResumeUrl(past))
            else None
    case Delay(ms) =>
      var base := Backoff(DelaysSinceWelcome(past) + 1);
      && base <= ms && PendingPenalty(past) <= ms
      && (ms <= base + 999 || ms == PendingPenalty(past))
    case _ => true
  }

  ghost predicate Proper(h: History) {
    h.Then? ==> Proper(h.past) && Allowed(h.past, h.note)
  }

  // ------------------------------------------------------------------
  // The handlers
  // ------------------------------------------------------------------

  datatype Phase = Off | Waiting | Connecting | Open | Closing

  /** The heartbeat thread: none to join, looping, or ended and still to be joined. */
  datatype Heart = NoThread | Looping | Ended

  /** The connection, as the network thread sees it. */
  datatype Net = Net(phase: Phase, running: bool, wantToClose: bool, shouldReconnect: bool)

  datatype Session = Session(canResume: bool, isResuming: bool, id: string, resumeUrl: string)

  datatype Pulse = Pulse(thread: Heart, ackReceived: bool, missedAcks: nat, interval: int)

  datatype Retry = Retry(attempts: nat, nextDelay: nat)

  datatype State = State(net: Net, session: Session, pulse: Pulse, retry: Retry, lastSeq: int, log: History)

  const INITIAL: State :=
    State(Net(Off, false, false, false), Session(false, false, "", ""), Pulse(NoThread, true, 0, 0),
          Retry(0, 0), 0, Nothing)

  datatype Body =
    | ReadyBody(sessionId: Option<string>, url: Option<string>)
    | ResumedBody
    | HelloBody(interval: int)
    | AckBody
    | ReconnectBody
    | InvalidSessionBody(resumable: Option<bool>)
    | OtherBody

  type Jitter = j: nat | j < 1000

  datatype Event =
    | Start
    | Stop
    | HardStop
    | Payload(number: Option<int>, body: Body)
    | IngestAck
    | DecompressionError
    | SendFailed
    | BeginDial
    | DialFailed(jitter: Jitter)
    | DialDone
    | LeaveLoop
    | CloseFrame(code: int, retryAfter: Option<nat>)
    | Lost
    | Tail(jitter: Jitter)
    | WaitCutShort
    | HeartbeatCheck
    | HeartbeatStops

  function Noted(s: State, n: Note): State {
    s.(log := Then(s.log, n))
  }

  function Reconnecting(s: State): State {
    s.(net := s.net.(shouldReconnect := true))
  }

  function At(s: State, phase: Phase): State {
    s.(net := s.net.(phase := phase))
  }

  function OnReady(s: State, id: Option<string>, url: Option<string>): State {
    var session := if id.Some? then id.value else s.session.id;
    Noted(s, Ready(id, url)).(
      session := Session(session != "", s.session.isResuming, session,
                         if url.Some? then url.value else s.session.resumeUrl),
      retry := s.retry.(attempts := 0))
  }

  function OnAck(s: State): State {
    Noted(s, Ack).(pulse := s.pulse.(ackReceived := true))
  }

  /** The answer to a HELLO. */
  function Answered(s: State): State {
    Noted(s, if s.session.isResuming && s.session.canResume then Resume(s.session.id, s.lastSeq) else Identify)
      .(session := s.session.(isResuming := false))
  }

  function HeartStarted(s: State, interval: int): State {
    s.(pulse := s.pulse.(interval := if interval <= 0 then DEFAULT_INTERVAL else interval,
                         thread := if s.pulse.thread == NoThread then Looping else s.pulse.thread))
  }

  function OnHello(s: State, interval: int): State {
    HeartStarted(Answered(OnAck(s)), interval)
  }

  function SessionDied(s: State): State {
    Noted(s, Dead).(session := s.session.(canResume := false, id := ""))
  }

  function OnBody(s: State, body: Body): State {
    match body
    case ReadyBody(id, url) => OnReady(s, id, url)
    case ResumedBody => Noted(s, Restored).(retry := s.retry.(attempts := 0))
    case HelloBody(interval) => OnHello(s, interval)
    case AckBody => OnAck(s)
    case ReconnectBody => Reconnecting(s)
    case InvalidSessionBody(resumable) =>
      Reconnecting(if resumable == Some(false) then SessionDied(s) else s)
    case OtherBody => s
  }

  function OnPayload(s: State, number: Option<int>, body: Body): State {
    if !s.net.running || s.net.wantToClose then s
    else OnBody(if number.Some? then s.(lastSeq := number.value) else s, body)
  }

  /** One more attempt: the wait before it, and the server's own delay used up. */
  function Backed(s: State, jitter: Jitter): State {
    var attempt := s.retry.attempts + 1;
    Noted(s, Delay(Max(Backoff(attempt) + jitter, s.retry.nextDelay))).(retry := Retry(attempt, 0))
  }

  function Unthreaded(s: State): State {
    s.(pulse := s.pulse.(thread := NoThread))
  }

  function Ending(s: State): State {
    Unthreaded(s.(net := s.net.(phase := Off, running := false)))
  }

  function Penalised(s: State, least: nat): State {
    Noted(s, Penalty(least)).(retry := s.retry.(nextDelay := least))
  }

  function OnCloseCode(s: State, code: int, retryAfter: Option<nat>): State {
    if code == RATE_LIMITED then
      if retryAfter.Some? && retryAfter.value > 0 then Penalised(s, Min(retryAfter.value, 120000)) else s
    else if code == TOO_MANY_SESSIONS then Penalised(s, 60000)
    else if code == SESSION_NO_LONGER_VALID || code == INVALID_SEQ then SessionDied(s)
    else s
  }

  function OnClose(s: State, code: int, retryAfter: Option<nat>): State {
    At(OnCloseCode(s, code, retryAfter), Closing).(
      net := s.net.(phase := Closing,
                    shouldReconnect := s.net.shouldReconnect || (!s.net.wantToClose && !IsFatal(code))))
  }

  /** The old connection is gone: carry the session over if there is one, and join the heartbeat. */
  function Rejoining(s: State): State {
    Unthreaded(Noted(s, Rejoin).(session := s.session.(isResuming := s.session.canResume)))
  }

  function OnTail(s: State, jitter: Jitter): State {
    if s.net.shouldReconnect && s.net.running then At(Backed(Rejoining(s), jitter), Waiting) else Ending(s)
  }

  function OnDial(s: State): State {
    var to := if s.session.isResuming && s.session.canResume && s.session.resumeUrl != "" then Some(s.session.resumeUrl)
              else None;
    Noted(s, Dial(to)).(net := s.net.(shouldReconnect := false, phase := Connecting))
  }

  function OnHeartbeat(s: State): State {
    var p := s.pulse;
    if p.ackReceived then
      Noted(s, Beat(s.lastSeq)).(pulse := p.(ackReceived := false, missedAcks := 0))
    else if p.missedAcks + 1 >= MAX_MISSED then
      Reconnecting(Noted(s, Zombie)).(pulse := p.(missedAcks := p.missedAcks + 1, thread := Ended))
    else Noted(s, Beat(s.lastSeq)).(pulse := p.(missedAcks := p.missedAcks + 1))
  }

  /** A handler that is not enabled changes nothing. */
  function Next(s: State, ev: Event): State {
    match ev
    case Start => Unthreaded(s.(net := s.net.(phase := Waiting, running := true, wantToClose := false)))
    case Stop => s.(net := s.net.(wantToClose := true))
    case HardStop => Ending(s.(net := s.net.(shouldReconnect := false)))
    case Payload(number, body) => OnPayload(s, number, body)
    case IngestAck => OnAck(s)
    case DecompressionError => Reconnecting(s)
    case SendFailed => if s.net.phase == Open || s.net.phase == Closing then Reconnecting(s) else s
    case BeginDial => if s.net.phase == Waiting && s.net.running then OnDial(s) else s
    case DialFailed(jitter) => if s.net.phase == Connecting then At(Backed(s, jitter), Waiting) else s
    case DialDone => if s.net.phase == Connecting then At(s, Open) else s
    case LeaveLoop =>
      if s.net.phase == Open && (s.net.shouldReconnect || !s.net.running) then At(s, Closing) else s
    case CloseFrame(code, retryAfter) => if s.net.phase == Open then OnClose(s, code, retryAfter) else s
    case Lost =>
      if s.net.phase == Open then
        s.(net := s.net.(phase := Closing, shouldReconnect := s.net.shouldReconnect || !s.net.wantToClose))
      else s
    case Tail(jitter) => if s.net.phase == Closing then OnTail(s, jitter) else s
    case WaitCutShort => if s.net.phase == Waiting && (!s.net.running || s.net.wantToClose) then Ending(s) else s
    case HeartbeatCheck => if s.pulse.thread == Looping && s.net.running then OnHeartbeat(s) else s
    case HeartbeatStops =>
      if s.pulse.thread == Looping && (!s.net.running || s.net.shouldReconnect) then
        s.(pulse := s.pulse.(thread := Ended))
      else s
  }

  function Run(s: State, events: seq<Event>): State
    decreases |events|
  {
    if events == [] then s else Run(Next(s, events[0]), events[1..])
  }

  // ------------------------------------------------------------------
  // The flags mean what the history says
  // ------------------------------------------------------------------

  ghost predicate SessionAgrees(session: Session, log: History) {
    && session.id == LiveSession(log)
    && (session.canResume <==> session.id != "")
    && session.isResuming == RejoinPending(log)
    && session.resumeUrl == ResumeUrl(log)
  }

  ghost predicate PulseAgrees(pulse: Pulse, log: History) {
    && (pulse.ackReceived <==> BeatsSinceAck(log) == 0)
    && (pulse.thread == Looping && !pulse.ackReceived ==>
          pulse.missedAcks == BeatsSinceAck(log) - 1 && pulse.missedAcks < MAX_MISSED)
  }

  ghost predicate RetryAgrees(retry: Retry, log: History) {
    retry.attempts == DelaysSinceWelcome(log) && retry.nextDelay == PendingPenalty(log)
  }

  ghost predicate Inv(s: State) {
    SessionAgrees(s.session, s.log) && PulseAgrees(s.pulse, s.log) && RetryAgrees(s.retry, s.log) && Proper(s.log)
  }

  lemma ReadyKeepsInv(s: State, id: Option<string>, url: Option<string>)
    requires Inv(s)
    ensures Inv(OnReady(s, id, url))
  {
  }

  lemma HelloKeepsInv(s: State, interval: int)
    requires Inv(s)
    ensures Inv(OnHello(s, interval))
  {
    AckKeepsInv(s);
    AnswerKeepsInv(OnAck(s));
  }

  lemma AckKeepsInv(s: State)
    requires Inv(s)
    ensures Inv(OnAck(s)) && OnAck(s).pulse.ackReceived
  {
  }

  lemma AnswerKeepsInv(s: State)
    requires Inv(s)
    ensures Inv(Answered(s)) && Answered(s).pulse == s.pulse
  {
  }

  lemma DeathKeepsInv(s: State)
    requires Inv(s)
    ensures Inv(SessionDied(s))
  {
  }

  lemma PenaltyKeepsInv(s: State, least: nat)
    requires Inv(s)
    ensures Inv(Penalised(s, least))
  {
  }

  lemma DelayKeepsInv(s: State, jitter: Jitter)
    requires Inv(s)
    ensures Inv(Backed(s, jitter))
  {
  }

  lemma RejoinKeepsInv(s: State)
    requires Inv(s)
    ensures Inv(Rejoining(s))
  {
  }

  lemma DialKeepsInv(s: State)
    requires Inv(s)
    ensures Inv(OnDial(s))
  {
  }

  lemma HeartbeatKeepsInv(s: State)
    requires Inv(s) && s.pulse.thread == Looping
    ensures Inv(OnHeartbeat(s))
  {
  }

  lemma BodyKeepsInv(s: State, body: Body)
    requires Inv(s)
    ensures Inv(OnBody(s, body))
  {
    match body
    case ReadyBody(id, url) => ReadyKeepsInv(s, id, url);
    case HelloBody(interval) => HelloKeepsInv(s, interval);
    case AckBody => AckKeepsInv(s);
    case InvalidSessionBody(_) => DeathKeepsInv(s);
    case _ =>
  }

  lemma CloseKeepsInv(s: State, code: int, retryAfter: Option<nat>)
    requires Inv(s)
    ensures Inv(OnClose(s, code, retryAfter))
  {
    DeathKeepsInv(s);
    PenaltyKeepsInv(s, 60000);
    if retryAfter.Some? {
      PenaltyKeepsInv(s, Min(retryAfter.value, 120000));
    }
  }

  lemma NextKeepsInv(s: State, ev: Event)
    requires Inv(s)
    ensures Inv(Next(s, ev))
  {
    match ev
    case Payload(number, body) => BodyKeepsInv(if number.Some? then s.(lastSeq := number.value) else s, body);
    case IngestAck => AckKeepsInv(s);
    case BeginDial => DialKeepsInv(s);
    case DialFailed(jitter) => DelayKeepsInv(s, jitter);
    case CloseFrame(code, retryAfter) => CloseKeepsInv(s, code, retryAfter);
    case Tail(jitter) =>
      RejoinKeepsInv(s);
      DelayKeepsInv(Rejoining(s), jitter);
    case HeartbeatCheck =>
      if s.pulse.thread == Looping {
        HeartbeatKeepsInv(s);
      }
    case _ =>
  }

  lemma {:induction false} RunKeepsInv(s: State, events: seq<Event>)
    requires Inv(s)
    ensures Inv(Run(s, events))
    decreases |events|
  {
    if events != [] {
      NextKeepsInv(s, events[0]);
      RunKeepsInv(Next(s, events[0]), events[1..]);
    }
  }

  /** Every interleaving leaves a proper history. */
  lemma RunsAreProper(events: seq<Event>)
    ensures Proper(Run(INITIAL, events).log)
    ensures var s := Run(INITIAL, events); s.session.canResume <==> s.session.id != ""
  {
    RunKeepsInv(INITIAL, events);
  }

  // ------------------------------------------------------------------
  // What proper histories rule out
  // ------------------------------------------------------------------

  /** `late` continues `early` without a READY that names a session. */
  ghost predicate NoNewSession(early: History, late: History) {
    late == early
    || (late.Then? && NoNewSession(early, late.past)
        && !(late.note.Ready? && late.note.sessionId.Some? && late.note.sessionId.value != ""))
  }

  ghost predicate ResumesSince(early: History, late: History) {
    late != early && late.Then? && (late.note.Resume? || ResumesSince(early, late.past))
  }

  lemma {:induction false} StaysDead(early: History, late: History)
    requires LiveSession(early) == "" && NoNewSession(early, late)
    ensures LiveSession(late) == ""
    decreases late
  {
    if late != early {
      StaysDead(early, late.past);
    }
  }

  /** After the session died, every HELLO is answered with IDENTIFY until a READY names a new one. */
  lemma {:induction false} DeadSessionIsNotResumed(early: History, late: History)
    requires Proper(late) && LiveSession(early) == "" && NoNewSession(early, late)
    ensures !ResumesSince(early, late)
    decreases late
  {
    if late != early {
      StaysDead(early, late.past);
      DeadSessionIsNotResumed(early, late.past);
    }
  }

  /** The step ends the session: close code 4006 or 4007, or INVALID_SESSION that says it cannot be resumed. */
  predicate EndsSession(s: State, ev: Event) {
    match ev
    case CloseFrame(code, _) => s.net.phase == Open && (code == 4006 || code == 4007)
    case Payload(_, body) => s.net.running && !s.net.wantToClose && body == InvalidSessionBody(Some(false))
    case _ => false
  }

  /** A READY that brings a session id. */
  predicate NamesSession(ev: Event) {
    ev.Payload? && ev.body.ReadyBody? && ev.body.sessionId.Some? && ev.body.sessionId.value != ""
  }

  lemma NextNamesNone(early: History, s: State, ev: Event)
    requires NoNewSession(early, s.log) && !NamesSession(ev)
    ensures NoNewSession(early, Next(s, ev).log)
  {
    match ev
    case Payload(number, body) => PayloadNamesNone(early, s, number, body);
    case Tail(jitter) => assert NoNewSession(early, Rejoining(s).log);
    case _ =>
  }

  lemma PayloadNamesNone(early: History, s: State, number: Option<int>, body: Body)
    requires NoNewSession(early, s.log) && !NamesSession(Payload(number, body))
    ensures NoNewSession(early, OnPayload(s, number, body).log)
  {
    match body
    case HelloBody(interval) => assert NoNewSession(early, OnAck(s).log);
    case _ =>
  }

  lemma {:induction false} RunNamesNone(early: History, s: State, events: seq<Event>)
    requires NoNewSession(early, s.log) && forall ev :: ev in events ==> !NamesSession(ev)
    ensures NoNewSession(early, Run(s, events).log)
    decreases |events|
  {
    if events != [] {
      HeadTail(events);
      assert events[0] in events;
      NextNamesNone(early, s, events[0]);
      RunNamesNone(early, Next(s, events[0]), events[1..]);
    }
  }

  /** Once a step has ended the session no continuation resumes anything before a READY names a session. */
  lemma EndedSessionIsNotResumed(s: State, ev: Event, events: seq<Event>)
    requires Inv(s) && EndsSession(s, ev) && forall e :: e in events ==> !NamesSession(e)
    ensures !ResumesSince(Next(s, ev).log, Run(Next(s, ev), events).log)
    ensures Next(s, ev).session.id == "" && !Next(s, ev).session.canResume
  {
    var t := Next(s, ev);
    NextKeepsInv(s, ev);
    RunKeepsInv(t, events);
    RunNamesNone(t.log, t, events);
    DeadSessionIsNotResumed(t.log, Run(t, events).log);
  }

  /** Nothing but such a step or a READY touches session id and flag. */
  lemma OthersKeepSession(s: State, ev: Event)
    requires !EndsSession(s, ev) && !(ev.Payload? && ev.body.ReadyBody?)
    ensures Next(s, ev).session.id == s.session.id && Next(s, ev).session.canResume == s.session.canResume
  {
    match ev
    case Payload(number, body) => OtherPayloadKeepsSession(s, number, body);
    case _ =>
  }

  lemma OtherPayloadKeepsSession(s: State, number: Option<int>, body: Body)
    requires !EndsSession(s, Payload(number, body)) && !body.ReadyBody?
    ensures var t := OnPayload(s, number, body);
            t.session.id == s.session.id && t.session.canResume == s.session.canResume
  {
  }

  function Notes(h: History): seq<Note> {
    match h
    case Nothing => []
    case Then(past, note) => Notes(past) + [note]
  }

  lemma {:induction false} SilentBeat(h: History) returns (i: nat)
    requires BeatsSinceAck(h) > 0
    ensures i < |Notes(h)| && Notes(h)[i].Beat? && Ack !in Notes(h)[i..]
    ensures exists past :: Notes(past) == Notes(h)[..i] && BeatsSinceAck(past) == BeatsSinceAck(h) - 1
  {
    if h.note.Beat? {
      i := |Notes(h)| - 1;
      assert Notes(h)[..i] == Notes(h.past);
      assert Notes(h)[i..] == [h.note];
    } else {
      i := SilentBeat(h.past);
      var past :| Notes(past) == Notes(h.past)[..i] && BeatsSinceAck(past) == BeatsSinceAck(h.past) - 1;
      assert Notes(h)[..i] == Notes(h.past)[..i];
      assert Notes(h)[i..] == Notes(h.past)[i..] + [h.note];
    }
  }

  /** A zombie is declared only after two beats with no ACK since before the first of them. */
  lemma ZombieNeedsTwoSilentBeats(h: History) returns (i: nat, j: nat)
    requires Proper(h) && h.Then? && h.note == Zombie
    ensures i < j < |Notes(h)| && Notes(h)[i].Beat? && Notes(h)[j].Beat? && Ack !in Notes(h)[i..]
  {
    j := SilentBeat(h.past);
    var past :| Notes(past) == Notes(h.past)[..j] && BeatsSinceAck(past) == BeatsSinceAck(h.past) - 1;
    i := SilentBeat(past);
    assert Notes(h)[i] == Notes(past)[i] && Notes(h)[j] == Notes(h.past)[j];
    assert Notes(h)[i..] == Notes(past)[i..] + Notes(h.past)[j..] + [h.note];
  }

  // ------------------------------------------------------------------
  // Each event against the history
  // ------------------------------------------------------------------

  /** Payloads count while the gateway runs and is not being stopped. */
  predicate Accepted(s: State) {
    s.net.running && !s.net.wantToClose
  }

  /** What a HELLO is to be answered with, by the history. */
  function AnswerDue(h: History, number: int): Note {
    if RejoinPending(h) && LiveSession(h) != "" then Resume(LiveSession(h), number) else Identify
  }

  lemma HelloNotes(s: State, number: Option<int>, interval: int)
    requires Inv(s) && Accepted(s)
    ensures var t := Next(s, Payload(number, HelloBody(interval)));
            && t.lastSeq == (if number.Some? then number.value else s.lastSeq)
            && t.log == Then(Then(s.log, Ack), AnswerDue(s.log, t.lastSeq))
            && t.pulse.interval == (if interval <= 0 then 41250 else interval)
            && t.pulse.thread == (if s.pulse.thread == NoThread then Looping else s.pulse.thread)
            && t.net == s.net
  {
  }

  /** What each payload leaves in the history, and that nothing counts after a stop. */
  lemma PayloadNotes(s: State, number: Option<int>, body: Body)
    requires !body.HelloBody?
    ensures !Accepted(s) ==> Next(s, Payload(number, body)) == s
    ensures Accepted(s) ==>
              var t := Next(s, Payload(number, body));
              && t.lastSeq == (if number.Some? then number.value else s.lastSeq)
              && t.log == (match body
                           case ReadyBody(id, url) => Then(s.log, Ready(id, url))
                           case ResumedBody => Then(s.log, Restored)
                           case AckBody => Then(s.log, Ack)
                           case InvalidSessionBody(resumable) =>
                             if resumable == Some(false) then Then(s.log, Dead) else s.log
                           case _ => s.log)
              && t.net == s.net.(shouldReconnect := s.net.shouldReconnect || body.ReconnectBody?
                                                    || body.InvalidSessionBody?)
              && t.pulse.thread == s.pulse.thread
  {
  }

  /** Every check sends a beat with the latest sequence number, except after two silent ones: that is a zombie. */
  lemma HeartbeatNotes(s: State)
    requires Inv(s) && s.pulse.thread == Looping && s.net.running
    ensures var t, silent := Next(s, HeartbeatCheck), BeatsSinceAck(s.log);
            && silent <= 2
            && t.log == Then(s.log, if silent == 2 then Zombie else Beat(s.lastSeq))
            && t.net == s.net.(shouldReconnect := s.net.shouldReconnect || silent == 2)
            && t.pulse.thread == (if silent == 2 then Ended else Looping)
            && t.lastSeq == s.lastSeq
  {
  }

  /** What each close code leaves in the history, and which of them bring a reconnect. */
  lemma CloseNotes(s: State, code: int, retryAfter: Option<nat>)
    requires s.net.phase == Open
    ensures var t := Next(s, CloseFrame(code, retryAfter));
            && t.log == (if code == 4008 && retryAfter.Some? && retryAfter.value > 0 then
                           Then(s.log, Penalty(if retryAfter.value < 120000 then retryAfter.value else 120000))
                         else if code == 4015 then Then(s.log, Penalty(60000))
                         else if code == 4006 || code == 4007 then Then(s.log, Dead)
                         else s.log)
            && t.net == s.net.(phase := Closing, shouldReconnect :=
                 s.net.shouldReconnect
                 || (!s.net.wantToClose && code !in {4004, 4010, 4011, 4012, 4013, 4014}))
            && t.lastSeq == s.lastSeq && t.pulse == s.pulse
  {
  }

  /** A dial goes to the resume url while a live session is being carried over, and clears the reconnect flag. */
  lemma DialNotes(s: State)
    requires Inv(s) && s.net.phase == Waiting && s.net.running
    ensures var t, h := Next(s, BeginDial), s.log;
            && t.log == Then(h, Dial(if LiveSession(h) != "" && RejoinPending(h) && ResumeUrl(h) != ""
                                     then Some(ResumeUrl(h)) else None))
            && t.net == s.net.(phase := Connecting, shouldReconnect := false)
            && t.lastSeq == s.lastSeq && t.pulse == s.pulse
  {
  }

  /** The wait due before the next attempt: doubled each time up to the cap, or what the server asked for. */
  function DelayDue(h: History, jitter: nat): nat {
    Max(Backoff(DelaysSinceWelcome(h) + 1) + jitter, PendingPenalty(h))
  }

  lemma DialFailedNotes(s: State, jitter: Jitter)
    requires Inv(s) && s.net.phase == Connecting
    ensures var t := Next(s, DialFailed(jitter));
            t.log == Then(s.log, Delay(DelayDue(s.log, jitter))) && t.net == s.net.(phase := Waiting)
            && t.lastSeq == s.lastSeq
    ensures Next(s, DialDone) == s.(net := s.net.(phase := Open))
  {
  }

  /** The end of a connection: carried over with a wait, exactly if a reconnect was asked for and nobody stopped it. */
  lemma TailNotes(s: State, jitter: Jitter)
    requires Inv(s) && s.net.phase == Closing
    ensures var t := Next(s, Tail(jitter));
            && t.pulse.thread == NoThread && t.lastSeq == s.lastSeq
            && if s.net.shouldReconnect && s.net.running then
                 && t.log == Then(Then(s.log, Rejoin), Delay(DelayDue(s.log, jitter)))
                 && t.net == s.net.(phase := Waiting)
               else t.log == s.log && t.net == s.net.(phase := Off, running := false)
  {
  }

  /** Steps that only move the connection along or set its flags. */
  lemma QuietSteps(s: State)
    ensures Next(s, IngestAck).log == Then(s.log, Ack) && Next(s, IngestAck).net == s.net
    ensures Next(s, DecompressionError) == s.(net := s.net.(shouldReconnect := true))
    ensures Next(s, Stop) == s.(net := s.net.(wantToClose := true))
    ensures var t := Next(s, HardStop);
            Stopped(t) && t.log == s.log && t.net == s.net.(phase := Off, running := false, shouldReconnect := false)
    ensures var t := Next(s, Start);
            t.net == s.net.(phase := Waiting, running := true, wantToClose := false) && t.log == s.log
    ensures s.net.phase == Open ==>
              && Next(s, LeaveLoop) == (if s.net.shouldReconnect || !s.net.running
                                        then s.(net := s.net.(phase := Closing)) else s)
              && Next(s, Lost) == s.(net := s.net.(phase := Closing, shouldReconnect :=
                                                     s.net.shouldReconnect || !s.net.wantToClose))
    ensures s.net.phase == Waiting ==>
              if !s.net.running || s.net.wantToClose then Stopped(Next(s, WaitCutShort)) else Next(s, WaitCutShort) == s
    ensures s.pulse.thread == Looping ==>
              Next(s, HeartbeatStops).pulse.thread
              == (if !s.net.running || s.net.shouldReconnect then Ended else Looping)
  {
  }

  /** The connection's own steps happen in their phase only. */
  lemma OutOfPhase(s: State, jitter: Jitter)
    ensures s.net.phase != Waiting || !s.net.running ==> Next(s, BeginDial) == s
    ensures s.net.phase != Connecting ==> Next(s, DialFailed(jitter)) == s && Next(s, DialDone) == s
    ensures s.net.phase != Closing ==> Next(s, Tail(jitter)) == s
    ensures s.net.phase != Waiting ==> Next(s, WaitCutShort) == s
  {
  }

  /** Without a connection nothing is lost, closed or left, and without its thread nothing beats. */
  lemma WithoutConnection(s: State, code: int, retryAfter: Option<nat>)
    ensures s.net.phase != Open ==>
              Next(s, LeaveLoop) == s && Next(s, Lost) == s && Next(s, CloseFrame(code, retryAfter)) == s
    ensures s.net.phase != Open && s.net.phase != Closing ==> Next(s, SendFailed) == s
    ensures s.pulse.thread != Looping ==> Next(s, HeartbeatCheck) == s && Next(s, HeartbeatStops) == s
  {
  }

  /** A session that a READY has named outlives a close and is resumed with the latest sequence number. */
  lemma NamedSessionIsResumed(s: State, id: string, url: string, code: int, jitter: Jitter, number: int, interval: int)
    returns (again: State)
    requires Inv(s) && s.net.phase == Open && Accepted(s) && id != "" && url != ""
    requires code !in {4004, 4006, 4007, 4010, 4011, 4012, 4013, 4014}
    ensures var ready := Next(s, Payload(Some(number), ReadyBody(Some(id), Some(url))));
            again == Run(Next(ready, CloseFrame(code, None)), [Tail(jitter), BeginDial, DialDone])
    ensures again.net.phase == Open && (exists h :: again.log == Then(h, Dial(Some(url))))
    ensures Next(again, Payload(None, HelloBody(interval))).log == Then(Then(again.log, Ack), Resume(id, number))
  {
    var ready := Next(s, Payload(Some(number), ReadyBody(Some(id), Some(url))));
    NextKeepsInv(s, Payload(Some(number), ReadyBody(Some(id), Some(url))));
    var closed := Next(ready, CloseFrame(code, None));
    NextKeepsInv(ready, CloseFrame(code, None));
    CloseNotes(ready, code, None);
    TailNotes(closed, jitter);
    var waiting := Next(closed, Tail(jitter));
    NextKeepsInv(closed, Tail(jitter));
    DialNotes(waiting);
    NextKeepsInv(waiting, BeginDial);
    RunThree(closed, Tail(jitter), BeginDial, DialDone);
    again := Run(closed, [Tail(jitter), BeginDial, DialDone]);
    NextKeepsInv(Next(waiting, BeginDial), DialDone);
    HelloNotes(again, None, interval);
  }

  // ------------------------------------------------------------------
  // What follows a close frame
  // ------------------------------------------------------------------

  /** A step that is not of the network thread; `Start` joins that thread first. */
  predicate Elsewhere(ev: Event) {
    match ev
    case Stop | HardStop | Payload(_, _) | IngestAck | DecompressionError | SendFailed => true
    case HeartbeatCheck | HeartbeatStops => true
    case _ => false
  }

  ghost predicate AllElsewhere(events: seq<Event>) {
    forall ev :: ev in events ==> Elsewhere(ev)
  }

  /** The step asks for a reconnect. */
  predicate Asks(s: State, ev: Event) {
    match ev
    case DecompressionError => true
    case SendFailed => s.net.phase == Open || s.net.phase == Closing
    case Payload(_, body) => s.net.running && !s.net.wantToClose && (body.ReconnectBody? || body.InvalidSessionBody?)
    case HeartbeatCheck =>
      s.pulse.thread == Looping && s.net.running && !s.pulse.ackReceived && s.pulse.missedAcks + 1 >= MAX_MISSED
    case _ => false
  }

  predicate SomeAsks(s: State, events: seq<Event>)
    decreases |events|
  {
    events != [] && (Asks(s, events[0]) || SomeAsks(Next(s, events[0]), events[1..]))
  }

  /** The gateway is off and both its threads are gone. */
  predicate Stopped(s: State) {
    s.net.phase == Off && !s.net.running && s.pulse.thread == NoThread
  }

  lemma ElsewhereNet(s: State, ev: Event)
    requires Elsewhere(ev) && s.net.running
    ensures var t := Next(s, ev);
            if ev.HardStop? then Stopped(t)
            else t.net.phase == s.net.phase && t.net.running
                 && (t.net.shouldReconnect <==> s.net.shouldReconnect || Asks(s, ev))
  {
    match ev
    case Payload(number, body) => PayloadNet(s, number, body);
    case _ =>
  }

  lemma PayloadNet(s: State, number: Option<int>, body: Body)
    ensures var t := OnPayload(s, number, body);
            && t.net == s.net.(shouldReconnect := t.net.shouldReconnect)
            && (t.net.shouldReconnect <==> s.net.shouldReconnect || Asks(s, Payload(number, body)))
  {
  }

  lemma {:induction false} StoppedStays(s: State, events: seq<Event>)
    requires AllElsewhere(events) && Stopped(s)
    ensures Stopped(Run(s, events))
    decreases |events|
  {
    if events != [] {
      assert events[0] in events;
      HeadTail(events);
      if events[0].Payload? {
        PayloadNet(s, events[0].number, events[0].body);
      }
      StoppedStays(Next(s, events[0]), events[1..]);
    }
  }

  /** Whatever the other threads do, only a hard stop ends the phase, and only they ask for a reconnect. */
  lemma {:induction false} MeanwhileNet(s: State, events: seq<Event>)
    requires AllElsewhere(events) && s.net.running
    ensures var t := Run(s, events);
            if HardStop in events then Stopped(t)
            else t.net.phase == s.net.phase && t.net.running
                 && (t.net.shouldReconnect <==> s.net.shouldReconnect || SomeAsks(s, events))
    decreases |events|
  {
    if events != [] {
      assert events[0] in events;
      HeadTail(events);
      ElsewhereNet(s, events[0]);
      if events[0] == HardStop {
        StoppedStays(Next(s, events[0]), events[1..]);
      } else {
        MeanwhileNet(Next(s, events[0]), events[1..]);
      }
    }
  }

  /** A close frame, what the other threads do until the connection is cleaned up, and the end of the connection. */
  function Closed(s: State, code: int, retryAfter: Option<nat>, between: seq<Event>, jitter: Jitter): State {
    Next(Run(Next(s, CloseFrame(code, retryAfter)), between), Tail(jitter))
  }

  lemma ClosedNet(s: State, code: int, retryAfter: Option<nat>)
    requires s.net.phase == Open
    ensures var t := Next(s, CloseFrame(code, retryAfter));
            && t.net.phase == Closing && t.net.running == s.net.running
            && (t.net.shouldReconnect <==> s.net.shouldReconnect || (!s.net.wantToClose && !IsFatal(code)))
  {
  }

  /**
    A fatal close ends the gateway exactly if no reconnect was asked for, neither before it nor by another
    thread before the connection is cleaned up, or if the gateway is stopped hard there.
  */
  lemma FatalCloseEndsIff(s: State, code: int, retryAfter: Option<nat>, between: seq<Event>, jitter: Jitter)
    requires s.net.phase == Open && s.net.running && AllElsewhere(between)
    requires code in {4004, 4010, 4011, 4012, 4013, 4014}
    ensures Closed(s, code, retryAfter, between, jitter).net.phase == Off
            <==> HardStop in between
                 || (!s.net.shouldReconnect && !SomeAsks(Next(s, CloseFrame(code, retryAfter)), between))
    ensures Closed(s, code, retryAfter, between, jitter).net.phase != Off ==>
              Closed(s, code, retryAfter, between, jitter).net.phase == Waiting
  {
    ClosedNet(s, code, retryAfter);
    MeanwhileNet(Next(s, CloseFrame(code, retryAfter)), between);
  }

  /** Two ways a fatal close is survived: a reconnect asked for just before the frame, and one just after it. */
  lemma FatalCloseSurvived(jitter: Jitter)
    ensures var online := Run(INITIAL, [Start, BeginDial, DialDone]);
            && online.net == Net(Open, true, false, false)
            && Run(online, [DecompressionError, CloseFrame(4004, None), Tail(jitter)]).net.phase == Waiting
            && Run(online, [CloseFrame(4004, None), DecompressionError, Tail(jitter)]).net.phase == Waiting
  {
    var online := Run(INITIAL, [Start, BeginDial, DialDone]);
    RunThree(INITIAL, Start, BeginDial, DialDone);
    RunThree(online, DecompressionError, CloseFrame(4004, None), Tail(jitter));
    RunThree(online, CloseFrame(4004, None), DecompressionError, Tail(jitter));
  }

  lemma RunThree(s: State, a: Event, b: Event, c: Event)
    ensures Run(s, [a, b, c]) == Next(Next(Next(s, a), b), c)
  {
    assert [a, b, c][1..] == [b, c] && [b, c][1..] == [c];
    assert Run(Next(Next(s, a), b), [c]) == Run(Next(Next(Next(s, a), b), c), []);
  }

  /**
    Any other close is followed by another attempt, however many came before and whatever the other
    threads do meanwhile, exactly unless the gateway is stopped hard.
  */
  lemma OtherCloseReconnects(s: State, code: int, retryAfter: Option<nat>, between: seq<Event>, jitter: Jitter,
                             waiting: seq<Event>)
    requires s.net.phase == Open && s.net.running && !s.net.wantToClose
    requires code !in {4004, 4010, 4011, 4012, 4013, 4014}
    requires AllElsewhere(between) && AllElsewhere(waiting)
    ensures var t := Closed(s, code, retryAfter, between, jitter);
            && (t.net.phase == Waiting && t.net.running <==> HardStop !in between)
            && t.pulse.thread == NoThread
    ensures var t := Next(Run(Closed(s, code, retryAfter, between, jitter), waiting), BeginDial);
            t.net.phase == Connecting && !t.net.shouldReconnect <==> HardStop !in between && HardStop !in waiting
  {
    var closed := Closed(s, code, retryAfter, between, jitter);
    ClosedNet(s, code, retryAfter);
    MeanwhileNet(Next(s, CloseFrame(code, retryAfter)), between);
    if HardStop in between {
      StoppedStays(closed, waiting);
    } else {
      MeanwhileNet(closed, waiting);
    }
  }

  // ------------------------------------------------------------------
  // Clearing the session in two steps
  // ------------------------------------------------------------------

  function FlagDropped(s: State): State {
    s.(session := s.session.(canResume := false))
  }

  function IdDropped(s: State): State {
    s.(session := s.session.(id := ""))
  }

  function Length(h: History): nat {
    if h.Nothing? then 0 else 1 + Length(h.past)
  }

  /** Of what happened after `early`, the last READY or death was a READY that left a session id. */
  ghost predicate ReadySince(early: History, late: History) {
    && Length(late) > Length(early)
    && match late.note
       case Ready(_, _) => LiveSession(late) != ""
       case Dead => false
       case _ => ReadySince(early, late.past)
  }

  ghost predicate HalfCleared(early: History, s: State) {
    && Length(s.log) >= Length(early)
    && s.session.id == LiveSession(s.log)
    && (s.session.canResume <==> ReadySince(early, s.log))
  }

  /** A note that is neither READY nor a death, with session id and flag untouched. */
  lemma NeutralKeepsHalf(early: History, s: State, t: State)
    requires HalfCleared(early, s) && t.log.Then? && t.log.past == s.log
    requires !t.log.note.Ready? && !t.log.note.Dead?
    requires t.session.id == s.session.id && t.session.canResume == s.session.canResume
    ensures HalfCleared(early, t)
  {
  }

  lemma ReadyKeepsHalf(early: History, s: State, id: Option<string>, url: Option<string>)
    requires HalfCleared(early, s)
    ensures HalfCleared(early, OnReady(s, id, url))
  {
  }

  lemma DeathKeepsHalf(early: History, s: State)
    requires HalfCleared(early, s)
    ensures HalfCleared(early, SessionDied(s))
  {
  }

  lemma BodyKeepsHalf(early: History, s: State, body: Body)
    requires HalfCleared(early, s)
    ensures HalfCleared(early, OnBody(s, body))
  {
    match body
    case ReadyBody(id, url) => ReadyKeepsHalf(early, s, id, url);
    case ResumedBody => NeutralKeepsHalf(early, s, OnBody(s, body));
    case HelloBody(interval) =>
      NeutralKeepsHalf(early, s, OnAck(s));
      NeutralKeepsHalf(early, OnAck(s), Answered(OnAck(s)));
    case AckBody => NeutralKeepsHalf(early, s, OnAck(s));
    case InvalidSessionBody(_) => DeathKeepsHalf(early, s);
    case _ =>
  }

  lemma CloseKeepsHalf(early: History, s: State, code: int, retryAfter: Option<nat>)
    requires HalfCleared(early, s)
    ensures HalfCleared(early, OnClose(s, code, retryAfter))
  {
    DeathKeepsHalf(early, s);
    NeutralKeepsHalf(early, s, Penalised(s, 60000));
    if retryAfter.Some? {
      NeutralKeepsHalf(early, s, Penalised(s, Min(retryAfter.value, 120000)));
    }
  }

  lemma NextKeepsHalf(early: History, s: State, ev: Event)
    requires HalfCleared(early, s)
    ensures HalfCleared(early, Next(s, ev))
  {
    match ev
    case Payload(number, body) => BodyKeepsHalf(early, if number.Some? then s.(lastSeq := number.value) else s, body);
    case IngestAck => NeutralKeepsHalf(early, s, OnAck(s));
    case BeginDial => NeutralKeepsHalf(early, s, OnDial(s));
    case DialFailed(jitter) => NeutralKeepsHalf(early, s, Backed(s, jitter));
    case CloseFrame(code, retryAfter) => CloseKeepsHalf(early, s, code, retryAfter);
    case Tail(jitter) =>
      NeutralKeepsHalf(early, s, Rejoining(s));
      NeutralKeepsHalf(early, Rejoining(s), Backed(Rejoining(s), jitter));
    case HeartbeatCheck => NeutralKeepsHalf(early, s, OnHeartbeat(s));
    case _ =>
  }

  lemma {:induction false} RunKeepsHalf(early: History, s: State, events: seq<Event>)
    requires HalfCleared(early, s)
    ensures HalfCleared(early, Run(s, events))
    decreases |events|
  {
    if events != [] {
      NextKeepsHalf(early, s, events[0]);
      RunKeepsHalf(early, Next(s, events[0]), events[1..]);
    }
  }

  /**
    The close handler drops the flag before it takes the lock that guards the id. Whatever the
    other threads do in between, flag and id agree afterwards exactly unless the last READY or
    death among it was a READY that left a session id.
  */
  lemma SplitClearAgreesIff(s: State, between: seq<Event>)
    requires Inv(s)
    ensures var mid := Run(FlagDropped(s), between);
            var after := IdDropped(mid);
            (after.session.canResume <==> after.session.id != "") <==> !ReadySince(s.log, mid.log)
  {
    RunKeepsHalf(s.log, FlagDropped(s), between);
  }

  /** What the close handler does after the two steps. */
  function CloseFinished(s: State): State {
    s.(net := s.net.(phase := Closing, shouldReconnect := s.net.shouldReconnect || !s.net.wantToClose))
  }

  /** Undisturbed, the connection after a close is resumed by whatever id there is exactly if the flag was set. */
  lemma FlagDecidesResume(s: State, jitter: Jitter) returns (again: State)
    requires s.net.phase == Open && s.net.running && !s.net.wantToClose
    ensures again == Run(CloseFinished(s), [Tail(jitter), BeginDial, DialDone]) && again.net.phase == Open
    ensures Next(again, Payload(None, HelloBody(DEFAULT_INTERVAL))).log ==
            Then(Then(again.log, Ack), if s.session.canResume then Resume(s.session.id, s.lastSeq) else Identify)
  {
    RunThree(CloseFinished(s), Tail(jitter), BeginDial, DialDone);
    again := Run(CloseFinished(s), [Tail(jitter), BeginDial, DialDone]);
  }

  /**
    A READY between the two steps: the flag stays set without an id, and the next HELLO is answered with a
    RESUME that names no session.
  */
  lemma ReadyBetweenResumesNothing(id: string, jitter: Jitter) returns (again: State)
    requires id != ""
    ensures var online := Run(INITIAL, [Start, BeginDial, DialDone]);
            var after := IdDropped(Run(FlagDropped(online), [Payload(None, ReadyBody(Some(id), None))]));
            && Inv(online) && online.net.phase == Open
            && after.session.canResume && after.session.id == ""
            && again == Run(CloseFinished(after), [Tail(jitter), BeginDial, DialDone])
            && Next(again, Payload(None, HelloBody(DEFAULT_INTERVAL))).log == Then(Then(again.log, Ack), Resume("", 0))
  {
    var online := Run(INITIAL, [Start, BeginDial, DialDone]);
    RunThree(INITIAL, Start, BeginDial, DialDone);
    RunKeepsInv(INITIAL, [Start, BeginDial, DialDone]);
    var ready := Payload(None, ReadyBody(Some(id), None));
    var mid := Next(FlagDropped(online), ready);
    assert Run(FlagDropped(online), [ready]) == Run(mid, []);
    again := FlagDecidesResume(IdDropped(mid), jitter);
  }

  // ------------------------------------------------------------------
  // The gateway
  // ------------------------------------------------------------------

  method ReconnectBackoffMs(attempt: int, jitter: Jitter) returns (ms: nat)
    ensures ms == Backoff(attempt) + jitter
  {
    var clamped := if attempt < 1 then 1 else if attempt > 16 then 16 else attempt;
    var shifted := 1;
    var i := 0;
    while i < clamped - 1
      invariant 0 <= i <= clamped - 1
      invariant shifted == Power2(i)
    {
      shifted := shifted * 2;
      i := i + 1;
    }
    ms := Min(1000 * shifted, 30000) + jitter;
  }

  class Gateway {
    var phase: Phase
    var running: bool
    var wantToClose: bool
    var shouldReconnect: bool
    var canResume: bool
    var isResuming: bool
    var sessionId: string
    var resumeGatewayUrl: string
    var heartbeatThread: Heart
    var heartbeatAckReceived: bool
    var missedHeartbeatAcks: nat
    var heartbeatInterval: int
    var lastReceivedSequence: int
    var reconnectAttempts: nat
    var nextReconnectDelayMs: nat
    var log: History

    function Now(): State
      reads this
    {
      State(Net(phase, running, wantToClose, shouldReconnect),
            Session(canResume, isResuming, sessionId, resumeGatewayUrl),
            Pulse(heartbeatThread, heartbeatAckReceived, missedHeartbeatAcks, heartbeatInterval),
            Retry(reconnectAttempts, nextReconnectDelayMs), lastReceivedSequence, log)
    }

    constructor ()
      ensures Now() == INITIAL
    {
      phase, running, wantToClose, shouldReconnect := Off, false, false, false;
      canResume, isResuming, sessionId, resumeGatewayUrl := false, false, "", "";
      heartbeatThread, heartbeatAckReceived, missedHeartbeatAcks, heartbeatInterval := NoThread, true, 0, 0;
      lastReceivedSequence, reconnectAttempts, nextReconnectDelayMs, log := 0, 0, 0, Nothing;
    }

    method HandleReady(id: Option<string>, url: Option<string>)
      modifies this`sessionId, this`resumeGatewayUrl, this`canResume, this`reconnectAttempts, this`log
      ensures Now() == OnReady(old(Now()), id, url)
    {
      if id.Some? {
        sessionId := id.value;
      }
      if url.Some? {
        resumeGatewayUrl := url.value;
      }
      canResume := sessionId != "";
      reconnectAttempts := 0;
      log := Then(log, Ready(id, url));
    }

    method AckArrived()
      modifies this`heartbeatAckReceived, this`log
      ensures Now() == OnAck(old(Now()))
    {
      heartbeatAckReceived := true;
      log := Then(log, Ack);
    }

    method AnswerHello()
      modifies this`isResuming, this`log
      ensures Now() == Answered(old(Now()))
    {
      if isResuming && canResume {
        log := Then(log, Resume(sessionId, lastReceivedSequence));
      } else {
        log := Then(log, Identify);
      }
      isResuming := false;
    }

    method HandleHello(interval: int)
      modifies this`heartbeatInterval, this`heartbeatThread, this`heartbeatAckReceived, this`isResuming, this`log
      ensures Now() == OnHello(old(Now()), interval)
    {
      AckArrived();
      AnswerHello();
      heartbeatInterval := interval;
      if interval <= 0 {
        heartbeatInterval := DEFAULT_INTERVAL;
      }
      if heartbeatThread == NoThread {
        heartbeatThread := Looping;
      }
    }

    method ClearSession()
      modifies this`canResume, this`sessionId, this`log
      ensures Now() == SessionDied(old(Now()))
    {
      canResume := false;
      sessionId := "";
      log := Then(log, Dead);
    }

    method DispatchBody(body: Body)
      modifies this
      ensures Now() == OnBody(old(Now()), body)
    {
      match body
      case ReadyBody(id, url) => HandleReady(id, url);
      case ResumedBody =>
        reconnectAttempts := 0;
        log := Then(log, Restored);
      case HelloBody(interval) => HandleHello(interval);
      case AckBody => AckArrived();
      case ReconnectBody => shouldReconnect := true;
      case InvalidSessionBody(resumable) =>
        var isResumable := if resumable.None? then true else resumable.value;
        if !isResumable {
          ClearSession();
        }
        shouldReconnect := true;
      case OtherBody =>
    }

    method OnPayloadReceived(number: Option<int>, body: Body)
      modifies this
      ensures Now() == OnPayload(old(Now()), number, body)
    {
      if !running || wantToClose {
        return;
      }
      if number.Some? {
        lastReceivedSequence := number.value;
      }
      DispatchBody(body);
    }

    /** One iteration of the heartbeat loop, up to its wait. */
    method HeartbeatIteration()
      requires heartbeatThread == Looping && running
      modifies this`heartbeatAckReceived, this`missedHeartbeatAcks, this`shouldReconnect, this`heartbeatThread, this`log
      ensures Now() == OnHeartbeat(old(Now()))
    {
      var acked := heartbeatAckReceived;
      heartbeatAckReceived := false;
      if !acked {
        missedHeartbeatAcks := missedHeartbeatAcks + 1;
        if missedHeartbeatAcks >= MAX_MISSED {
          shouldReconnect := true;
          heartbeatThread := Ended;
          log := Then(log, Zombie);
          return;
        }
      } else {
        missedHeartbeatAcks := 0;
      }
      log := Then(log, Beat(lastReceivedSequence));
    }

    method Penalise(least: nat)
      modifies this`nextReconnectDelayMs, this`log
      ensures Now() == Penalised(old(Now()), least)
    {
      nextReconnectDelayMs := least;
      log := Then(log, Penalty(least));
    }

    method OnCloseFrame(code: int, retryAfter: Option<nat>)
      requires phase == Open
      modifies this`nextReconnectDelayMs, this`canResume, this`sessionId, this`shouldReconnect, this`phase, this`log
      ensures Now() == OnClose(old(Now()), code, retryAfter)
    {
      if code == RATE_LIMITED {
        if retryAfter.Some? && retryAfter.value > 0 {
          Penalise(Min(retryAfter.value, 120000));
        }
      } else if code == TOO_MANY_SESSIONS {
        Penalise(60000);
      }
      if code == SESSION_NO_LONGER_VALID || code == INVALID_SEQ {
        ClearSession();
      }
      if !wantToClose && !IsFatal(code) {
        shouldReconnect := true;
      }
      phase := Closing;
    }

    method WaitBeforeRetry(jitter: Jitter)
      modifies this`reconnectAttempts, this`nextReconnectDelayMs, this`log
      ensures Now() == Backed(old(Now()), jitter)
    {
      var attempt := reconnectAttempts + 1;
      reconnectAttempts := attempt;
      var delay := ReconnectBackoffMs(attempt, jitter);
      var overrideMs := nextReconnectDelayMs;
      nextReconnectDelayMs := 0;
      if overrideMs > 0 {
        delay := Max(delay, overrideMs);
      }
      log := Then(log, Delay(delay));
    }

    /** The part of the network loop after the connection is gone. */
    method AfterConnection(jitter: Jitter)
      requires phase == Closing
      modifies this
      ensures Now() == OnTail(old(Now()), jitter)
    {
      if shouldReconnect && running {
        isResuming := canResume;
        log := Then(log, Rejoin);
        heartbeatThread := NoThread;
        WaitBeforeRetry(jitter);
        phase := Waiting;
      } else {
        running := false;
        heartbeatThread := NoThread;
        phase := Off;
      }
    }

    /** The head of the network loop. */
    method ChooseUrl()
      requires phase == Waiting && running
      modifies this`shouldReconnect, this`phase, this`log
      ensures Now() == OnDial(old(Now()))
    {
      shouldReconnect := false;
      var connectUrl: Option<string> := None;
      if isResuming && canResume && resumeGatewayUrl != "" {
        connectUrl := Some(resumeGatewayUrl);
      }
      log := Then(log, Dial(connectUrl));
      phase := Connecting;
    }
  }
}
