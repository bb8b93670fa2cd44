/** Many callers of the FleetAPI client at once. Every step of a call that touches
    shared memory is a step of its own, and the callers' steps interleave in any
    order with each other, with writes, with rate limits on writes and with time. */
module Flights {
  import opened Common
  import opened FleetApi
  import opened ResponseCache

  type Answer = Result<Document, HttpError>

  const SITE_CONFIG := "SITE_CONFIG"
  const SITE_CONFIG_TTL := 59 * SECOND

  /** On whose behalf a request is made: a forced read, or the flight it leads. */
  datatype Role = Forced | Leading(flight: nat)

  /** Where a caller is in its read. `gate` is the event that let it pass. */
  datatype Phase =
    | Idle
    | Looking(key: string)
    | Entering(key: string)
    | Joining(key: string)
    | LookingAgain(key: string, flight: nat)
    | AtGate(key: string, role: Role)
    | Sending(key: string, role: Role, gate: nat)
    | Asking(key: string, role: Role)
    | Settling(key: string, role: Role, reply: Reply)
    | Landing(key: string, flight: nat, answer: Answer)
    | Waiting(key: string, flight: nat)
    | Done(answer: Answer, shared: Option<nat>)

  datatype Flight = Flight(id: nat, leader: nat)

  datatype Event =
    | Passed(caller: nat, key: string, role: Role, at: int)
    | Asked(caller: nat, key: string, role: Role, at: int, gate: nat)
    | Replied(caller: nat, key: string, role: Role, reply: Reply, at: int)
    | Stored(key: string, role: Role, json: Document, at: int, expiresAt: int)
    | Served(caller: nat, key: string, json: Document, at: int)
    | Removed(keys: set<string>)
    | Limited(at: int, delay: int)

  /** `coalesced` are the keys whose cached answer a flight fetched. */
  datatype State = State(mem: Memory, ttl: int, phases: map<nat, Phase>, flights: map<string, Flight>,
                         answers: map<nat, Answer>, next: nat, coalesced: set<string>, log: seq<Event>)

  function PhaseOf(s: State, c: nat): (p: Phase) { if c in s.phases then s.phases[c] else Idle }

  function Ttl(s: State, key: string): (ttl: int) { if key == SITE_CONFIG then SITE_CONFIG_TTL else s.ttl }

  function Moved(s: State, c: nat, p: Phase): (s': State) { s.(phases := s.phases[c := p]) }

  function Noted(s: State, e: Event): (s': State) { s.(log := s.log + [e]) }

  // ------------------------------------------------------------------- the steps

  function Begun(s: State, c: nat, key: string, force: bool): (s': State) {
    if !PhaseOf(s, c).Idle? && !PhaseOf(s, c).Done? then s
    else Moved(s, c, if force then AtGate(key, Forced) else Looking(key))
  }

  /** The first look at the cache, or the second one inside the flight. */
  function Looked(s: State, c: nat): (s': State) {
    var p := PhaseOf(s, c);
    if p.Looking? then
      var hit := Lookup(s.mem.items, p.key, s.mem.now, Some(Ttl(s, p.key)));
      if hit.PositiveHit? then Moved(Noted(s, Served(c, p.key, hit.value, s.mem.now)), c, Done(Ok(hit.value), None))
      else Moved(s, c, Entering(p.key))
    else if p.LookingAgain? then
      var hit := Lookup(s.mem.items, p.key, s.mem.now, Some(Ttl(s, p.key)));
      if hit.PositiveHit? then Moved(Noted(s, Served(c, p.key, hit.value, s.mem.now)), c,
                                     Landing(p.key, p.flight, Ok(hit.value)))
      else Moved(s, c, AtGate(p.key, Leading(p.flight)))
    else s
  }

  /** The first look at the backoff window, or the last one before a request. */
  function Gated(s: State, c: nat): (s': State) {
    var p := PhaseOf(s, c);
    if p.Entering? then
      Moved(s, c, if Remaining(s.mem) > 0 then Done(Err(RateLimited), None) else Joining(p.key))
    else if !p.AtGate? then s
    else if Remaining(s.mem) > 0 then
      Moved(s, c, if p.role.Leading? then Landing(p.key, p.role.flight, Err(RateLimited))
            else Done(Err(RateLimited), None))
    else Moved(Noted(s, Passed(c, p.key, p.role, s.mem.now)), c, Sending(p.key, p.role, |s.log|))
  }

  /** The first to come leads a new flight, the others wait for it. */
  function Joined(s: State, c: nat): (s': State) {
    var p := PhaseOf(s, c);
    if !p.Joining? then s
    else if p.key in s.flights then Moved(s, c, Waiting(p.key, s.flights[p.key].id))
    else Moved(s, c, LookingAgain(p.key, s.next)).(flights := s.flights[p.key := Flight(s.next, c)], next := s.next + 1)
  }

  function Sent(s: State, c: nat): (s': State) {
    var p := PhaseOf(s, c);
    if !p.Sending? then s
    else Moved(Noted(s, Asked(c, p.key, p.role, s.mem.now, p.gate)), c, Asking(p.key, p.role))
  }

  /** The events a reply brings about: a new cached answer, or a rate limit. */
  function EventsOf(s: State, key: string, role: Role, reply: Reply, draw: Option<nat>): (events: seq<Event>) {
    var (mem', answer) := Concluded(s.mem, key, Ttl(s, key), reply, draw);
    if answer.Ok? then
      [Stored(key, role, answer.value, s.mem.now, s.mem.now + Ttl(s, key) - Jitter(Ttl(s, key), draw))]
    else if IsRateLimit(reply) then
      [Limited(s.mem.now, RetryDelay(reply.header, reply.body.value.retrySeconds, s.mem.now))]
    else []
  }

  /** The reply is there and has been read; nobody else knows of it yet. */
  function Received(s: State, c: nat, reply: Reply): (s': State) {
    var p := PhaseOf(s, c);
    if !p.Asking? then s
    else Moved(Noted(s, Replied(c, p.key, p.role, reply, s.mem.now)), c, Settling(p.key, p.role, reply))
  }

  /** The reply takes effect on the cache or on the window. */
  function Settled(s: State, c: nat, draw: Option<nat>): (s': State) {
    var p := PhaseOf(s, c);
    if !p.Settling? then s
    else
      var (mem', answer) := Concluded(s.mem, p.key, Ttl(s, p.key), p.reply, draw);
      s.(mem := mem',
         phases := s.phases[c := if p.role.Leading? then Landing(p.key, p.role.flight, answer) else Done(answer, None)],
         coalesced := if answer.Err? then s.coalesced else if p.role.Leading? then s.coalesced + {p.key}
           else s.coalesced - {p.key},
         log := s.log + EventsOf(s, p.key, p.role, p.reply, draw))
  }

  /** The leader ends its flight and leaves the answer to those who wait. */
  function Landed(s: State, c: nat): (s': State) {
    var p := PhaseOf(s, c);
    if !p.Landing? then s
    else Moved(s, c, Done(p.answer, Some(p.flight))).(flights := s.flights - {p.key},
                                                      answers := s.answers[p.flight := p.answer])
  }

  function Shared(s: State, c: nat): (s': State) {
    var p := PhaseOf(s, c);
    if p.Waiting? && p.flight in s.answers then Moved(s, c, Done(s.answers[p.flight], Some(p.flight))) else s
  }

  datatype Op =
    | Begin(caller: nat, key: string, force: bool)
    | Look(caller: nat)
    | Gate(caller: nat)
    | Join(caller: nat)
    | Send(caller: nat)
    | Receive(caller: nat, reply: Reply)
    | Settle(caller: nat, draw: Option<nat>)
    | Land(caller: nat)
    | Share(caller: nat)
    | WriteLimited(header: RetryHeader, retrySeconds: Option<nat>)
    | Remove(keys: set<string>)
    | Tick(d: nat)

  function Step(s: State, op: Op): (s': State) {
    match op
    case Begin(c, key, force) => Begun(s, c, key, force)
    case Look(c) => Looked(s, c)
    case Gate(c) => Gated(s, c)
    case Join(c) => Joined(s, c)
    case Send(c) => Sent(s, c)
    case Receive(c, reply) => Received(s, c, reply)
    case Settle(c, draw) => Settled(s, c, draw)
    case Land(c) => Landed(s, c)
    case Share(c) => Shared(s, c)
    case WriteLimited(header, retrySeconds) =>
      var delay := RetryDelay(header, retrySeconds, s.mem.now);
      Noted(s, Limited(s.mem.now, delay)).(mem := Armed(s.mem, delay))
    case Remove(keys) => Noted(s, Removed(keys)).(mem := s.mem.(items := s.mem.items - keys))
    case Tick(d) => s.(mem := s.mem.(now := s.mem.now + d))
  }

  function Initial(ttl: int, now: nat): (s: State) { State(Memory(map[], 0, now), ttl, map[], map[], map[], 0, {}, []) }

  function Run(s: State, ops: seq<Op>): (s': State) {
    if ops == [] then s else Step(Run(s, ops[..|ops| - 1]), ops[|ops| - 1])
  }

  // ---------------------------------------------------------- who leads, who waits

  /** The flight this phase is a part of as its leader. */
  function Leads(p: Phase): (l: Option<(string, nat)>) {
    match p
    case LookingAgain(key, f) => Some((key, f))
    case AtGate(key, Leading(f)) => Some((key, f))
    case Sending(key, Leading(f), _) => Some((key, f))
    case Asking(key, Leading(f)) => Some((key, f))
    case Settling(key, Leading(f), _) => Some((key, f))
    case Landing(key, f, _) => Some((key, f))
    case _ => None
  }

  /** Every flight under way has its own number and its one leader, still at work. */
  ghost predicate FlightsAreLed(s: State) {
    && (forall key :: key in s.flights ==>
          && s.flights[key].id < s.next && s.flights[key].id !in s.answers
          && Leads(PhaseOf(s, s.flights[key].leader)) == Some((key, s.flights[key].id)))
    && (forall c: nat :: Leads(PhaseOf(s, c)).Some? ==>
          var (key, f) := Leads(PhaseOf(s, c)).value; key in s.flights && s.flights[key] == Flight(f, c))
    && (forall key, key' :: key in s.flights && key' in s.flights && s.flights[key].id == s.flights[key'].id
          ==> key == key')
    && (forall f :: f in s.answers ==> f < s.next)
  }

  /** Whoever waits waits for a flight that is under way or has left its answer, and
      whoever has shared an answer holds that of its flight. */
  ghost predicate AnswersAreShared(s: State) { forall c: nat :: Shares(s, c) }

  ghost predicate Shares(s: State, c: nat) {
    var p := PhaseOf(s, c);
    && (p.Waiting? ==> p.flight in s.answers || (p.key in s.flights && s.flights[p.key].id == p.flight))
    && (p.Done? && p.shared.Some? ==> p.shared.value in s.answers && s.answers[p.shared.value] == p.answer)
  }

  /** Steps other than those that open or end a flight. */
  ghost predicate KeepsFlights(s: State, s': State) {
    && s'.flights == s.flights && s'.answers == s.answers && s'.next == s.next
    && forall c: nat :: Leads(PhaseOf(s', c)) == Leads(PhaseOf(s, c))
  }

  predicate OpensFlight(s: State, op: Op) {
    op.Join? && PhaseOf(s, op.caller).Joining? && PhaseOf(s, op.caller).key !in s.flights
  }

  predicate EndsFlight(s: State, op: Op) { op.Land? && PhaseOf(s, op.caller).Landing? }

  lemma OtherStepsKeepFlights(s: State, op: Op)
    requires !OpensFlight(s, op) && !EndsFlight(s, op)
    ensures KeepsFlights(s, Step(s, op))
  {
    forall c: nat ensures Leads(PhaseOf(Step(s, op), c)) == Leads(PhaseOf(s, c)) {
      LeadershipIsKept(s, op, c);
    }
  }

  /** The caller whose step this is. */
  function Mover(op: Op): (c: Option<nat>) {
    if op.WriteLimited? || op.Remove? || op.Tick? then None else Some(op.caller)
  }

  lemma OthersStay(s: State, op: Op, c: nat)
    requires Mover(op) != Some(c)
    ensures PhaseOf(Step(s, op), c) == PhaseOf(s, c)
  {
  }

  lemma LeadershipIsKept(s: State, op: Op, c: nat)
    requires !OpensFlight(s, op) && !EndsFlight(s, op)
    ensures Leads(PhaseOf(Step(s, op), c)) == Leads(PhaseOf(s, c))
  {
    if Mover(op) == Some(c) {
      OwnStepKeepsLead(s, op);
    } else {
      OthersStay(s, op, c);
    }
  }

  lemma OwnStepKeepsLead(s: State, op: Op)
    requires Mover(op).Some? && !OpensFlight(s, op) && !EndsFlight(s, op)
    ensures Leads(PhaseOf(Step(s, op), op.caller)) == Leads(PhaseOf(s, op.caller))
  {
  }

  lemma StepIsLed(s: State, op: Op)
    requires FlightsAreLed(s)
    ensures FlightsAreLed(Step(s, op))
  {
    if OpensFlight(s, op) {
      OpenedIsLed(s, op.caller);
    } else if EndsFlight(s, op) {
      EndedIsLed(s, op.caller);
    } else {
      OtherStepsKeepFlights(s, op);
    }
  }

  lemma OpenedIsLed(s: State, c: nat)
    requires FlightsAreLed(s) && OpensFlight(s, Join(c))
    ensures FlightsAreLed(Joined(s, c))
  {
    var s' := Joined(s, c);
    forall d: nat | Leads(PhaseOf(s', d)).Some?
      ensures var (key, f) := Leads(PhaseOf(s', d)).value; key in s'.flights && s'.flights[key] == Flight(f, d)
    {
      assert d != c ==> PhaseOf(s', d) == PhaseOf(s, d);
    }
  }

  lemma EndedIsLed(s: State, c: nat)
    requires FlightsAreLed(s) && EndsFlight(s, Land(c))
    ensures FlightsAreLed(Landed(s, c))
  {
    var s' := Landed(s, c);
    assert Leads(PhaseOf(s, c)).Some?;
    forall d: nat | Leads(PhaseOf(s', d)).Some?
      ensures var (key, f) := Leads(PhaseOf(s', d)).value; key in s'.flights && s'.flights[key] == Flight(f, d)
    {
      assert d != c ==> PhaseOf(s', d) == PhaseOf(s, d);
    }
  }

  lemma StepShares(s: State, op: Op)
    requires FlightsAreLed(s) && AnswersAreShared(s)
    ensures AnswersAreShared(Step(s, op))
  {
    forall c: nat ensures Shares(Step(s, op), c) {
      assert Shares(s, c);
      if op.Join? {
        JoiningShares(s, op.caller, c);
      } else if op.Share? {
        assert Shares(Shared(s, op.caller), c);
      } else if op.Land? {
        LandingShares(s, op.caller, c);
      } else {
        OthersNeitherWaitNorShare(s, op, c);
      }
    }
  }

  lemma JoiningShares(s: State, caller: nat, c: nat)
    requires Shares(s, c)
    ensures Shares(Joined(s, caller), c)
  {
  }

  lemma LandingShares(s: State, leader: nat, c: nat)
    requires FlightsAreLed(s) && Shares(s, c)
    ensures Shares(Landed(s, leader), c)
  {
    if EndsFlight(s, Land(leader)) {
      assert Leads(PhaseOf(s, leader)).Some?;
    }
  }

  lemma OthersNeitherWaitNorShare(s: State, op: Op, c: nat)
    requires !op.Join? && !op.Share? && !op.Land?
    ensures var (p, p') := (PhaseOf(s, c), PhaseOf(Step(s, op), c));
            && Step(s, op).answers == s.answers && Step(s, op).flights == s.flights
            && (p' == p || (!p'.Waiting? && (p'.Done? ==> p'.shared.None?)))
  {
  }

  // ------------------------------------------------------------ the backoff window

  /** The window is the furthest end of all rate limits so far, and no later limit
      came before an earlier one. */
  ghost predicate WindowAgrees(log: seq<Event>, until: int, now: int) {
    && (forall i :: 0 <= i < |log| && log[i].Limited? ==>
          0 <= log[i].delay <= MAX_BACKOFF && log[i].at <= now && log[i].at + log[i].delay <= until)
    && (NoLimit(log, until) || exists i :: 0 <= i < |log| && Ends(log[i], until))
    && (forall i, j :: 0 <= i < j < |log| && log[i].Limited? && log[j].Limited? ==> log[i].at <= log[j].at)
    && now >= 0
  }

  ghost predicate NoLimit(log: seq<Event>, until: int) { until == 0 && forall i :: 0 <= i < |log| ==> !log[i].Limited? }

  ghost predicate Ends(e: Event, until: int) { e.Limited? && e.at + e.delay == until }

  /** No gate was passed inside a window, and no request made without its gate. */
  ghost predicate GatesHold(log: seq<Event>) {
    && (forall i, j :: 0 <= i < j < |log| && log[i].Limited? && log[j].Passed?
          ==> log[i].at + log[i].delay <= log[j].at)
    && (forall j :: 0 <= j < |log| && log[j].Asked? ==>
          log[j].gate < j && OpensFor(log[log[j].gate], log[j].caller, log[j].key, log[j].role))
  }

  predicate OpensFor(e: Event, caller: nat, key: string, role: Role) {
    e.Passed? && e.caller == caller && e.key == key && e.role == role
  }

  ghost predicate SendersPassed(s: State) {
    forall c: nat :: PhaseOf(s, c).Sending? ==>
      var p := PhaseOf(s, c); p.gate < |s.log| && OpensFor(s.log[p.gate], c, p.key, p.role)
  }

  ghost predicate BackoffAgrees(s: State) {
    WindowAgrees(s.log, s.mem.until, s.mem.now) && GatesHold(s.log) && SendersPassed(s)
  }

  /** An event that the window and the gates allow next. */
  ghost predicate MayFollow(s: State, e: Event) {
    match e
    case Passed(_, _, _, at) => at == s.mem.now && s.mem.until <= at
    case Asked(c, key, role, _, gate) => gate < |s.log| && OpensFor(s.log[gate], c, key, role)
    case Limited(at, delay) => at == s.mem.now && 0 <= delay <= MAX_BACKOFF
    case _ => true
  }

  ghost function WindowAfter(s: State, e: Event): (until: int) {
    if e.Limited? then Max(s.mem.until, e.at + e.delay) else s.mem.until
  }

  lemma EventKeepsWindow(s: State, e: Event)
    requires BackoffAgrees(s) && MayFollow(s, e)
    ensures WindowAgrees(s.log + [e], WindowAfter(s, e), s.mem.now)
  {
    var log' := s.log + [e];
    var until' := WindowAfter(s, e);
    if e.Limited? && until' == e.at + e.delay {
      assert Ends(log'[|s.log|], until');
    } else if !NoLimit(s.log, s.mem.until) {
      var i :| 0 <= i < |s.log| && Ends(s.log[i], s.mem.until);
      assert Ends(log'[i], until');
    }
  }

  lemma EventKeepsGates(s: State, e: Event)
    requires BackoffAgrees(s) && MayFollow(s, e)
    ensures GatesHold(s.log + [e])
  {
  }

  /** What a step adds to the log, and what it does to the window. */
  function News(s: State, op: Op): (events: seq<Event>)
    ensures |events| <= 1
  {
    match op
    case Look(c) =>
      var p := PhaseOf(s, c);
      if (p.Looking? || p.LookingAgain?) && Live(s.mem.items, p.key, Ttl(s, p.key), s.mem.now) then
        [Served(c, p.key, s.mem.items[p.key].entry.value, s.mem.now)]
      else []
    case Gate(c) =>
      var p := PhaseOf(s, c);
      if p.AtGate? && Remaining(s.mem) <= 0 then [Passed(c, p.key, p.role, s.mem.now)] else []
    case Send(c) =>
      var p := PhaseOf(s, c);
      if p.Sending? then [Asked(c, p.key, p.role, s.mem.now, p.gate)] else []
    case Receive(c, reply) =>
      var p := PhaseOf(s, c);
      if p.Asking? then [Replied(c, p.key, p.role, reply, s.mem.now)] else []
    case Settle(c, draw) =>
      var p := PhaseOf(s, c);
      if p.Settling? then EventsOf(s, p.key, p.role, p.reply, draw) else []
    case WriteLimited(header, retrySeconds) => [Limited(s.mem.now, RetryDelay(header, retrySeconds, s.mem.now))]
    case Remove(keys) => [Removed(keys)]
    case _ => []
  }

  lemma StepLogsNews(s: State, op: Op)
    ensures Step(s, op).log == s.log + News(s, op)
  {
  }

  lemma StepMovesWindow(s: State, op: Op)
    ensures Step(s, op).mem.until == if News(s, op) == [] then s.mem.until else WindowAfter(s, News(s, op)[0])
    ensures Step(s, op).mem.now == if op.Tick? then s.mem.now + op.d else s.mem.now
  {
  }

  lemma NewsMayFollow(s: State, op: Op)
    requires BackoffAgrees(s) && News(s, op) != []
    ensures MayFollow(s, News(s, op)[0])
  {
  }

  lemma SendersStayPassed(s: State, op: Op)
    requires SendersPassed(s)
    ensures SendersPassed(Step(s, op))
  {
    var s' := Step(s, op);
    StepLogsNews(s, op);
    forall c: nat | PhaseOf(s', c).Sending?
      ensures var p := PhaseOf(s', c); p.gate < |s'.log| && OpensFor(s'.log[p.gate], c, p.key, p.role)
    {
      assert PhaseOf(s', c) == PhaseOf(s, c) || op == Gate(c);
    }
  }

  lemma StepKeepsBackoff(s: State, op: Op)
    requires BackoffAgrees(s)
    ensures BackoffAgrees(Step(s, op))
  {
    StepLogsNews(s, op);
    StepMovesWindow(s, op);
    SendersStayPassed(s, op);
    if News(s, op) != [] {
      var e := News(s, op)[0];
      NewsMayFollow(s, op);
      EventKeepsWindow(s, e);
      EventKeepsGates(s, e);
      assert News(s, op) == [e];
    } else {
      assert Step(s, op).log == s.log;
    }
  }

  // ---------------------------------------------- what the cache spares the gateway

  /** The answer a flight left for this key is still in the cache and still good. */
  predicate Covered(s: State, key: string) {
    key in s.coalesced && key in s.mem.items && s.mem.now <= s.mem.items[key].expiresAt
  }

  /** The caller leads a flight that has found nothing in the cache. */
  predicate Missed(p: Phase) { (p.AtGate? || p.Sending? || p.Asking? || p.Settling?) && p.role.Leading? }

  /** Age limit and expiry of every cached answer say the same. */
  ghost predicate LimitsCoincide(s: State) {
    && s.ttl > 0
    && forall key :: key in s.mem.items ==>
         var item := s.mem.items[key]; item.entry.Positive? && item.entry.timestamp + Ttl(s, key) == item.expiresAt
  }

  /** The second look covers late arrivals: whoever goes on to ask does so while no
      answer of an earlier flight is there. */
  ghost predicate MissesAreReal(s: State) {
    forall c: nat :: Missed(PhaseOf(s, c)) ==> !Covered(s, PhaseOf(s, c).key)
  }

  /** Between these events, the answer was removed or overwritten by a forced read. */
  ghost predicate Lost(log: seq<Event>, i: int, j: int, key: string) {
    exists k :: i < k < j && 0 <= k < |log| && Loses(log[k], key)
  }

  predicate Loses(e: Event, key: string) {
    (e.Removed? && key in e.keys) || (e.Stored? && e.key == key && e.role == Forced)
  }

  predicate ByFlight(e: Event) { e.Stored? && e.role.Leading? }

  /** Every answer a flight ever stored is lost, has expired, or is there. */
  ghost predicate StoredIsAccounted(s: State, i: nat)
    requires i < |s.log| && ByFlight(s.log[i])
  {
    var e := s.log[i];
    || Lost(s.log, i, |s.log|, e.key) || e.expiresAt < s.mem.now
    || (e.key in s.coalesced && e.key in s.mem.items && s.mem.items[e.key].expiresAt == e.expiresAt)
  }

  ghost predicate CacheAgrees(s: State) {
    forall i: nat :: i < |s.log| && ByFlight(s.log[i]) ==> StoredIsAccounted(s, i)
  }

  /** No flight asks for what an earlier flight has left and nobody has removed. */
  ghost predicate AsksAreNeeded(log: seq<Event>) {
    forall i: nat, j: nat :: i < j < |log| && ByFlight(log[i]) && log[j].Asked? && log[j].role.Leading?
      && log[j].key == log[i].key
      ==> Lost(log, i, j, log[i].key) || log[i].expiresAt < log[j].at
  }

  /** Only a reply puts anything into the cache. */
  lemma OnlyRepliesStore(s: State, op: Op)
    requires !op.Settle?
    ensures var s' := Step(s, op);
            && s'.ttl == s.ttl && s'.coalesced == s.coalesced && s'.mem.now >= s.mem.now
            && s'.mem.items == if op.Remove? then s.mem.items - op.keys else s.mem.items
  {
  }

  lemma StepKeepsLimits(s: State, op: Op)
    requires LimitsCoincide(s)
    ensures LimitsCoincide(Step(s, op))
  {
    if !op.Settle? {
      OnlyRepliesStore(s, op);
    }
  }

  lemma StepKeepsMisses(s: State, op: Op)
    requires LimitsCoincide(s) && FlightsAreLed(s) && MissesAreReal(s)
    ensures MissesAreReal(Step(s, op))
  {
    var s' := Step(s, op);
    forall c: nat | Missed(PhaseOf(s', c)) ensures !Covered(s', PhaseOf(s', c).key) {
      if op.Settle? {
        ReplyKeepsMiss(s, op.caller, op.draw, c);
      } else {
        OnlyRepliesStore(s, op);
        if Covered(s', PhaseOf(s', c).key) {
          CameByMiss(s, op, c);
        }
      }
    }
  }

  /** A caller comes to miss by its second look, and by nothing else. */
  lemma CameByMiss(s: State, op: Op, c: nat)
    requires Missed(PhaseOf(Step(s, op), c)) && !op.Settle?
    ensures var (p, p') := (PhaseOf(s, c), PhaseOf(Step(s, op), c));
            p.key == p'.key && (Missed(p) || (p.LookingAgain? && !Live(s.mem.items, p.key, Ttl(s, p.key), s.mem.now)
                                              && Step(s, op).mem == s.mem))
  {
    if op == Look(c) {
      LookComesToMiss(s, c);
    } else {
      OthersComeFromMiss(s, op, c);
    }
  }

  lemma LookComesToMiss(s: State, c: nat)
    requires Missed(PhaseOf(Looked(s, c), c))
    ensures var (p, p') := (PhaseOf(s, c), PhaseOf(Looked(s, c), c));
            p.key == p'.key && Looked(s, c).mem == s.mem
            && (Missed(p) || (p.LookingAgain? && !Live(s.mem.items, p.key, Ttl(s, p.key), s.mem.now)))
  {
  }

  lemma OthersComeFromMiss(s: State, op: Op, c: nat)
    requires Missed(PhaseOf(Step(s, op), c)) && !op.Settle? && op != Look(c)
    ensures Missed(PhaseOf(s, c)) && PhaseOf(s, c).key == PhaseOf(Step(s, op), c).key
  {
  }

  lemma ReplyKeepsMiss(s: State, asker: nat, draw: Option<nat>, c: nat)
    requires FlightsAreLed(s) && MissesAreReal(s) && Missed(PhaseOf(Settled(s, asker, draw), c))
    ensures var s' := Settled(s, asker, draw); !Covered(s', PhaseOf(s', c).key)
  {
    var p, q := PhaseOf(s, c), PhaseOf(s, asker);
    if q.Settling? {
      assert c != asker && p == PhaseOf(Settled(s, asker, draw), c);
      assert !Covered(s, p.key);
      if q.role.Leading? {
        assert Leads(p).Some? && Leads(q).Some?;
        assert p.key != q.key;
      }
    }
  }

  lemma LostStaysLost(log: seq<Event>, more: seq<Event>, i: int, j: int, key: string)
    requires Lost(log, i, j, key) && j <= |log|
    ensures forall j' :: j <= j' ==> Lost(log + more, i, j', key)
  {
    var k :| i < k < j && 0 <= k < |log| && Loses(log[k], key);
    assert (log + more)[k] == log[k];
  }

  lemma StepAccounts(s: State, op: Op)
    requires CacheAgrees(s) && MissesAreReal(s)
    ensures CacheAgrees(Step(s, op))
  {
    var s' := Step(s, op);
    StepLogsNews(s, op);
    forall i: nat | i < |s'.log| && ByFlight(s'.log[i]) ensures StoredIsAccounted(s', i) {
      if i < |s.log| {
        assert s'.log[i] == s.log[i] && StoredIsAccounted(s, i);
        if Lost(s.log, i, |s.log|, s.log[i].key) {
          LostStaysLost(s.log, News(s, op), i, |s.log|, s.log[i].key);
        } else if op.Settle? {
          ReplyAccounts(s, op.caller, op.draw, i);
        } else {
          OnlyRepliesStore(s, op);
          if op.Remove? && s.log[i].key in op.keys {
            assert s'.log[|s.log|] == Removed(op.keys);
            assert Loses(s'.log[|s.log|], s.log[i].key);
          }
        }
      } else {
        assert op.Settle? && s'.log[i] == News(s, op)[0];
      }
    }
  }

  lemma ReplyAccounts(s: State, asker: nat, draw: Option<nat>, i: nat)
    requires MissesAreReal(s) && i < |s.log| && ByFlight(s.log[i]) && StoredIsAccounted(s, i)
    requires !Lost(s.log, i, |s.log|, s.log[i].key)
    ensures var s' := Settled(s, asker, draw);
            i < |s'.log| && s'.log[i] == s.log[i] && StoredIsAccounted(s', i)
  {
    var s' := Settled(s, asker, draw);
    var p, key := PhaseOf(s, asker), s.log[i].key;
    if p.Settling? && p.key == key && Concluded(s.mem, key, Ttl(s, key), p.reply, draw).1.Ok? {
      if p.role.Leading? {
        assert !Covered(s, key);
      } else {
        assert Loses(s'.log[|s.log|], key);
      }
    }
  }

  lemma StepAsksNeeded(s: State, op: Op)
    requires CacheAgrees(s) && MissesAreReal(s) && AsksAreNeeded(s.log)
    ensures AsksAreNeeded(Step(s, op).log)
  {
    var log' := Step(s, op).log;
    StepLogsNews(s, op);
    forall i: nat, j: nat
      | i < j < |log'| && ByFlight(log'[i]) && log'[j].Asked? && log'[j].role.Leading? && log'[j].key == log'[i].key
      ensures Lost(log', i, j, log'[i].key) || log'[i].expiresAt < log'[j].at
    {
      assert log'[i] == s.log[i];
      if j < |s.log| {
        if Lost(s.log, i, j, s.log[i].key) {
          LostStaysLost(s.log, News(s, op), i, j, s.log[i].key);
        }
      } else {
        assert op.Send? && log'[j] == News(s, op)[0] && Missed(PhaseOf(s, op.caller));
        assert StoredIsAccounted(s, i);
        if Lost(s.log, i, |s.log|, s.log[i].key) {
          LostStaysLost(s.log, News(s, op), i, |s.log|, s.log[i].key);
        }
      }
    }
  }

  // ------------------------------------------------------- where answers come from

  /** The cached answer is what event `i` stored. */
  ghost predicate IsStored(s: State, key: string, i: nat) {
    && key in s.mem.items && i < |s.log| && s.log[i].Stored? && s.log[i].key == key && s.log[i].at <= s.mem.now
    && s.mem.items[key].entry.Positive? && s.mem.items[key].entry.value == s.log[i].json
    && s.mem.items[key].expiresAt == s.log[i].expiresAt
  }

  /** Event `j` served what event `i` had stored, while it was still good. */
  ghost predicate Delivers(log: seq<Event>, i: nat, j: nat) {
    && i < j < |log| && log[i].Stored? && log[j].Served? && log[i].key == log[j].key && log[i].json == log[j].json
    && log[i].at <= log[j].at <= log[i].expiresAt
  }

  ghost predicate AnswersHaveSources(s: State) {
    && (forall key :: key in s.mem.items ==> exists i: nat :: IsStored(s, key, i))
    && (forall j: nat :: j < |s.log| && s.log[j].Served? ==> exists i: nat :: Delivers(s.log, i, j))
    && (forall i :: 0 <= i < |s.log| && s.log[i].Stored? ==> LivesLongEnough(s, s.log[i]))
  }

  /** The least time for which an answer is kept. */
  function Kept(ttl: int): (d: int) { ttl - Min(ttl / JITTER_FACTOR, MAX_JITTER_LIMIT) }

  /** An answer is kept for its whole lifetime but for the jitter. */
  predicate LivesLongEnough(s: State, e: Event)
    requires e.Stored?
  {
    var ttl := Ttl(s, e.key);
    e.at < e.expiresAt && e.at + Kept(ttl) <= e.expiresAt <= e.at + ttl
  }

  lemma StepKeepsItems(s: State, op: Op)
    requires AnswersHaveSources(s)
    ensures var s' := Step(s, op); forall key :: key in s'.mem.items ==> exists i: nat :: IsStored(s', key, i)
  {
    var s' := Step(s, op);
    forall key | key in s'.mem.items ensures exists i: nat :: IsStored(s', key, i) {
      if key in s.mem.items && s'.mem.items[key] == s.mem.items[key] {
        var i: nat :| IsStored(s, key, i);
        StepLogsNews(s, op);
        StepMovesWindow(s, op);
        assert IsStored(s', key, i);
      } else {
        if !op.Settle? {
          OnlyRepliesStore(s, op);
        }
        NewItemIsStored(s, op.caller, op.draw, key);
      }
    }
  }

  lemma NewItemIsStored(s: State, asker: nat, draw: Option<nat>, key: string)
    requires var items' := Settled(s, asker, draw).mem.items;
             key in items' && (key in s.mem.items ==> items'[key] != s.mem.items[key])
    ensures IsStored(Settled(s, asker, draw), key, |s.log|)
  {
  }

  lemma StepDelivers(s: State, op: Op)
    requires AnswersHaveSources(s) && LimitsCoincide(s)
    ensures var log' := Step(s, op).log;
            forall j: nat :: j < |log'| && log'[j].Served? ==> exists i: nat :: Delivers(log', i, j)
  {
    var log' := Step(s, op).log;
    StepLogsNews(s, op);
    forall j: nat | j < |log'| && log'[j].Served? ensures exists i: nat :: Delivers(log', i, j) {
      if j < |s.log| {
        var i: nat :| Delivers(s.log, i, j);
        assert Delivers(log', i, j);
      } else {
        assert op.Look? && log'[j] == News(s, op)[0];
        var i: nat :| IsStored(s, log'[j].key, i);
        assert Delivers(log', i, j);
      }
    }
  }

  lemma StepKeepsLives(s: State, op: Op)
    requires AnswersHaveSources(s) && s.ttl > 0
    ensures var s' := Step(s, op); forall i :: 0 <= i < |s'.log| && s'.log[i].Stored? ==> LivesLongEnough(s', s'.log[i])
  {
    StepLogsNews(s, op);
    TtlIsFixed(s, op);
    var s' := Step(s, op);
    forall i | 0 <= i < |s'.log| && s'.log[i].Stored? ensures LivesLongEnough(s', s'.log[i]) {
      if i < |s.log| {
        assert s'.log[i] == s.log[i] && LivesLongEnough(s, s.log[i]);
      } else {
        assert op.Settle? && s'.log[i] == News(s, op)[0];
        StoredLives(s, PhaseOf(s, op.caller).key, PhaseOf(s, op.caller).role, PhaseOf(s, op.caller).reply, op.draw);
      }
    }
  }

  lemma StoredLives(s: State, key: string, role: Role, reply: Reply, draw: Option<nat>)
    requires s.ttl > 0
    ensures var events := EventsOf(s, key, role, reply, draw);
            events != [] && events[0].Stored? ==> LivesLongEnough(s, events[0])
  {
  }

  lemma TtlIsFixed(s: State, op: Op)
    ensures Step(s, op).ttl == s.ttl
  {
  }

  ghost predicate RemovedAfter(log: seq<Event>, i: int, key: string) {
    exists k :: i < k < |log| && 0 <= k && log[k].Removed? && key in log[k].keys
  }

  /** Once stored and never removed, the key has an answer for at least that time,
      though perhaps a later one. */
  ghost predicate StaysKept(s: State, i: nat)
    requires i < |s.log| && s.log[i].Stored?
  {
    var e := s.log[i];
    && e.at <= s.mem.now
    && (RemovedAfter(s.log, i, e.key)
        || (e.key in s.mem.items && s.mem.items[e.key].expiresAt >= e.at + Kept(Ttl(s, e.key))))
  }

  ghost predicate AnswersStayKept(s: State) {
    forall i: nat :: i < |s.log| && s.log[i].Stored? ==> StaysKept(s, i)
  }

  lemma StepStaysKept(s: State, op: Op)
    requires AnswersStayKept(s) && s.ttl > 0
    ensures AnswersStayKept(Step(s, op))
  {
    var s' := Step(s, op);
    StepLogsNews(s, op);
    StepMovesWindow(s, op);
    TtlIsFixed(s, op);
    forall i: nat | i < |s'.log| && s'.log[i].Stored? ensures StaysKept(s', i) {
      if i < |s.log| {
        var key := s.log[i].key;
        assert s'.log[i] == s.log[i] && StaysKept(s, i);
        if RemovedAfter(s.log, i, key) {
          var k :| i < k < |s.log| && 0 <= k && s.log[k].Removed? && key in s.log[k].keys;
          assert s'.log[k] == s.log[k];
        } else if !op.Settle? {
          OnlyRepliesStore(s, op);
          assert op.Remove? ==> s'.log[|s.log|] == Removed(op.keys);
        } else {
          ReplyKeepsAnswer(s, op.caller, op.draw, key);
        }
      } else {
        assert op.Settle? && s'.log[i] == News(s, op)[0];
        ReplyKeepsAnswer(s, op.caller, op.draw, s'.log[i].key);
      }
    }
  }

  /** A reply leaves the cached answer of a key, or puts a fresh one in its place. */
  lemma ReplyKeepsAnswer(s: State, asker: nat, draw: Option<nat>, key: string)
    requires s.ttl > 0
    ensures var items' := Settled(s, asker, draw).mem.items;
            && (key in s.mem.items ==> key in items')
            && (key in items' ==>
                  || (key in s.mem.items && items'[key] == s.mem.items[key])
                  || items'[key].expiresAt >= s.mem.now + Kept(Ttl(s, key)))
    ensures var p := PhaseOf(s, asker);
            p.Settling? && p.key == key && Concluded(s.mem, key, Ttl(s, key), p.reply, draw).1.Ok? ==>
              var items' := Settled(s, asker, draw).mem.items;
              key in items' && items'[key].expiresAt >= s.mem.now + Kept(Ttl(s, key))
  {
  }

  // ------------------------------------------------ what the gateway has to do with it

  predicate Requests(e: Event, c: nat, key: string, role: Role) {
    e.Asked? && e.caller == c && e.key == key && e.role == role
  }

  predicate Replies(e: Event, c: nat, key: string, role: Role, reply: Reply) {
    e.Replied? && e.caller == c && e.key == key && e.role == role && e.reply == reply
  }

  /** The event is a good reply with this document, to a request for this key. */
  predicate Answers(e: Event, key: string, role: Role, json: Document) {
    e.Replied? && e.key == key && e.role == role && Brings(e.reply, json)
  }

  /** Who awaits a reply has asked, and who has one has received it. */
  ghost predicate IsFounded(log: seq<Event>, p: Phase, c: nat) {
    match p
    case Asking(key, role) => exists i: nat :: i < |log| && Requests(log[i], c, key, role)
    case Settling(key, role, reply) => exists i: nat :: i < |log| && Replies(log[i], c, key, role, reply)
    case _ => true
  }

  /** A reply answers a request of the same caller, and what is stored came in a reply. */
  ghost predicate IsBacked(log: seq<Event>, j: nat)
    requires j < |log|
  {
    match log[j]
    case Replied(c, key, role, _, _) => exists i: nat :: i < j && Requests(log[i], c, key, role)
    case Stored(key, role, json, _, _) => exists i: nat :: i < j && Answers(log[i], key, role, json)
    case _ => true
  }

  ghost predicate AllIsBacked(s: State) {
    && (forall c: nat :: IsFounded(s.log, PhaseOf(s, c), c))
    && (forall j: nat :: j < |s.log| ==> IsBacked(s.log, j))
  }

  lemma StaysFounded(log: seq<Event>, more: seq<Event>, p: Phase, c: nat)
    requires IsFounded(log, p, c)
    ensures IsFounded(log + more, p, c)
  {
    if p.Asking? {
      var i: nat :| i < |log| && Requests(log[i], c, p.key, p.role);
      assert (log + more)[i] == log[i];
    } else if p.Settling? {
      var i: nat :| i < |log| && Replies(log[i], c, p.key, p.role, p.reply);
      assert (log + more)[i] == log[i];
    }
  }

  lemma StaysBacked(log: seq<Event>, more: seq<Event>, j: nat)
    requires j < |log| && IsBacked(log, j)
    ensures IsBacked(log + more, j)
  {
    assert forall i :: 0 <= i < |log| ==> (log + more)[i] == log[i];
    if log[j].Replied? {
      var i: nat :| i < j && Requests(log[i], log[j].caller, log[j].key, log[j].role);
      assert (log + more)[i] == log[i];
    } else if log[j].Stored? {
      var i: nat :| i < j && Answers(log[i], log[j].key, log[j].role, log[j].json);
      assert (log + more)[i] == log[i];
    }
  }

  lemma StepIsFounded(s: State, op: Op, c: nat)
    requires IsFounded(s.log, PhaseOf(s, c), c)
    ensures IsFounded(Step(s, op).log, PhaseOf(Step(s, op), c), c)
  {
    var s' := Step(s, op);
    StepLogsNews(s, op);
    StaysFounded(s.log, News(s, op), PhaseOf(s, c), c);
    if Mover(op) != Some(c) {
      OthersStay(s, op, c);
    } else if op.Send? && PhaseOf(s, c).Sending? {
      assert Requests(s'.log[|s.log|], c, PhaseOf(s', c).key, PhaseOf(s', c).role);
    } else if op.Receive? && PhaseOf(s, c).Asking? {
      assert Replies(s'.log[|s.log|], c, PhaseOf(s', c).key, PhaseOf(s', c).role, op.reply);
    }
  }

  lemma NewsIsBacked(s: State, op: Op)
    requires op.Receive? || op.Settle? ==> IsFounded(s.log, PhaseOf(s, op.caller), op.caller)
    requires News(s, op) != []
    ensures IsBacked(s.log + News(s, op), |s.log|)
  {
    var log' := s.log + News(s, op);
    if op.Receive? {
      var p := PhaseOf(s, op.caller);
      var i: nat :| i < |s.log| && Requests(s.log[i], op.caller, p.key, p.role);
      assert log'[i] == s.log[i];
    } else if op.Settle? {
      var p := PhaseOf(s, op.caller);
      var i: nat :| i < |s.log| && Replies(s.log[i], op.caller, p.key, p.role, p.reply);
      assert log'[i] == s.log[i];
      assert log'[|s.log|].Stored? ==> Answers(log'[i], p.key, p.role, log'[|s.log|].json);
    }
  }

  lemma StepIsBacked(s: State, op: Op)
    requires AllIsBacked(s)
    ensures AllIsBacked(Step(s, op))
  {
    var s' := Step(s, op);
    StepLogsNews(s, op);
    forall c: nat ensures IsFounded(s'.log, PhaseOf(s', c), c) {
      assert IsFounded(s.log, PhaseOf(s, c), c);
      StepIsFounded(s, op, c);
    }
    forall j: nat | j < |s'.log| ensures IsBacked(s'.log, j) {
      if j < |s.log| {
        StaysBacked(s.log, News(s, op), j);
      } else {
        assert op.Receive? || op.Settle? ==> IsFounded(s.log, PhaseOf(s, op.caller), op.caller);
        NewsIsBacked(s, op);
      }
    }
  }

  /** A reply that takes effect decides by itself what its caller is told, and whether
      its document is cached. */
  lemma ReplyDecidesAnswer(s: State, c: nat, draw: Option<nat>)
    requires PhaseOf(s, c).Settling?
    ensures var (p, s') := (PhaseOf(s, c), Settled(s, c, draw));
            var q := PhaseOf(s', c);
            && (q.Landing? || q.Done?)
            && (forall json :: q.answer == Ok(json) <==> Brings(p.reply, json))
            && (forall error :: q.answer == Err(error) <==> FailsWith(p.reply, error))
            && (q.answer.Err? ==> s'.mem.items == s.mem.items)
            && (q.answer.Ok? ==>
                  && p.key in s'.mem.items && s'.mem.items - {p.key} == s.mem.items - {p.key}
                  && s'.mem.items[p.key].entry.Positive? && s'.mem.items[p.key].entry.value == q.answer.value)
  {
  }

  // -------------------------------------------------------------------- all runs

  ghost predicate Valid(s: State) {
    && FlightsAreLed(s) && AnswersAreShared(s) && BackoffAgrees(s) && LimitsCoincide(s)
    && MissesAreReal(s) && CacheAgrees(s) && AsksAreNeeded(s.log) && AnswersHaveSources(s) && AnswersStayKept(s)
    && AllIsBacked(s)
  }

  lemma StepIsValid(s: State, op: Op)
    requires Valid(s)
    ensures Valid(Step(s, op))
  {
    StepIsLed(s, op);
    StepShares(s, op);
    StepKeepsBackoff(s, op);
    StepKeepsLimits(s, op);
    StepKeepsMisses(s, op);
    StepAccounts(s, op);
    StepAsksNeeded(s, op);
    StepKeepsItems(s, op);
    StepDelivers(s, op);
    StepKeepsLives(s, op);
    StepStaysKept(s, op);
    StepIsBacked(s, op);
  }

  lemma {:induction false} RunIsValid(ttl: int, start: nat, ops: seq<Op>)
    requires ttl > 0
    ensures Valid(Run(Initial(ttl, start), ops)) && Run(Initial(ttl, start), ops).ttl == ttl
  {
    if ops != [] {
      var before := Run(Initial(ttl, start), ops[..|ops| - 1]);
      RunIsValid(ttl, start, ops[..|ops| - 1]);
      StepIsValid(before, ops[|ops| - 1]);
      TtlIsFixed(before, ops[|ops| - 1]);
    }
  }

  // ------------------------------------------------------ what all interleavings keep

  /** At most one request per key is under way for reads that are not forced. */
  lemma OneRequestPerKey(ttl: int, start: nat, ops: seq<Op>, c: nat, d: nat)
    requires ttl > 0
    requires var s := Run(Initial(ttl, start), ops);
             && PhaseOf(s, c).Asking? && PhaseOf(s, d).Asking? && PhaseOf(s, c).key == PhaseOf(s, d).key
             && PhaseOf(s, c).role != Forced && PhaseOf(s, d).role != Forced
    ensures c == d
  {
    RunIsValid(ttl, start, ops);
    var s := Run(Initial(ttl, start), ops);
    assert Leads(PhaseOf(s, c)).Some? && Leads(PhaseOf(s, d)).Some?;
  }

  /** Callers that share a flight get the same answer. */
  lemma SharersAgree(ttl: int, start: nat, ops: seq<Op>, c: nat, d: nat)
    requires ttl > 0
    requires var s := Run(Initial(ttl, start), ops);
             && PhaseOf(s, c).Done? && PhaseOf(s, d).Done?
             && PhaseOf(s, c).shared.Some? && PhaseOf(s, c).shared == PhaseOf(s, d).shared
    ensures var s := Run(Initial(ttl, start), ops); PhaseOf(s, c).answer == PhaseOf(s, d).answer
  {
    RunIsValid(ttl, start, ops);
    var s := Run(Initial(ttl, start), ops);
    assert Shares(s, c) && Shares(s, d);
  }

  /** Whatever is cached is the document of a reply below status 400, received for that
      very key by a caller that had asked for it; no error page gets in. */
  lemma StoredWasReplied(ttl: int, start: nat, ops: seq<Op>, j: nat)
    requires ttl > 0
    requires var log := Run(Initial(ttl, start), ops).log; j < |log| && log[j].Stored?
    ensures var log := Run(Initial(ttl, start), ops).log;
            exists i: nat, k: nat :: IsChain(log, k, i, j)
  {
    RunIsValid(ttl, start, ops);
    var log := Run(Initial(ttl, start), ops).log;
    assert IsBacked(log, j);
    var i: nat :| i < j && Answers(log[i], log[j].key, log[j].role, log[j].json);
    assert IsBacked(log, i);
    var k: nat :| k < i && Requests(log[k], log[i].caller, log[i].key, log[i].role);
    assert IsChain(log, k, i, j);
  }

  /** Event `k` asked for what event `i` brought and event `j` stored. */
  ghost predicate IsChain(log: seq<Event>, k: nat, i: nat, j: nat) {
    && k < i < j < |log| && log[k].Asked? && log[i].Replied? && log[j].Stored?
    && log[k].caller == log[i].caller && log[k].key == log[i].key == log[j].key
    && log[i].reply.Http? && log[i].reply.status < 400 && log[i].reply.body.Some?
    && log[i].reply.body.value.json == Some(log[j].json)
  }

  /** Whoever comes to join waits for the flight that is under way for its key, or else
      leads a new one whose number nobody has had. Either way nothing is asked yet. */
  lemma JoinerWaitsOrLeads(ttl: int, start: nat, ops: seq<Op>, c: nat)
    requires ttl > 0 && PhaseOf(Run(Initial(ttl, start), ops), c).Joining?
    ensures var s := Run(Initial(ttl, start), ops);
            var (key, p) := (PhaseOf(s, c).key, PhaseOf(Joined(s, c), c));
            && Joined(s, c).log == s.log && Joined(s, c).mem == s.mem
            && (if key in s.flights then p == Waiting(key, s.flights[key].id) && Joined(s, c).flights == s.flights
                else p.LookingAgain? && p.key == key && p.flight !in s.answers
                     && (forall k :: k in s.flights ==> s.flights[k].id != p.flight)
                     && Joined(s, c).flights == s.flights[key := Flight(p.flight, c)])
  {
    RunIsValid(ttl, start, ops);
  }

  /** Whoever waits ends with the very answer that the leader of its flight lands with,
      whatever the others do in between and however long it takes to look. */
  lemma WaiterGetsLeadersAnswer(ttl: int, start: nat, ops: seq<Op>, c: nat, l: nat, more: seq<Op>)
    requires ttl > 0
    requires var s := Run(Initial(ttl, start), ops);
             && PhaseOf(s, c).Waiting? && PhaseOf(s, l).Landing? && PhaseOf(s, l).flight == PhaseOf(s, c).flight
    requires forall n :: 0 <= n < |more| ==> Mover(more[n]) != Some(c)
    ensures var s := Run(Initial(ttl, start), ops);
            PhaseOf(Shared(Run(Landed(s, l), more), c), c) == Done(PhaseOf(s, l).answer, Some(PhaseOf(s, c).flight))
  {
    RunIsValid(ttl, start, ops);
    LandedAnswerIsShared(Run(Initial(ttl, start), ops), c, l, more);
  }

  lemma LandedAnswerIsShared(s: State, c: nat, l: nat, more: seq<Op>)
    requires FlightsAreLed(s)
    requires PhaseOf(s, c).Waiting? && PhaseOf(s, l).Landing? && PhaseOf(s, l).flight == PhaseOf(s, c).flight
    requires forall n :: 0 <= n < |more| ==> Mover(more[n]) != Some(c)
    ensures PhaseOf(Shared(Run(Landed(s, l), more), c), c) == Done(PhaseOf(s, l).answer, Some(PhaseOf(s, c).flight))
  {
    var s1 := Landed(s, l);
    EndedIsLed(s, l);
    OthersStay(s, Land(l), c);
    AnswersStay(s1, more, PhaseOf(s, c).flight);
    WaiterStays(s1, more, c);
    SharedEnds(Run(s1, more), c);
  }

  lemma SharedEnds(s: State, c: nat)
    requires PhaseOf(s, c).Waiting? && PhaseOf(s, c).flight in s.answers
    ensures var f := PhaseOf(s, c).flight; PhaseOf(Shared(s, c), c) == Done(s.answers[f], Some(f))
  {
  }

  lemma {:induction false} AnswersStay(s: State, more: seq<Op>, f: nat)
    requires FlightsAreLed(s) && f in s.answers
    ensures FlightsAreLed(Run(s, more))
    ensures f in Run(s, more).answers && Run(s, more).answers[f] == s.answers[f]
  {
    if more != [] {
      AnswersStay(s, more[..|more| - 1], f);
      StepIsLed(Run(s, more[..|more| - 1]), more[|more| - 1]);
      StepKeepsAnswer(Run(s, more[..|more| - 1]), more[|more| - 1], f);
    }
  }

  lemma StepKeepsAnswer(s: State, op: Op, f: nat)
    requires FlightsAreLed(s) && f in s.answers
    ensures f in Step(s, op).answers && Step(s, op).answers[f] == s.answers[f]
  {
    if EndsFlight(s, op) {
      assert Leads(PhaseOf(s, op.caller)).Some?;
    } else if !OpensFlight(s, op) {
      OtherStepsKeepFlights(s, op);
    }
  }

  lemma {:induction false} WaiterStays(s: State, more: seq<Op>, c: nat)
    requires forall n :: 0 <= n < |more| ==> Mover(more[n]) != Some(c)
    ensures PhaseOf(Run(s, more), c) == PhaseOf(s, c)
  {
    if more != [] {
      WaiterStays(s, more[..|more| - 1], c);
      OthersStay(Run(s, more[..|more| - 1]), more[|more| - 1], c);
    }
  }

  /** Once a flight has stored an answer, no flight asks for that key again until the
      answer has expired, was removed, or was overwritten by a forced read. */
  lemma NoRequestWhileCovered(ttl: int, start: nat, ops: seq<Op>, i: nat, j: nat)
    requires ttl > 0
    requires var log := Run(Initial(ttl, start), ops).log;
             i < j < |log| && ByFlight(log[i]) && log[j].Asked? && log[j].role != Forced && log[j].key == log[i].key
    ensures var log := Run(Initial(ttl, start), ops).log; Lost(log, i, j, log[i].key) || log[i].expiresAt < log[j].at
  {
    RunIsValid(ttl, start, ops);
  }

  /** Every request passed a gate, and at that time every rate limit known then had
      run out; a forced read is no exception. */
  lemma NoRequestInsideBackoff(ttl: int, start: nat, ops: seq<Op>, j: nat)
    requires ttl > 0
    requires var log := Run(Initial(ttl, start), ops).log; j < |log| && log[j].Asked?
    ensures var log := Run(Initial(ttl, start), ops).log;
            && log[j].gate < j && OpensFor(log[log[j].gate], log[j].caller, log[j].key, log[j].role)
            && forall i :: 0 <= i < log[j].gate && log[i].Limited? ==> log[i].at + log[i].delay <= log[log[j].gate].at
  {
    RunIsValid(ttl, start, ops);
  }

  /** The window is the furthest end of all rate limits; it is never more than a
      minute away and is over a minute after the last of them. */
  ghost predicate WindowIsBounded(s: State) {
    && Remaining(s.mem) <= MAX_BACKOFF
    && (forall i :: 0 <= i < |s.log| && s.log[i].Limited? ==> s.log[i].at + s.log[i].delay <= s.mem.until)
    && (NoLimit(s.log, s.mem.until) || exists i :: 0 <= i < |s.log| && Ends(s.log[i], s.mem.until))
    && (forall i :: IsLastLimit(s.log, i) ==> s.mem.until <= s.log[i].at + MAX_BACKOFF)
  }

  lemma BackoffIsBounded(ttl: int, start: nat, ops: seq<Op>)
    requires ttl > 0
    ensures WindowIsBounded(Run(Initial(ttl, start), ops))
  {
    RunIsValid(ttl, start, ops);
    AgreedWindowIsBounded(Run(Initial(ttl, start), ops));
  }

  lemma AgreedWindowIsBounded(s: State)
    requires WindowAgrees(s.log, s.mem.until, s.mem.now)
    ensures WindowIsBounded(s)
  {
    if !NoLimit(s.log, s.mem.until) {
      var k :| 0 <= k < |s.log| && Ends(s.log[k], s.mem.until);
      forall i | IsLastLimit(s.log, i) ensures s.mem.until <= s.log[i].at + MAX_BACKOFF {
        assert k <= i;
      }
    }
  }

  ghost predicate IsLastLimit(log: seq<Event>, i: int) {
    0 <= i < |log| && log[i].Limited? && forall j :: i < j < |log| ==> !log[j].Limited?
  }

  /** What the cache serves was answered by the gateway for this key, at most one
      lifetime ago. */
  lemma ServedIsRecent(ttl: int, start: nat, ops: seq<Op>, j: nat)
    requires ttl > 0
    requires var log := Run(Initial(ttl, start), ops).log; j < |log| && log[j].Served?
    ensures var s := Run(Initial(ttl, start), ops);
            var lifetime := if s.log[j].key == "SITE_CONFIG" then 59 * SECOND else ttl;
            exists i: nat :: Delivers(s.log, i, j) && s.log[j].at - s.log[i].at <= lifetime
                             && LivesLongEnough(s, s.log[i])
  {
    RunIsValid(ttl, start, ops);
    var s := Run(Initial(ttl, start), ops);
    var i: nat :| Delivers(s.log, i, j);
    assert LivesLongEnough(s, s.log[i]);
  }

  /** Once stored and not removed, a key is answered from the cache by every first
      look up to the lifetime less the largest jitter, whoever stored it. */
  lemma StoredIsServed(ttl: int, start: nat, ops: seq<Op>, i: nat, c: nat)
    requires ttl > 0
    requires var s := Run(Initial(ttl, start), ops);
             && i < |s.log| && s.log[i].Stored? && !RemovedAfter(s.log, i, s.log[i].key)
             && s.mem.now <= s.log[i].at + Kept(if s.log[i].key == "SITE_CONFIG" then 59 * SECOND else ttl)
             && PhaseOf(s, c) == Looking(s.log[i].key)
    ensures var s := Run(Initial(ttl, start), ops);
            PhaseOf(Looked(s, c), c).Done? && PhaseOf(Looked(s, c), c).answer.Ok?
  {
    RunIsValid(ttl, start, ops);
    var s := Run(Initial(ttl, start), ops);
    assert StaysKept(s, i);
    KeptIsServed(s, c);
  }

  lemma KeptIsServed(s: State, c: nat)
    requires LimitsCoincide(s) && PhaseOf(s, c).Looking?
    requires var key := PhaseOf(s, c).key; key in s.mem.items && s.mem.now <= s.mem.items[key].expiresAt
    ensures PhaseOf(Looked(s, c), c).Done? && PhaseOf(Looked(s, c), c).answer.Ok?
  {
  }

  // ------------------------------------------------------------- reads never forced

  predicate NeverForces(op: Op) { op.Begin? ==> !op.force }

  ghost predicate NobodyForces(s: State) {
    && (forall c: nat :: !Forces(PhaseOf(s, c)))
    && (forall k :: 0 <= k < |s.log| && s.log[k].Stored? ==> s.log[k].role != Forced)
  }

  predicate Forces(p: Phase) { (p.AtGate? || p.Sending? || p.Asking? || p.Settling?) && p.role == Forced }

  lemma StepForcesNobody(s: State, op: Op)
    requires NobodyForces(s) && NeverForces(op)
    ensures NobodyForces(Step(s, op))
  {
    StepLogsNews(s, op);
    forall c: nat ensures !Forces(PhaseOf(Step(s, op), c)) {
      assert !Forces(PhaseOf(s, c));
      if Mover(op) != Some(c) {
        OthersStay(s, op, c);
      }
    }
  }

  lemma {:induction false} RunForcesNobody(ttl: int, start: nat, ops: seq<Op>)
    requires forall n :: 0 <= n < |ops| ==> NeverForces(ops[n])
    ensures NobodyForces(Run(Initial(ttl, start), ops))
  {
    if ops != [] {
      RunForcesNobody(ttl, start, ops[..|ops| - 1]);
      StepForcesNobody(Run(Initial(ttl, start), ops[..|ops| - 1]), ops[|ops| - 1]);
    }
  }

  /** Among reads that are not forced, only expiry or a removal lets a key be asked
      for again. */
  lemma UnforcedReadsAskOncePerLifetime(ttl: int, start: nat, ops: seq<Op>, i: nat, j: nat)
    requires ttl > 0 && forall n :: 0 <= n < |ops| ==> NeverForces(ops[n])
    requires var log := Run(Initial(ttl, start), ops).log;
             i < j < |log| && log[i].Stored? && log[j].Asked? && log[j].key == log[i].key && log[j].role != Forced
    ensures var log := Run(Initial(ttl, start), ops).log;
            || log[i].expiresAt < log[j].at
            || exists k :: i < k < j && log[k].Removed? && log[i].key in log[k].keys
  {
    RunForcesNobody(ttl, start, ops);
    NoRequestWhileCovered(ttl, start, ops, i, j);
    var log := Run(Initial(ttl, start), ops).log;
    if Lost(log, i, j, log[i].key) {
      var k :| i < k < j && 0 <= k < |log| && Loses(log[k], log[i].key);
    }
  }

  // ---------------------------------------------------------- nobody waits for ever

  function Ahead(s: State, c: nat): (s': State) { Sent(Gated(Looked(s, c), c), c) }

  predicate Arriving(p: Phase) { p.Asking? || p.Settling? || p.Landing? }

  function Home(s: State, c: nat): (s': State) { Landed(Settled(Received(s, c, NoReply), c, None), c) }

  lemma LeaderCanAsk(s: State, c: nat)
    requires Leads(PhaseOf(s, c)).Some?
    ensures var s' := Ahead(s, c);
            && Leads(PhaseOf(s', c)) == Leads(PhaseOf(s, c)) && Arriving(PhaseOf(s', c))
            && forall d: nat :: d != c ==> PhaseOf(s', d) == PhaseOf(s, d)
  {
    var s1 := Looked(s, c);
    assert Leads(PhaseOf(s1, c)) == Leads(PhaseOf(s, c)) && !PhaseOf(s1, c).LookingAgain?;
    var s2 := Gated(s1, c);
    assert Leads(PhaseOf(s2, c)) == Leads(PhaseOf(s, c)) && !PhaseOf(s2, c).LookingAgain? && !PhaseOf(s2, c).AtGate?;
  }

  lemma LeaderCanLand(s: State, c: nat)
    requires Leads(PhaseOf(s, c)).Some? && Arriving(PhaseOf(s, c))
    ensures Leads(PhaseOf(s, c)).value.1 in Home(s, c).answers
    ensures forall d: nat :: d != c ==> PhaseOf(Home(s, c), d) == PhaseOf(s, d)
  {
    var s1 := Settled(Received(s, c, NoReply), c, None);
    assert Leads(PhaseOf(s1, c)) == Leads(PhaseOf(s, c)) && PhaseOf(s1, c).Landing?;
  }

  /** In no interleaving is a waiting caller stuck: its flight has a leader whose own
      steps bring it the answer. */
  lemma WaitersCanFinish(ttl: int, start: nat, ops: seq<Op>, c: nat)
    requires ttl > 0 && PhaseOf(Run(Initial(ttl, start), ops), c).Waiting?
    ensures exists more: seq<Op> :: PhaseOf(Run(Run(Initial(ttl, start), ops), more), c).Done?
  {
    RunIsValid(ttl, start, ops);
    var more := WayOut(Run(Initial(ttl, start), ops), c);
  }

  lemma WayOut(s: State, c: nat) returns (more: seq<Op>)
    requires FlightsAreLed(s) && Shares(s, c) && PhaseOf(s, c).Waiting?
    ensures PhaseOf(Run(s, more), c).Done?
  {
    var p := PhaseOf(s, c);
    more := [];
    if p.flight !in s.answers {
      var l := s.flights[p.key].leader;
      LeaderCanAsk(s, l);
      LeaderCanLand(Ahead(s, l), l);
      more := LeadersWay(s, l);
    }
    ShareFinishes(s, more, c);
    more := more + [Share(c)];
  }

  lemma ShareFinishes(s: State, ops: seq<Op>, c: nat)
    requires PhaseOf(Run(s, ops), c).Waiting? && PhaseOf(Run(s, ops), c).flight in Run(s, ops).answers
    ensures PhaseOf(Run(s, ops + [Share(c)]), c).Done?
  {
    RunOne(s, ops, Share(c));
  }

  /** Steps of its leader alone end a flight, even if the gateway never answers. */
  lemma LeadersWay(s: State, l: nat) returns (more: seq<Op>)
    ensures Run(s, more) == Home(Ahead(s, l), l)
  {
    RunTwo(s, [], Look(l), Gate(l));
    more := [] + [Look(l), Gate(l)];
    RunTwo(s, more, Send(l), Receive(l, NoReply));
    more := more + [Send(l), Receive(l, NoReply)];
    RunTwo(s, more, Settle(l, None), Land(l));
    more := more + [Settle(l, None), Land(l)];
  }

  lemma RunOne(s: State, ops: seq<Op>, op: Op)
    ensures Run(s, ops + [op]) == Step(Run(s, ops), op)
  {
    assert (ops + [op])[..|ops|] == ops;
  }

  lemma RunTwo(s: State, ops: seq<Op>, a: Op, b: Op)
    ensures Run(s, ops + [a, b]) == Step(Step(Run(s, ops), a), b)
  {
    var first := ops + [a];
    assert ops + [a, b] == first + [b];
    RunOne(s, first, b);
    RunOne(s, ops, a);
  }

  // ------------------------------------------------------------ one caller alone

  ghost predicate OnlyBy(ops: seq<Op>, c: nat) {
    forall n :: 0 <= n < |ops| ==> ops[n].Tick? || (!ops[n].WriteLimited? && !ops[n].Remove? && ops[n].caller == c)
  }

  /** These steps end the read of `c` with what the client's own method does. */
  ghost predicate EndsAsFetch(s: State, ops: seq<Op>, c: nat, key: string, force: bool, elapsed: nat, reply: Reply,
                              draw: Option<nat>) {
    var s' := Run(s, ops);
    var (mem', answer) := Fetch(s.mem, key, Ttl(s, key), force, elapsed, reply, draw);
    s'.mem == mem' && PhaseOf(s', c).Done? && PhaseOf(s', c).answer == answer && s'.flights == s.flights
  }

  /** With nobody in its way, the steps of one read come to what the client's own
      method does. */
  lemma AloneIsFetch(s: State, c: nat, key: string, force: bool, elapsed: nat, reply: Reply, draw: Option<nat>)
    returns (ops: seq<Op>)
    requires (PhaseOf(s, c).Idle? || PhaseOf(s, c).Done?) && key !in s.flights
    ensures EndsAsFetch(s, ops, c, key, force, elapsed, reply, draw)
    ensures OnlyBy(ops, c)
  {
    if force {
      ops := ForcedAlone(s, c, key, elapsed, reply, draw);
    } else {
      ops := UnforcedAlone(s, c, key, elapsed, reply, draw);
    }
  }

  lemma ForcedAlone(s: State, c: nat, key: string, elapsed: nat, reply: Reply, draw: Option<nat>) returns (ops: seq<Op>)
    requires PhaseOf(s, c).Idle? || PhaseOf(s, c).Done?
    ensures EndsAsFetch(s, ops, c, key, true, elapsed, reply, draw) && OnlyBy(ops, c)
  {
    ops := [] + [Begin(c, key, true), Gate(c)];
    ForcedStart(s, c, key);
    ForcedFetch(s.mem, key, Ttl(s, key), elapsed, reply, draw);
    if Remaining(s.mem) <= 0 {
      ops := AskAlone(s, ops, c, elapsed, reply, draw);
    }
  }

  lemma ForcedFetch(m: Memory, key: string, ttl: int, elapsed: nat, reply: Reply, draw: Option<nat>)
    ensures Fetch(m, key, ttl, true, elapsed, reply, draw)
            == if Remaining(m) > 0 then (m, Err(RateLimited))
               else Concluded(m.(now := m.now + elapsed), key, ttl, reply, draw)
  {
  }

  lemma ForcedStart(s: State, c: nat, key: string)
    requires PhaseOf(s, c).Idle? || PhaseOf(s, c).Done?
    ensures var s' := Run(s, [] + [Begin(c, key, true), Gate(c)]);
            && s'.mem == s.mem && s'.flights == s.flights && s'.ttl == s.ttl
            && PhaseOf(s', c)
               == if Remaining(s.mem) > 0 then Done(Err(RateLimited), None) else Sending(key, Forced, |s.log|)
  {
    RunTwo(s, [], Begin(c, key, true), Gate(c));
  }

  lemma UnforcedAlone(s: State, c: nat, key: string, elapsed: nat, reply: Reply, draw: Option<nat>)
    returns (ops: seq<Op>)
    requires (PhaseOf(s, c).Idle? || PhaseOf(s, c).Done?) && key !in s.flights
    ensures EndsAsFetch(s, ops, c, key, false, elapsed, reply, draw) && OnlyBy(ops, c)
  {
    ops := [] + [Begin(c, key, false), Look(c)];
    RunTwo(s, [], Begin(c, key, false), Look(c));
    if !Live(s.mem.items, key, Ttl(s, key), s.mem.now) {
      ops := FlyAlone(s, ops, c, elapsed, reply, draw);
    }
  }

  /** What a request comes to when its reply takes effect after some time. */
  ghost predicate EndsAsConcluded(before: State, after: State, c: nat, key: string, role: Role, elapsed: nat,
                                  reply: Reply, draw: Option<nat>) {
    var (mem', answer) := Concluded(before.mem.(now := before.mem.now + elapsed), key, Ttl(before, key), reply, draw);
    && after.mem == mem' && after.flights == before.flights
    && PhaseOf(after, c) == if role.Leading? then Landing(key, role.flight, answer) else Done(answer, None)
  }

  /** From a gate just passed to the reply. */
  lemma AskAlone(s: State, ops: seq<Op>, c: nat, elapsed: nat, reply: Reply, draw: Option<nat>) returns (ops': seq<Op>)
    requires PhaseOf(Run(s, ops), c).Sending? && OnlyBy(ops, c)
    ensures OnlyBy(ops', c)
    ensures var p := PhaseOf(Run(s, ops), c);
            EndsAsConcluded(Run(s, ops), Run(s, ops'), c, p.key, p.role, elapsed, reply, draw)
  {
    SendAlone(s, ops, c, elapsed);
    ops' := ops + [Send(c), Tick(elapsed)];
    SettleAlone(s, ops', c, reply, draw);
    ops' := ops' + [Receive(c, reply), Settle(c, draw)];
  }

  lemma SendAlone(s: State, ops: seq<Op>, c: nat, elapsed: nat)
    requires PhaseOf(Run(s, ops), c).Sending?
    ensures var (before, after) := (Run(s, ops), Run(s, ops + [Send(c), Tick(elapsed)]));
            && after.mem == before.mem.(now := before.mem.now + elapsed) && after.flights == before.flights
            && after.ttl == before.ttl && PhaseOf(after, c) == Asking(PhaseOf(before, c).key, PhaseOf(before, c).role)
  {
    RunTwo(s, ops, Send(c), Tick(elapsed));
  }

  lemma SettleAlone(s: State, ops: seq<Op>, c: nat, reply: Reply, draw: Option<nat>)
    requires PhaseOf(Run(s, ops), c).Asking?
    ensures var (before, after) := (Run(s, ops), Run(s, ops + [Receive(c, reply), Settle(c, draw)]));
            EndsAsConcluded(before, after, c, PhaseOf(before, c).key, PhaseOf(before, c).role, 0, reply, draw)
  {
    RunTwo(s, ops, Receive(c, reply), Settle(c, draw));
  }

  /** The caller has found nothing, and neither is anybody else after this key. */
  ghost predicate IsAlone(s: State, c: nat) {
    var p := PhaseOf(s, c);
    p.Entering? && p.key !in s.flights && !Live(s.mem.items, p.key, Ttl(s, p.key), s.mem.now)
  }

  /** Through the group and past its second look. */
  lemma JoinAlone(s: State, ops: seq<Op>, c: nat) returns (ops': seq<Op>)
    requires IsAlone(Run(s, ops), c) && Remaining(Run(s, ops).mem) <= 0 && OnlyBy(ops, c)
    ensures OnlyBy(ops', c)
    ensures var (before, after) := (Run(s, ops), Run(s, ops'));
            var (key, p) := (PhaseOf(before, c).key, PhaseOf(after, c));
            && after.mem == before.mem && after.ttl == before.ttl
            && after.flights == before.flights[key := Flight(before.next, c)]
            && p.Sending? && p.key == key && p.role.Leading?
  {
    RunTwo(s, ops, Gate(c), Join(c));
    var joined := ops + [Gate(c), Join(c)];
    RunTwo(s, joined, Look(c), Gate(c));
    ops' := joined + [Look(c), Gate(c)];
  }

  /** Turned away at the first gate. */
  lemma TurnedAwayAlone(s: State, ops: seq<Op>, c: nat)
    requires PhaseOf(Run(s, ops), c).Entering? && Remaining(Run(s, ops).mem) > 0
    ensures var (before, after) := (Run(s, ops), Run(s, ops + [Gate(c)]));
            && after.mem == before.mem && after.flights == before.flights
            && PhaseOf(after, c) == Done(Err(RateLimited), None)
  {
    RunOne(s, ops, Gate(c));
  }

  lemma LandAlone(s: State, ops: seq<Op>, c: nat)
    requires PhaseOf(Run(s, ops), c).Landing?
    ensures var (before, after) := (Run(s, ops), Run(s, ops + [Land(c)]));
            && after.mem == before.mem && after.flights == before.flights - {PhaseOf(before, c).key}
            && PhaseOf(after, c) == Done(PhaseOf(before, c).answer, Some(PhaseOf(before, c).flight))
  {
    RunOne(s, ops, Land(c));
  }

  /** Through the group, out to the gateway and home. */
  lemma FlyThrough(s: State, ops: seq<Op>, c: nat, elapsed: nat, reply: Reply, draw: Option<nat>)
    returns (ops': seq<Op>)
    requires IsAlone(Run(s, ops), c) && Remaining(Run(s, ops).mem) <= 0 && OnlyBy(ops, c)
    ensures OnlyBy(ops', c)
    ensures var (before, after) := (Run(s, ops), Run(s, ops'));
            var key := PhaseOf(before, c).key;
            var (mem', answer) := Concluded(before.mem.(now := before.mem.now + elapsed), key, Ttl(before, key),
                                            reply, draw);
            && after.mem == mem' && after.flights == before.flights
            && PhaseOf(after, c).Done? && PhaseOf(after, c).answer == answer
  {
    var before := Run(s, ops);
    var key := PhaseOf(before, c).key;
    var joined := JoinAlone(s, ops, c);
    var asked := AskAlone(s, joined, c, elapsed, reply, draw);
    LandAlone(s, asked, c);
    assert before.flights[key := Flight(before.next, c)] - {key} == before.flights;
    ops' := asked + [Land(c)];
  }

  /** From a first look that found nothing to the end. */
  lemma FlyAlone(s: State, ops: seq<Op>, c: nat, elapsed: nat, reply: Reply, draw: Option<nat>) returns (ops': seq<Op>)
    requires IsAlone(Run(s, ops), c) && OnlyBy(ops, c)
    ensures OnlyBy(ops', c)
    ensures var (before, after) := (Run(s, ops), Run(s, ops'));
            var key := PhaseOf(before, c).key;
            var (mem', answer) := Fetch(before.mem, key, Ttl(before, key), false, elapsed, reply, draw);
            && after.mem == mem' && after.flights == before.flights
            && PhaseOf(after, c).Done? && PhaseOf(after, c).answer == answer
  {
    var before := Run(s, ops);
    var key := PhaseOf(before, c).key;
    MissedFetch(before.mem, key, Ttl(before, key), elapsed, reply, draw);
    if Remaining(before.mem) > 0 {
      TurnedAwayAlone(s, ops, c);
      ops' := ops + [Gate(c)];
    } else {
      ops' := FlyThrough(s, ops, c, elapsed, reply, draw);
    }
  }

  lemma MissedFetch(m: Memory, key: string, ttl: int, elapsed: nat, reply: Reply, draw: Option<nat>)
    requires !Live(m.items, key, ttl, m.now)
    ensures Fetch(m, key, ttl, false, elapsed, reply, draw)
            == if Remaining(m) > 0 then (m, Err(RateLimited))
               else Concluded(m.(now := m.now + elapsed), key, ttl, reply, draw)
  {
  }
}
