/** The proxy's resilience layer: every gateway call is counted, a successful answer
    is kept as the last known good one, and a failed call or a degraded connection
    falls back on it. */
module Proxy {
  import opened Common
  import opened FallbackCache
  import opened Metrics

  const URI_STATS_MAX := 100

  /** What a gateway call may return: a text, bytes read as a text, or another value
      with its JSON form, if it has one, and its printed form. */
  datatype Value = Text(text: string) | Bytes(bytes: string) | Other(json: Option<string>, printed: string)

  datatype Reply = Failed | Nothing | Got(value: Value)

  /** What a caller is handed: nothing, the fresh value, or the saved text. */
  datatype Served = NoData | Fresh(value: Value) | FromSaved(text: string)

  datatype Config = Config(failFast: bool, graceful: bool, threshold: int, cacheExpire: int)

  /** A call that reached the gateway since the counters were last reset. */
  datatype Attempt = Attempt(endpoint: string, reply: Reply, at: int)

  /** A route body that a generator made. */
  datatype Made = Made(endpoint: string, text: string, at: int)

  datatype State = State(health: Health, stats: Stats, saved: map<string, Saved>, bodies: map<string, Body>,
                         attempts: seq<Attempt>, made: seq<Made>)

  function Serialize(v: Value): (text: string) {
    match v
    case Text(text) => text
    case Bytes(bytes) => bytes
    case Other(json, printed) => if json.Some? then json.value else printed
  }

  // --------------------------------------------------- what one call amounts to

  function Fallback(s: State, endpoint: string): (served: Served) {
    if endpoint in s.saved then FromSaved(s.saved[endpoint].text) else NoData
  }

  predicate FailsFast(s: State, cfg: Config, endpoint: string) {
    cfg.failFast && s.health.isDegraded && endpoint in s.saved
  }

  /** A call whose reply is there: it is counted, and saved or made good. */
  function Completed(s: State, cfg: Config, endpoint: string, reply: Reply, now: int): (r: (State, Served)) {
    var s1 := s.(stats := s.stats[endpoint := Counted(StatOf(s.stats, endpoint), reply.Got?, now)],
                 attempts := s.attempts + [Attempt(endpoint, reply, now)]);
    if reply.Got? then
      (s1.(health := AfterSuccess(s.health, now),
           saved := if cfg.graceful then s.saved[endpoint := Saved(now, Serialize(reply.value))] else s.saved),
       Fresh(reply.value))
    else
      (s1.(health := AfterFailure(s.health, cfg.threshold)), if cfg.graceful then Fallback(s, endpoint) else NoData)
  }

  function Called(s: State, cfg: Config, endpoint: string, reply: Reply, now: int): (r: (State, Served)) {
    if FailsFast(s, cfg, endpoint) then (s, Fallback(s, endpoint)) else Completed(s, cfg, endpoint, reply, now)
  }

  function CountersReset(s: State, now: int): (s': State) {
    s.(health := Health(0, 0, 0, false, now), stats := map[], saved := map[], attempts := [])
  }

  // -------------------------------------------------- what one route amounts to

  /** The text a route answers with, if any; `generated` is what the generator
      returns if it is asked. */
  function Route(s: State, cfg: Config, endpoint: string, generated: Option<string>, now: int)
    : (r: (State, Option<string>))
  {
    var cached := if cfg.cacheExpire > 0 then BodyAt(s.bodies, endpoint, now) else None;
    if cached.Some? then (s, cached)
    else if generated.None? || generated.value == "" then
      (s, if cfg.graceful && endpoint in s.saved then Some(s.saved[endpoint].text) else generated)
    else
      (s.(bodies := if cfg.cacheExpire > 0 then s.bodies[endpoint := Body(generated.value, now + cfg.cacheExpire)]
          else s.bodies,
          made := s.made + [Made(endpoint, generated.value, now)]), generated)
  }

  // ---------------------------------------------------------------- the server

  /** Counters of the requests served, and of those by address. */
  datatype Requests = Requests(gets: nat, errors: nat, timeouts: nat, uris: map<string, nat>)

  function Recorded(r: Requests, uri: string, isErr: bool, isTimeout: bool): (r': Requests) {
    if isTimeout then r.(timeouts := r.timeouts + 1)
    else if isErr then r.(errors := r.errors + 1)
    else
      r.(gets := r.gets + 1,
         uris := if |r.uris| < URI_STATS_MAX then r.uris[uri := (if uri in r.uris then r.uris[uri] else 0) + 1]
           else r.uris)
  }

  /** Clearing leaves only the timeouts. */
  function Cleared(r: Requests): (r': Requests) { Requests(0, 0, r.timeouts, map[]) }

  class Server {
    const cfg: Config
    const health: ConnectionHealth
    const endpointStats: EndpointStatsTracker
    const degradedCache: DegradationCache
    const perfCache: PerformanceCache
    var requests: Requests
    ghost var attempts: seq<Attempt>
    ghost var made: seq<Made>

    constructor (cfg: Config, cacheTTL: int, now: int)
      ensures View() == Initial(now) && this.cfg == cfg && requests == Requests(0, 0, 0, map[])
      ensures perfCache.ttl == cfg.cacheExpire
      ensures fresh(health) && fresh(endpointStats) && fresh(degradedCache) && fresh(perfCache)
    {
      this.cfg := cfg;
      health := new ConnectionHealth(now);
      endpointStats := new EndpointStatsTracker();
      degradedCache := new DegradationCache(cacheTTL);
      perfCache := new PerformanceCache(cfg.cacheExpire);
      requests, attempts, made := Requests(0, 0, 0, map[]), [], [];
    }

    ghost function View(): State
      reads this, health, endpointStats, degradedCache, perfCache
    {
      State(health.View(), endpointStats.stats, degradedCache.entries, perfCache.bodies, attempts, made)
    }

    method RecordStats(uri: string, isErr: bool, isTimeout: bool)
      modifies `requests
      ensures requests == Recorded(old(requests), uri, isErr, isTimeout)
    {
      if isTimeout {
        requests := requests.(timeouts := requests.timeouts + 1);
        return;
      }
      if isErr {
        requests := requests.(errors := requests.errors + 1);
        return;
      }
      requests := requests.(gets := requests.gets + 1);
      if |requests.uris| < URI_STATS_MAX {
        var n := if uri in requests.uris then requests.uris[uri] else 0;
        requests := requests.(uris := requests.uris[uri := n + 1]);
      }
    }

    method ClearStats()
      modifies `requests
      ensures requests == Cleared(old(requests))
    {
      requests := requests.(gets := 0, errors := 0, uris := map[]);
    }

    method SafePWCall(endpoint: string, reply: Reply, now: int) returns (served: Served)
      modifies `attempts, health, endpointStats, degradedCache
      ensures (View(), served) == Called(old(View()), cfg, endpoint, reply, now)
    {
      if cfg.failFast && health.isDegraded {
        var text, _ := degradedCache.Get(endpoint, now);
        if text.Some? {
          return FromSaved(text.value);
        }
      }
      var success := reply.Got?;
      endpointStats.Record(endpoint, success, now);
      attempts := attempts + [Attempt(endpoint, reply, now)];
      if success {
        health.RecordSuccess(now);
        if cfg.graceful {
          degradedCache.Set(endpoint, Serialize(reply.value), now);
        }
        return Fresh(reply.value);
      }
      health.RecordFailure(cfg.threshold);
      if cfg.graceful {
        var text, _ := degradedCache.Get(endpoint, now);
        if text.Some? {
          return FromSaved(text.value);
        }
      }
      return NoData;
    }

    method ResetHealth(now: int) returns (cleared: nat, endpointsCleared: nat)
      modifies `attempts, health, endpointStats, degradedCache
      ensures View() == CountersReset(old(View()), now)
      ensures cleared == |old(degradedCache.entries)| && endpointsCleared == |old(endpointStats.stats)|
    {
      health.Reset(now);
      cleared := degradedCache.Clear();
      endpointsCleared := endpointStats.Reset();
      attempts := [];
    }

    method FetchRoute(endpoint: string, generated: Option<string>, now: int) returns (text: Option<string>)
      requires perfCache.ttl == cfg.cacheExpire
      modifies `made, perfCache
      ensures (View(), text) == Route(old(View()), cfg, endpoint, generated, now)
    {
      if cfg.cacheExpire > 0 {
        text := perfCache.Get(endpoint, now);
        if text.Some? {
          return;
        }
      }
      if generated.None? || generated.value == "" {
        if cfg.graceful {
          var saved, _ := degradedCache.Get(endpoint, now);
          if saved.Some? {
            return saved;
          }
        }
        return generated;
      }
      made := made + [Made(endpoint, generated.value, now)];
      if cfg.cacheExpire > 0 {
        perfCache.Set(endpoint, generated.value, now);
      }
      return generated;
    }

    /** `joined` is the result of the flight that this request joins, if one is under
        way for the route. An empty text is no answer. */
    method CachedRouteHandler(endpoint: string, joined: Option<Option<string>>, generated: Option<string>, now: int)
      returns (text: string, ok: bool)
      requires perfCache.ttl == cfg.cacheExpire
      modifies `made, perfCache
      ensures (View(), (text, ok)) == Handled(old(View()), cfg, endpoint, joined, generated, now)
    {
      if cfg.cacheExpire > 0 {
        var cached := perfCache.Get(endpoint, now);
        if cached.Some? {
          return cached.value, true;
        }
      }
      var res: Option<string>;
      if joined.Some? {
        res := joined.value;
      } else {
        res := FetchRoute(endpoint, generated, now);
      }
      if res.Some? && res.value != "" {
        return res.value, true;
      }
      return "", false;
    }
  }

  function AsAnswer(text: Option<string>): (r: (string, bool)) {
    if text.Some? && text.value != "" then (text.value, true) else ("", false)
  }

  /** What a route handler does and hands out. */
  function Handled(s: State, cfg: Config, endpoint: string, joined: Option<Option<string>>, generated: Option<string>,
                   now: int)
    : (r: (State, (string, bool)))
  {
    var cached := if cfg.cacheExpire > 0 then BodyAt(s.bodies, endpoint, now) else None;
    if cached.Some? then (s, (cached.value, true))
    else if joined.Some? then (s, AsAnswer(joined.value))
    else
      var (s', text) := Route(s, cfg, endpoint, generated, now);
      (s', AsAnswer(text))
  }

  function Initial(now: int): (s: State) { State(Health(0, 0, 0, false, now), map[], map[], map[], [], []) }

  // -------------------------------------------------- what the attempts amount to

  function Attempts(log: seq<Attempt>, endpoint: string): (n: nat) {
    if log == [] then 0
    else Attempts(log[..|log| - 1], endpoint) + if log[|log| - 1].endpoint == endpoint then 1 else 0
  }

  function Successes(log: seq<Attempt>, endpoint: string): (n: nat) {
    if log == [] then 0
    else Successes(log[..|log| - 1], endpoint)
         + if log[|log| - 1].endpoint == endpoint && log[|log| - 1].reply.Got? then 1 else 0
  }

  /** Failures since the last success, of any endpoint. */
  function TrailingFailures(log: seq<Attempt>): (n: nat) {
    if log == [] || log[|log| - 1].reply.Got? then 0 else TrailingFailures(log[..|log| - 1]) + 1
  }

  function LastGood(log: seq<Attempt>, endpoint: string): (a: Option<Attempt>)
    ensures a.Some? ==> a.value.reply.Got? && a.value.endpoint == endpoint
  {
    if log == [] then None
    else
      var last := log[|log| - 1];
      if last.endpoint == endpoint && last.reply.Got? then Some(last) else LastGood(log[..|log| - 1], endpoint)
  }

  function LastFailure(log: seq<Attempt>, endpoint: string): (at: Option<int>) {
    if log == [] then None
    else
      var last := log[|log| - 1];
      if last.endpoint == endpoint && !last.reply.Got? then Some(last.at) else LastFailure(log[..|log| - 1], endpoint)
  }

  /** The statistics of an endpoint are exactly what its attempts say. */
  ghost predicate StatAgrees(st: Stat, log: seq<Attempt>, endpoint: string) {
    && st.totalCalls == Attempts(log, endpoint) && st.successfulCalls == Successes(log, endpoint)
    && st.totalCalls == st.successfulCalls + st.failedCalls
    && st.lastSuccess == (if LastGood(log, endpoint).Some? then Some(LastGood(log, endpoint).value.at) else None)
    && st.lastFailure == LastFailure(log, endpoint)
  }

  /** The saved text of an endpoint is the form of its last good answer. */
  ghost predicate SavedAgrees(saved: map<string, Saved>, log: seq<Attempt>, endpoint: string) {
    && (endpoint in saved <==> LastGood(log, endpoint).Some?)
    && (endpoint in saved ==>
          var good := LastGood(log, endpoint).value; saved[endpoint] == Saved(good.at, Serialize(good.reply.value)))
  }

  ghost function CallCounts(stats: Stats): (m: map<string, nat>) { map e | e in stats :: stats[e].totalCalls }

  ghost function SuccessCounts(stats: Stats): (m: map<string, nat>) { map e | e in stats :: stats[e].successfulCalls }

  /** The flag says that failures have piled up to the threshold. */
  ghost predicate HealthAgrees(h: Health, log: seq<Attempt>, threshold: int) {
    && h.consecutiveFailures == TrailingFailures(log)
    && (h.isDegraded <==> threshold > 0 && h.consecutiveFailures >= threshold)
    && h.totalSuccesses + h.totalFailures == |log|
  }

  ghost predicate SumsAgree(s: State) {
    && Sum(CallCounts(s.stats)) == s.health.totalSuccesses + s.health.totalFailures
    && Sum(SuccessCounts(s.stats)) == s.health.totalSuccesses
  }

  ghost predicate Agrees(s: State, cfg: Config) {
    && HealthAgrees(s.health, s.attempts, cfg.threshold) && SumsAgree(s)
    && (forall e: string :: StatAgrees(StatOf(s.stats, e), s.attempts, e))
    && (if cfg.graceful then forall e: string :: SavedAgrees(s.saved, s.attempts, e) else s.saved == map[])
  }

  lemma OneMore(log: seq<Attempt>, a: Attempt, endpoint: string)
    ensures Attempts(log + [a], endpoint) == Attempts(log, endpoint) + if a.endpoint == endpoint then 1 else 0
    ensures Successes(log + [a], endpoint)
            == Successes(log, endpoint) + if a.endpoint == endpoint && a.reply.Got? then 1 else 0
    ensures TrailingFailures(log + [a]) == if a.reply.Got? then 0 else TrailingFailures(log) + 1
    ensures LastGood(log + [a], endpoint)
            == if a.endpoint == endpoint && a.reply.Got? then Some(a) else LastGood(log, endpoint)
    ensures LastFailure(log + [a], endpoint)
            == if a.endpoint == endpoint && !a.reply.Got? then Some(a.at) else LastFailure(log, endpoint)
  {
    assert (log + [a])[..|log|] == log;
  }

  lemma CompletedKeepsSums(s: State, cfg: Config, endpoint: string, reply: Reply, now: int)
    requires SumsAgree(s)
    ensures SumsAgree(Completed(s, cfg, endpoint, reply, now).0)
  {
    var st := Counted(StatOf(s.stats, endpoint), reply.Got?, now);
    var stats' := s.stats[endpoint := st];
    assert CallCounts(stats') == CallCounts(s.stats)[endpoint := st.totalCalls];
    assert SuccessCounts(stats') == SuccessCounts(s.stats)[endpoint := st.successfulCalls];
    SumUpdated(CallCounts(s.stats), endpoint, st.totalCalls);
    SumUpdated(SuccessCounts(s.stats), endpoint, st.successfulCalls);
  }

  lemma CompletedKeepsHealth(s: State, cfg: Config, endpoint: string, reply: Reply, now: int)
    requires HealthAgrees(s.health, s.attempts, cfg.threshold)
    ensures var s' := Completed(s, cfg, endpoint, reply, now).0; HealthAgrees(s'.health, s'.attempts, cfg.threshold)
  {
    OneMore(s.attempts, Attempt(endpoint, reply, now), endpoint);
  }

  lemma CompletedKeepsEntries(s: State, cfg: Config, endpoint: string, reply: Reply, now: int, e: string)
    requires StatAgrees(StatOf(s.stats, e), s.attempts, e) && (cfg.graceful ==> SavedAgrees(s.saved, s.attempts, e))
    ensures var s' := Completed(s, cfg, endpoint, reply, now).0;
            StatAgrees(StatOf(s'.stats, e), s'.attempts, e) && (cfg.graceful ==> SavedAgrees(s'.saved, s'.attempts, e))
  {
    OneMore(s.attempts, Attempt(endpoint, reply, now), e);
  }

  lemma CompletedAgrees(s: State, cfg: Config, endpoint: string, reply: Reply, now: int)
    requires Agrees(s, cfg)
    ensures Agrees(Completed(s, cfg, endpoint, reply, now).0, cfg)
  {
    CompletedKeepsSums(s, cfg, endpoint, reply, now);
    CompletedKeepsHealth(s, cfg, endpoint, reply, now);
    var s' := Completed(s, cfg, endpoint, reply, now).0;
    forall e: string
      ensures StatAgrees(StatOf(s'.stats, e), s'.attempts, e)
      ensures cfg.graceful ==> SavedAgrees(s'.saved, s'.attempts, e)
    {
      assert StatAgrees(StatOf(s.stats, e), s.attempts, e);
      assert cfg.graceful ==> SavedAgrees(s.saved, s.attempts, e);
      CompletedKeepsEntries(s, cfg, endpoint, reply, now, e);
    }
  }

  // -------------------------------------------------------------------- runs

  /** A shared call has joined the request of another one; whether it fails fast was
      decided when it joined, and it is completed with the reply of that request. */
  datatype Op =
    | CallOp(endpoint: string, reply: Reply, now: int)
    | SharedOp(endpoint: string, reply: Reply, now: int)
    | RouteOp(endpoint: string, generated: Option<string>, now: int)
    | ResetOp(now: int)

  function Step(s: State, cfg: Config, op: Op): (s': State) {
    match op
    case CallOp(endpoint, reply, now) => Called(s, cfg, endpoint, reply, now).0
    case SharedOp(endpoint, reply, now) => Completed(s, cfg, endpoint, reply, now).0
    case RouteOp(endpoint, generated, now) => Route(s, cfg, endpoint, generated, now).0
    case ResetOp(now) => CountersReset(s, now)
  }

  function Run(s: State, cfg: Config, ops: seq<Op>): (s': State) {
    if ops == [] then s else Step(Run(s, cfg, ops[..|ops| - 1]), cfg, ops[|ops| - 1])
  }

  function LastMade(made: seq<Made>, endpoint: string): (m: Option<Made>) {
    if made == [] then None
    else if made[|made| - 1].endpoint == endpoint then Some(made[|made| - 1])
    else LastMade(made[..|made| - 1], endpoint)
  }

  /** The kept body of a route is the last one made for it, and lives as long as
      configured. */
  ghost predicate BodyAgrees(s: State, cfg: Config, endpoint: string) {
    var last := LastMade(s.made, endpoint);
    && (endpoint in s.bodies <==> cfg.cacheExpire > 0 && last.Some?)
    && (endpoint in s.bodies ==> s.bodies[endpoint] == Body(last.value.text, last.value.at + cfg.cacheExpire))
    && (last.Some? ==> last.value.text != "")
  }

  ghost predicate BodiesAgree(s: State, cfg: Config) { forall e: string :: BodyAgrees(s, cfg, e) }

  lemma RouteKeepsBodies(s: State, cfg: Config, endpoint: string, generated: Option<string>, now: int)
    requires BodiesAgree(s, cfg)
    ensures BodiesAgree(Route(s, cfg, endpoint, generated, now).0, cfg)
  {
    var s' := Route(s, cfg, endpoint, generated, now).0;
    forall e: string ensures BodyAgrees(s', cfg, e) {
      assert BodyAgrees(s, cfg, e);
      if s'.made != s.made {
        assert s'.made[..|s.made|] == s.made;
      }
    }
  }

  lemma StepKeepsBodies(s: State, cfg: Config, op: Op)
    requires BodiesAgree(s, cfg)
    ensures BodiesAgree(Step(s, cfg, op), cfg)
  {
    var s' := Step(s, cfg, op);
    if op.RouteOp? {
      RouteKeepsBodies(s, cfg, op.endpoint, op.generated, op.now);
    } else {
      forall e: string ensures BodyAgrees(s', cfg, e) {
        assert BodyAgrees(s, cfg, e);
      }
    }
  }

  lemma StepAgrees(s: State, cfg: Config, op: Op)
    requires Agrees(s, cfg)
    ensures Agrees(Step(s, cfg, op), cfg)
  {
    match op
    case CallOp(endpoint, reply, now) => CompletedAgrees(s, cfg, endpoint, reply, now);
    case SharedOp(endpoint, reply, now) => CompletedAgrees(s, cfg, endpoint, reply, now);
    case RouteOp(_, _, _) =>
    case ResetOp(now) => ResetAgrees(s, cfg, now);
  }

  lemma ResetAgrees(s: State, cfg: Config, now: int)
    ensures Agrees(CountersReset(s, now), cfg)
  {
    assert CallCounts(map[]) == map[] && SuccessCounts(map[]) == map[];
  }

  lemma {:induction false} RunAgrees(cfg: Config, start: int, ops: seq<Op>)
    ensures Agrees(Run(Initial(start), cfg, ops), cfg) && BodiesAgree(Run(Initial(start), cfg, ops), cfg)
  {
    if ops == [] {
      ResetAgrees(Initial(start), cfg, start);
    } else {
      RunAgrees(cfg, start, ops[..|ops| - 1]);
      StepAgrees(Run(Initial(start), cfg, ops[..|ops| - 1]), cfg, ops[|ops| - 1]);
      StepKeepsBodies(Run(Initial(start), cfg, ops[..|ops| - 1]), cfg, ops[|ops| - 1]);
    }
  }

  // ------------------------------------------------------------ what runs keep

  /** The tables of the endpoints and the totals tell the same story. */
  lemma CountsSumToTotals(cfg: Config, start: int, ops: seq<Op>)
    ensures var s := Run(Initial(start), cfg, ops);
            && Sum(CallCounts(s.stats)) == s.health.totalSuccesses + s.health.totalFailures == |s.attempts|
            && Sum(SuccessCounts(s.stats)) == s.health.totalSuccesses
  {
    RunAgrees(cfg, start, ops);
  }

  /** The connection counts as degraded exactly when failures since the last success
      or reset have reached a positive threshold. */
  lemma DegradedExactlyAtThreshold(cfg: Config, start: int, ops: seq<Op>)
    ensures var s := Run(Initial(start), cfg, ops);
            && (s.health.isDegraded <==> cfg.threshold > 0 && TrailingFailures(s.attempts) >= cfg.threshold)
            && s.health.consecutiveFailures == TrailingFailures(s.attempts)
  {
    RunAgrees(cfg, start, ops);
  }

  /** The last good answer of any endpoint since the last reset. */
  function LastGoodOfAny(log: seq<Attempt>): (a: Option<Attempt>) {
    if log == [] then None
    else if log[|log| - 1].reply.Got? then Some(log[|log| - 1])
    else LastGoodOfAny(log[..|log| - 1])
  }

  function LastReset(start: int, ops: seq<Op>): (at: int) {
    if ops == [] then start
    else if ops[|ops| - 1].ResetOp? then ops[|ops| - 1].now
    else LastReset(start, ops[..|ops| - 1])
  }

  /** `since` is the time of the start or of the last reset. */
  predicate SuccessAgrees(s: State, since: int) {
    var good := LastGoodOfAny(s.attempts);
    s.health.lastSuccess == if good.Some? then good.value.at else since
  }

  lemma StepKeepsSuccess(s: State, cfg: Config, op: Op, since: int)
    requires SuccessAgrees(s, since)
    ensures SuccessAgrees(Step(s, cfg, op), if op.ResetOp? then op.now else since)
  {
    var s' := Step(s, cfg, op);
    if s'.attempts != s.attempts && !op.ResetOp? {
      assert s'.attempts[..|s.attempts|] == s.attempts;
    }
  }

  /** The time of the last success is that of the last good answer, or of the start or
      reset after which there was none. */
  lemma {:induction false} LastSuccessIsTold(cfg: Config, start: int, ops: seq<Op>)
    ensures SuccessAgrees(Run(Initial(start), cfg, ops), LastReset(start, ops))
  {
    if ops != [] {
      var n := |ops| - 1;
      LastSuccessIsTold(cfg, start, ops[..n]);
      StepKeepsSuccess(Run(Initial(start), cfg, ops[..n]), cfg, ops[n], LastReset(start, ops[..n]));
    }
  }

  /** What every call is handed, in terms of the attempts since the last reset. */
  lemma CallIsServed(cfg: Config, start: int, ops: seq<Op>, endpoint: string, reply: Reply, now: int)
    ensures var s := Run(Initial(start), cfg, ops);
            var good := LastGood(s.attempts, endpoint);
            var spared := cfg.failFast && cfg.graceful && good.Some?
                          && 0 < cfg.threshold <= TrailingFailures(s.attempts);
            var (s', served) := Called(s, cfg, endpoint, reply, now);
            && served == (if !spared && reply.Got? then Fresh(reply.value)
                          else if cfg.graceful && good.Some? then FromSaved(Serialize(good.value.reply.value))
                          else NoData)
            && (if spared then s' == s else s'.attempts == s.attempts + [Attempt(endpoint, reply, now)])
    ensures var s := Run(Initial(start), cfg, ops);
            var good := LastGood(s.attempts, endpoint);
            Completed(s, cfg, endpoint, reply, now).1
            == (if reply.Got? then Fresh(reply.value)
                else if cfg.graceful && good.Some? then FromSaved(Serialize(good.value.reply.value))
                else NoData)
  {
    RunAgrees(cfg, start, ops);
    var s := Run(Initial(start), cfg, ops);
    assert cfg.graceful ==> SavedAgrees(s.saved, s.attempts, endpoint);
  }

  /** The form in which this value is to survive an outage. */
  predicate IsFormOf(text: string, v: Value) {
    && (v.Text? ==> text == v.text)
    && (v.Bytes? ==> text == v.bytes)
    && (v.Other? && v.json.Some? ==> text == v.json.value)
    && (v.Other? && v.json.None? ==> text == v.printed)
  }

  /** An answer survives an outage: with the fallback on, a failed call gets the last
      good answer of its endpoint, a text or bytes unchanged, whatever other endpoints
      did in between. */
  lemma AnswerSurvivesOutage(cfg: Config, start: int, ops: seq<Op>, endpoint: string, now: int)
    requires cfg.graceful && LastGood(Run(Initial(start), cfg, ops).attempts, endpoint).Some?
    ensures var s := Run(Initial(start), cfg, ops);
            var served := Called(s, cfg, endpoint, Failed, now).1;
            served.FromSaved? && IsFormOf(served.text, LastGood(s.attempts, endpoint).value.reply.value)
  {
    CallIsServed(cfg, start, ops, endpoint, Failed, now);
  }

  /** Failing fast can freeze the connection: as long as only endpoints with a saved
      answer are asked, no call reaches the gateway, whatever it would answer, and
      the connection stays degraded. */
  lemma {:induction false} FailFastFreezes(s: State, cfg: Config, ops: seq<Op>)
    requires forall i :: 0 <= i < |ops| ==> ops[i].CallOp? && FailsFast(s, cfg, ops[i].endpoint)
    ensures Run(s, cfg, ops) == s
  {
    if ops != [] {
      FailFastFreezes(s, cfg, ops[..|ops| - 1]);
    }
  }

  /** What every route request is answered with, told from the history alone: the body
      made last for the route while it is recent; else what the generator makes, or
      what the flight it joins came to; else, if the generator makes nothing, the last
      good answer; and nothing exactly when that is missing too or empty. */
  lemma RouteIsFaithful(cfg: Config, start: int, ops: seq<Op>, endpoint: string, generated: Option<string>, now: int)
    ensures var s := Run(Initial(start), cfg, ops);
            var last, good := LastMade(s.made, endpoint), LastGood(s.attempts, endpoint);
            var recent := cfg.cacheExpire > 0 && last.Some? && now <= last.value.at + cfg.cacheExpire;
            var alone := Handled(s, cfg, endpoint, None, generated, now).1;
            && alone == (if recent then (last.value.text, true)
                         else if generated.Some? && generated.value != "" then (generated.value, true)
                         else if cfg.graceful && good.Some? then AsAnswer(Some(Serialize(good.value.reply.value)))
                         else ("", false))
            && (alone.1 <==> alone.0 != "")
            && (forall text :: Handled(s, cfg, endpoint, Some(text), generated, now)
                               == (s, if recent then (last.value.text, true) else AsAnswer(text)))
  {
    RunAgrees(cfg, start, ops);
    var s := Run(Initial(start), cfg, ops);
    assert BodyAgrees(s, cfg, endpoint);
    assert cfg.graceful ==> SavedAgrees(s.saved, s.attempts, endpoint);
  }

  // ------------------------------------------------------------ request counters

  /** One request, and how it ended; or a clearing of the counters in between. */
  datatype Request = Request(uri: string, isErr: bool, isTimeout: bool) | Clear

  function AllRecorded(log: seq<Request>): (r: Requests) {
    if log == [] then Requests(0, 0, 0, map[])
    else
      var before, last := AllRecorded(log[..|log| - 1]), log[|log| - 1];
      if last.Clear? then Cleared(before) else Recorded(before, last.uri, last.isErr, last.isTimeout)
  }

  /** Addresses of the requests that were served since the last clearing. */
  function ServedUris(log: seq<Request>): (uris: seq<string>) {
    if log == [] then []
    else
      var before, last := ServedUris(log[..|log| - 1]), log[|log| - 1];
      if last.Clear? then [] else if last.isErr || last.isTimeout then before else before + [last.uri]
  }

  /** Requests that failed since the last clearing, other than by a timeout. */
  function Failures(log: seq<Request>): (n: nat) {
    if log == [] || log[|log| - 1].Clear? then 0
    else Failures(log[..|log| - 1]) + if log[|log| - 1].isErr && !log[|log| - 1].isTimeout then 1 else 0
  }

  /** Requests that timed out, ever. */
  function Timeouts(log: seq<Request>): (n: nat) {
    if log == [] then 0
    else Timeouts(log[..|log| - 1]) + if log[|log| - 1].Request? && log[|log| - 1].isTimeout then 1 else 0
  }

  /** Every request is counted once: as served, as failed or as timed out. Clearing
      forgets all but the timeouts. */
  lemma {:induction false} EveryRequestCountsOnce(log: seq<Request>)
    ensures AllRecorded(log).gets == |ServedUris(log)|
    ensures AllRecorded(log).errors == Failures(log)
    ensures AllRecorded(log).timeouts == Timeouts(log)
  {
    if log != [] {
      EveryRequestCountsOnce(log[..|log| - 1]);
    }
  }

  ghost predicate IsTally(m: map<string, nat>, uris: seq<string>) {
    && m.Keys == (set u | u in uris)
    && forall u :: u in m ==> m[u] == multiset(uris)[u]
  }

  /** The table counts the first `n` requests served, and all of them until it is full. */
  ghost predicate TalliesPrefix(r: Requests, uris: seq<string>, n: nat) {
    && r.gets == |uris| && n <= |uris| && IsTally(r.uris, uris[..n])
    && |r.uris| <= URI_STATS_MAX && (n < |uris| ==> |r.uris| == URI_STATS_MAX)
  }

  lemma OneMoreServed(r: Requests, uris: seq<string>, n: nat, uri: string) returns (n': nat)
    requires TalliesPrefix(r, uris, n)
    ensures TalliesPrefix(Recorded(r, uri, false, false), uris + [uri], n')
  {
    n' := n;
    assert (uris + [uri])[..n] == uris[..n];
    if |r.uris| < URI_STATS_MAX {
      n' := n + 1;
      assert uris[..n] == uris && (uris + [uri])[..n'] == uris + [uri];
      TallyOneMore(r.uris, uris, uri);
    }
  }

  /** The table by address is exact up to the request that brought the hundredth
      address; from then on, until it is cleared, it is frozen, for known addresses
      too. */
  lemma {:induction false} UriTableIsAPrefixTally(log: seq<Request>) returns (n: nat)
    ensures TalliesPrefix(AllRecorded(log), ServedUris(log), n)
  {
    n := 0;
    if log != [] {
      var last := log[|log| - 1];
      n := UriTableIsAPrefixTally(log[..|log| - 1]);
      if last.Clear? {
        n := 0;
      } else if !last.isErr && !last.isTimeout {
        n := OneMoreServed(AllRecorded(log[..|log| - 1]), ServedUris(log[..|log| - 1]), n, last.uri);
      }
    }
  }

  lemma TallyOneMore(m: map<string, nat>, uris: seq<string>, uri: string)
    requires IsTally(m, uris)
    ensures IsTally(m[uri := (if uri in m then m[uri] else 0) + 1], uris + [uri])
    ensures |m[uri := (if uri in m then m[uri] else 0) + 1]| <= |m| + 1
  {
    var m' := m[uri := (if uri in m then m[uri] else 0) + 1];
    assert m'.Keys == m.Keys + {uri};
    assert |m.Keys + {uri}| <= |m.Keys| + 1;
    assert uri !in m ==> uri !in uris;
  }
}
