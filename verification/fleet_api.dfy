/** The FleetAPI client: a read-through cache whose lifetimes are jittered, and one
    backoff window that every rate-limit answer may extend and every read obeys. */
module FleetApi {
  import opened Common
  import opened ResponseCache

  const DEFAULT_RETRY_AFTER_SEC := 10
  const CAP_RETRY_AFTER_SEC := 60
  const JITTER_FACTOR := 4
  const MAX_JITTER_LIMIT := 10 * SECOND
  const MAX_BACKOFF := CAP_RETRY_AFTER_SEC * SECOND
  const INT_LIMIT := 0x8000_0000_0000_0000

  /** The Retry-After header. `machine` is what the processor makes of a number that
      does not fit an integer. */
  datatype RetryHeader =
    | Absent
    | Number(seconds: real, machine: int)
    | NotFinite(machine: int)
    | Date(at: int)
    | Malformed

  /** A body read to its end: its document, if it is one, and the number of seconds
      it mentions after the word "retry". */
  datatype Body = Body(json: Option<Document>, retrySeconds: Option<nat>)

  datatype Reply = NoReply | Http(status: int, header: RetryHeader, body: Option<Body>)

  /** What all callers share. The clock starts with the first window, already over. */
  datatype Memory = Memory(items: Items<Document>, until: int, now: int)

  // ------------------------------------------------------------ the backoff window

  /** The seconds the header asks for; negative if it asks for nothing usable. */
  function HeaderSeconds(header: RetryHeader, now: int): (sec: int) {
    match header
    case Absent => -1
    case Number(seconds, machine) =>
      if -INT_LIMIT <= Truncate(seconds) < INT_LIMIT then Truncate(seconds) else machine
    case NotFinite(machine) => machine
    case Date(at) => -((now - at) / SECOND)
    case Malformed => -1
  }

  /** The first usable of header, body and default, capped at a minute. */
  function RetryDelay(header: RetryHeader, retrySeconds: Option<nat>, now: int): (delay: int)
    ensures 0 <= delay <= MAX_BACKOFF
  {
    var sec :=
      if HeaderSeconds(header, now) >= 0 then HeaderSeconds(header, now)
      else if retrySeconds.Some? then retrySeconds.value
      else DEFAULT_RETRY_AFTER_SEC;
    Min(sec, CAP_RETRY_AFTER_SEC) * SECOND
  }

  /** Who is listened to: a header that asks for no less than nothing, then the body, then
      nobody, which means ten seconds. */
  lemma HeaderComesFirst(seconds: real, machine: int, retrySeconds: Option<nat>, now: int)
    ensures 0.0 <= seconds <= 60.0 ==>
      RetryDelay(Number(seconds, machine), retrySeconds, now) == seconds.Floor * SECOND
    ensures 60.0 < seconds < INT_LIMIT as real ==>
      RetryDelay(Number(seconds, machine), retrySeconds, now) == 60 * SECOND
    ensures var asked := if retrySeconds.Some? then Min(retrySeconds.value, 60) * SECOND else 10 * SECOND;
            && RetryDelay(Absent, retrySeconds, now) == RetryDelay(Malformed, retrySeconds, now) == asked
            && (-(INT_LIMIT as real) <= seconds <= -1.0 ==>
                  RetryDelay(Number(seconds, machine), retrySeconds, now) == asked)
            && (forall at :: at + SECOND <= now ==> RetryDelay(Date(at), retrySeconds, now) == asked)
    ensures INT_LIMIT as real <= seconds ==>
      RetryDelay(Number(seconds, machine), retrySeconds, now) == RetryDelay(NotFinite(machine), retrySeconds, now)
    ensures machine >= 0 ==> RetryDelay(NotFinite(machine), retrySeconds, now) == Min(machine, 60) * SECOND
    ensures machine < 0 ==>
      RetryDelay(NotFinite(machine), retrySeconds, now) == RetryDelay(Absent, retrySeconds, now)
  {
  }

  /** A date in the header is honoured: up to the cap, the delay ends within the
      second after it. */
  lemma DateIsHonoured(at: int, retrySeconds: Option<nat>, now: int)
    requires now <= at <= now + MAX_BACKOFF
    ensures at <= now + RetryDelay(Date(at), retrySeconds, now) < at + SECOND
  {
    var floor := (now - at) / SECOND;
    assert floor * SECOND <= now - at < floor * SECOND + SECOND;
  }

  method ParseRetryAfter(header: RetryHeader, retrySeconds: Option<nat>, now: int) returns (delay: int)
    ensures delay == RetryDelay(header, retrySeconds, now)
  {
    var delaySec := -1;
    match header {
      case Absent =>
      case Number(seconds, machine) =>
        delaySec := if -INT_LIMIT <= Truncate(seconds) < INT_LIMIT then Truncate(seconds) else machine;
      case NotFinite(machine) =>
        delaySec := machine;
      case Date(at) =>
        delaySec := -((now - at) / SECOND);
      case Malformed =>
    }
    if delaySec < 0 && retrySeconds.Some? {
      delaySec := retrySeconds.value;
    }
    if delaySec < 0 {
      delaySec := DEFAULT_RETRY_AFTER_SEC;
    }
    if delaySec < 0 {
      delaySec := 0;
    } else if delaySec > CAP_RETRY_AFTER_SEC {
      delaySec := CAP_RETRY_AFTER_SEC;
    }
    return delaySec * SECOND;
  }

  function Remaining(m: Memory): (rem: int)
    ensures rem > 0 <==> m.now < m.until
  {
    Max(m.until - m.now, 0)
  }

  // --------------------------------------------------------------- jittered lifetimes

  /** `draw` is a random number, if one could be had. */
  function Jitter(ttl: int, draw: Option<nat>): (jitter: int)
    ensures ttl > 0 ==> 0 <= jitter <= Min(ttl / JITTER_FACTOR, MAX_JITTER_LIMIT) && jitter < ttl
    ensures jitter == 0 || jitter < Min(ttl / JITTER_FACTOR, MAX_JITTER_LIMIT)
  {
    var maxJitter := Min(ttl / JITTER_FACTOR, MAX_JITTER_LIMIT);
    if maxJitter > 0 && draw.Some? then draw.value % maxJitter else 0
  }

  /** Without a random number there is no jitter; with one, every jitter below a quarter
      of the lifetime and below ten seconds can come about. */
  lemma JitterTakesEveryValue(ttl: int, jitter: nat)
    requires 0 <= jitter < Min(ttl / 4, 10 * SECOND)
    ensures Jitter(ttl, None) == 0 && Jitter(ttl, Some(jitter)) == jitter
  {
    SmallRemainder(jitter, Min(ttl / JITTER_FACTOR, MAX_JITTER_LIMIT));
  }

  lemma SmallRemainder(n: nat, m: nat)
    requires n < m
    ensures n % m == n
  {
  }

  /** Back-dated and shortened by the same amount. */
  function JitteredItem(json: Document, ttl: int, jitter: int, now: int): (item: Item<Document>) {
    Item(Positive(now - jitter, json), now + ttl - jitter)
  }

  predicate Live(items: Items<Document>, key: string, ttl: int, now: int) {
    Lookup(items, key, now, Some(ttl)).PositiveHit?
  }

  /** The back-dated time and the shortened lifetime end service at the same instant. */
  lemma BothLimitsCoincide(items: Items<Document>, key: string, json: Document, ttl: int, draw: Option<nat>,
                           fetched: int, now: int)
    requires ttl > 0
    ensures var item := JitteredItem(json, ttl, Jitter(ttl, draw), fetched);
            && item.expiresAt > fetched
            && (now <= item.expiresAt <==> now - item.entry.timestamp <= ttl)
            && (Lookup(items[key := item], key, now, Some(ttl))
                == if now <= item.expiresAt then PositiveHit(json) else Miss)
            && (now > fetched + ttl ==> !Live(items[key := item], key, ttl, now))
            && (now <= fetched + ttl - Min(ttl / JITTER_FACTOR, MAX_JITTER_LIMIT)
                ==> Live(items[key := item], key, ttl, now))
  {
  }

  // ------------------------------------------------------------ what a reply amounts to

  predicate IsRateLimit(reply: Reply) { reply.Http? && reply.body.Some? && reply.status == 429 }

  function Armed(m: Memory, delay: int): (m': Memory) { m.(until := Max(m.until, m.now + delay)) }

  function Concluded(m: Memory, key: string, ttl: int, reply: Reply, draw: Option<nat>)
    : (r: (Memory, Result<Document, HttpError>))
  {
    match reply
    case NoReply => (m, Err(NoConnection))
    case Http(status, header, body) =>
      if body.None? then (m, Err(ReadFailed))
      else if status == 429 then (Armed(m, RetryDelay(header, body.value.retrySeconds, m.now)), Err(RateLimited))
      else if CheckStatus(status).Some? then (m, Err(CheckStatus(status).value))
      else if body.value.json.None? then (m, Err(NotJson))
      else
        (m.(items := m.items[key := JitteredItem(body.value.json.value, ttl, Jitter(ttl, draw), m.now)]),
         Ok(body.value.json.value))
  }

  /** One read with nobody else about. */
  function Fetch(m: Memory, key: string, ttl: int, force: bool, elapsed: nat, reply: Reply, draw: Option<nat>)
    : (r: (Memory, Result<Document, HttpError>))
  {
    var hit := if force then Miss else Lookup(m.items, key, m.now, Some(ttl));
    if hit.PositiveHit? then (m, Ok(hit.value))
    else if Remaining(m) > 0 then (m, Err(RateLimited))
    else Concluded(m.(now := m.now + elapsed), key, ttl, reply, draw)
  }

  /** The reply carries this document, and nothing is wrong with it. */
  predicate Brings(reply: Reply, json: Document) {
    reply.Http? && reply.status < 400 && reply.body.Some? && reply.body.value.json == Some(json)
  }

  /** The error that belongs to a reply without a usable document. */
  ghost predicate FailsWith(reply: Reply, error: HttpError) {
    match error
    case NoConnection => reply.NoReply?
    case ReadFailed => reply.Http? && reply.body.None?
    case LoginFailed => reply.Http? && reply.body.Some? && reply.status in {401, 403}
    case NotFound => reply.Http? && reply.body.Some? && reply.status == 404
    case RateLimited => reply.Http? && reply.body.Some? && reply.status in {429, 503}
    case UnexpectedStatus =>
      reply.Http? && reply.body.Some? && reply.status >= 400 && reply.status !in {401, 403, 404, 429, 503}
    case NotJson => reply.Http? && reply.status < 400 && reply.body.Some? && reply.body.value.json.None?
    case BadRequest => false
  }

  /** The read finds nothing in the cache, or does not look, and no window is open. */
  predicate GoesOut(m: Memory, key: string, ttl: int, force: bool) {
    && m.until <= m.now
    && (force || key !in m.items || m.items[key].expiresAt < m.now || m.items[key].entry.Negative?
        || (ttl > 0 && m.now - m.items[key].entry.timestamp > ttl))
  }

  /** A read that goes out succeeds with exactly the document that its reply brings,
      which it caches under its key alone for a lifetime less the jitter; otherwise the
      cache is left as it was and the status tells the error. Only a 429 that was read
      moves the window, and never back. */
  lemma ReplyDecides(m: Memory, key: string, ttl: int, force: bool, elapsed: nat, reply: Reply, draw: Option<nat>)
    requires ttl > 0 && GoesOut(m, key, ttl, force)
    ensures var (m', res) := Fetch(m, key, ttl, force, elapsed, reply, draw);
            && (forall json :: res == Ok(json) <==> Brings(reply, json))
            && (forall error :: res == Err(error) <==> FailsWith(reply, error))
            && (res.Err? ==> m'.items == m.items)
            && (res.Ok? ==>
                  && key in m'.items && m'.items - {key} == m.items - {key}
                  && m'.items[key].entry.Positive? && m'.items[key].entry.value == res.value
                  && m'.items[key].entry.timestamp + ttl == m'.items[key].expiresAt
                  && 0 <= m'.now - m'.items[key].entry.timestamp <= Min(ttl / JITTER_FACTOR, MAX_JITTER_LIMIT))
  {
  }

  /** When the read is over, and what it did to the window. */
  lemma LimitMovesWindow(m: Memory, key: string, ttl: int, force: bool, elapsed: nat, reply: Reply, draw: Option<nat>)
    requires GoesOut(m, key, ttl, force)
    ensures var m' := Fetch(m, key, ttl, force, elapsed, reply, draw).0;
            && m'.now == m.now + elapsed
            && m'.until
               == if reply.Http? && reply.status == 429 && reply.body.Some?
                  then Max(m.until, m'.now + RetryDelay(reply.header, reply.body.value.retrySeconds, m'.now))
                  else m.until
  {
  }

  /** A read that does not go out changes nothing: it is served what is cached, or told
      to wait. */
  lemma HeldBackRead(m: Memory, key: string, ttl: int, force: bool, elapsed: nat, reply: Reply, draw: Option<nat>)
    requires !GoesOut(m, key, ttl, force)
    ensures var (m', res) := Fetch(m, key, ttl, force, elapsed, reply, draw);
            && m' == m
            && (res.Ok? <==> !GoesOut(m.(until := m.now), key, ttl, force))
            && (res.Ok? ==> key in m.items && m.items[key].entry.Positive? && res.value == m.items[key].entry.value)
            && (res.Err? ==> res.error == RateLimited && m.now < m.until)
  {
  }

  // ---------------------------------------------------------------- the client

  class Client {
    const cache: Cache<Document>
    const cacheTTL: int
    var backoffUntil: int
    var now: int

    constructor (cacheTTL: int, now: nat)
      requires cacheTTL > 0
      ensures View() == Memory(map[], 0, now) && this.cacheTTL == cacheTTL && fresh(cache)
    {
      cache := new Cache<Document>(cacheTTL);
      this.cacheTTL, backoffUntil, this.now := cacheTTL, 0, now;
    }

    ghost function View(): Memory
      reads this, cache
    {
      Memory(cache.items, backoffUntil, now)
    }

    method ArmBackoff(delay: int)
      modifies `backoffUntil
      ensures View() == Armed(old(View()), delay)
    {
      var target := now + delay;
      if target > backoffUntil {
        backoffUntil := target;
      }
    }

    method RateBackoffRemaining() returns (rem: int)
      ensures rem == Remaining(View())
    {
      rem := backoffUntil - now;
      if rem > 0 {
        return rem;
      }
      return 0;
    }

    method SetCacheWithJitter(key: string, json: Document, ttl: int, draw: Option<nat>)
      requires ttl > 0
      modifies cache`items
      ensures cache.items == old(cache.items)[key := JitteredItem(json, ttl, Jitter(ttl, draw), now)]
    {
      var maxJitter := Min(ttl / JITTER_FACTOR, MAX_JITTER_LIMIT);
      var jitter := 0;
      if maxJitter > 0 && draw.Some? {
        jitter := draw.value % maxJitter;
      }
      cache.SetWithTimestamp(key, json, now - jitter, ttl - jitter, now);
    }

    method DoFetchSiteJSON(key: string, ttl: int, elapsed: nat, reply: Reply, draw: Option<nat>)
      returns (res: Result<Document, HttpError>)
      requires ttl > 0
      modifies `backoffUntil, `now, cache`items
      ensures (View(), res) == Concluded(old(View()).(now := old(now) + elapsed), key, ttl, reply, draw)
    {
      now := now + elapsed;
      if reply.NoReply? {
        return Err(NoConnection);
      }
      if reply.body.None? {
        return Err(ReadFailed);
      }
      if reply.status == 429 {
        var delay := ParseRetryAfter(reply.header, reply.body.value.retrySeconds, now);
        ArmBackoff(delay);
        return Err(RateLimited);
      }
      var statusErr := CheckStatus(reply.status);
      if statusErr.Some? {
        return Err(statusErr.value);
      }
      if reply.body.value.json.None? {
        return Err(NotJson);
      }
      SetCacheWithJitter(key, reply.body.value.json.value, ttl, draw);
      return Ok(reply.body.value.json.value);
    }

    /** What the leader of a flight does on behalf of all who wait. */
    method FetchInFlight(key: string, ttl: int, elapsed: nat, reply: Reply, draw: Option<nat>)
      returns (res: Result<Document, HttpError>)
      requires ttl > 0
      modifies `backoffUntil, `now, cache`items
      ensures (View(), res) == Fetch(old(View()), key, ttl, false, elapsed, reply, draw)
    {
      var hit := cache.Get(key, now, Some(ttl));
      if hit.PositiveHit? {
        return Ok(hit.value);
      }
      var rem := RateBackoffRemaining();
      if rem > 0 {
        return Err(RateLimited);
      }
      res := DoFetchSiteJSON(key, ttl, elapsed, reply, draw);
    }

    /** Called with nobody else about; concurrent callers are in module Flights. */
    method FetchSiteJSON(key: string, force: bool, customTTL: Option<int>, elapsed: nat, reply: Reply,
                         draw: Option<nat>)
      returns (res: Result<Document, HttpError>)
      requires cacheTTL > 0
      modifies `backoffUntil, `now, cache`items
      ensures var ttl := if customTTL.Some? && customTTL.value > 0 then customTTL.value else cacheTTL;
              (View(), res) == Fetch(old(View()), key, ttl, force, elapsed, reply, draw)
    {
      var effectiveTTL := cacheTTL;
      if customTTL.Some? && customTTL.value > 0 {
        effectiveTTL := customTTL.value;
      }
      if !force {
        var hit := cache.Get(key, now, Some(effectiveTTL));
        if hit.PositiveHit? {
          return Ok(hit.value);
        }
      }
      var rem := RateBackoffRemaining();
      if rem > 0 {
        return Err(RateLimited);
      }
      if force {
        res := DoFetchSiteJSON(key, effectiveTTL, elapsed, reply, draw);
      } else {
        res := FetchInFlight(key, effectiveTTL, elapsed, reply, draw);
      }
    }
  }
}
