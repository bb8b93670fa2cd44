/** The cached client of the local gateway. One endpoint is kept under two keys,
    one for each representation; answers that say the endpoint is missing, busy
    or closed to us are kept as negative entries under both; an expired session
    is renewed once by a guarded recursion. */
module LocalClient {
  import opened Common
  import opened ResponseCache

  const NEG_CACHE_TTL := 600 * SECOND
  const COOLDOWN_TTL := 300 * SECOND
  const API_DEVICES_VITALS := "/api/devices/vitals"

  /** A response body with the outcome of decoding it. */
  datatype Body = Body(bytes: string, json: Option<Document>)

  /** What callers and the cache hold: the bytes, the decoded document, or the
      text of a body that is no JSON. */
  datatype Content = Raw(bytes: string) | Parsed(json: Document) | Text(text: string)

  /** The representation of a body that a caller asked for. */
  function Represent(body: Body, raw: bool): (c: Content) {
    if raw then Raw(body.bytes) else if body.json.Some? then Parsed(body.json.value) else Text(body.bytes)
  }

  /** Neither representation loses anything of a body that cannot be decoded, nor the
      document of one that can. */
  lemma RepresentIsLossless(a: Body, b: Body, raw: bool)
    requires Represent(a, raw) == Represent(b, raw)
    ensures raw || a.json.None? ==> a.bytes == b.bytes
    ensures !raw ==> a.json == b.json
  {
  }

  /** One exchange with the gateway; a body that breaks off has no value. */
  datatype Reply = NoReply(elapsed: nat) | Http(elapsed: nat, status: int, body: Option<Body>)

  /** Everything the network may answer during one call: the first request, the
      login in between, and the request repeated after it. */
  datatype Net = Net(first: Reply, loginElapsed: nat, login: bool, second: Reply)

  /** What happened on the wire, in order: requests and replies of polls, logins,
      and posts without error. */
  datatype Event =
    | Asked(api: string, at: int)
    | Replied(api: string, at: int, status: int, body: Option<Body>)
    | LoggedIn(at: int)
    | Posted(api: string, at: int)

  /** `urls` are the names that the URL parser accepts; which ones those are is left
      open. */
  datatype State = State(items: Items<Content>, cooldown: Option<int>, vitalsAPI: bool,
                         urls: iset<string>, ttl: int, now: int, log: seq<Event>)

  /** A request can be made for the name. No URL holds a control character. */
  predicate ValidUrl(urls: iset<string>, api: string) {
    api in urls && forall c :: c in api ==> ' ' <= c && c != '\U{7F}'
  }

  function KeyFor(api: string, raw: bool): (key: string) { if raw then RawKey(api) else api }

  // --------------------------------------------------- what one poll amounts to

  function PutNegative(s: State, api: string, ttl: int): (s': State) {
    s.(items := s.items[api := Item(Negative(s.now), s.now + ttl)][RawKey(api) := Item(Negative(s.now), s.now + ttl)])
  }

  function PollOutcome(s: State, api: string, force: bool, recursive: bool, raw: bool, net: Net)
    : (r: (State, Result<Content, HttpError>))
    decreases !recursive
  {
    var hit := if force then Miss else Lookup(s.items, KeyFor(api, raw), s.now, None);
    if hit.NegativeHit? then (s, Err(NotFound))
    else if hit.PositiveHit? then (s, Ok(hit.value))
    else if Cooling(s.cooldown, s.now) then (s, Err(RateLimited))
    else if api == API_DEVICES_VITALS && !s.vitalsAPI then (s, Err(NotFound))
    else if !ValidUrl(s.urls, api) then (s, Err(BadRequest))
    else ReplyOutcome(Exchanged(s, api, net.first), api, force, recursive, raw, net)
  }

  /** The request and its reply are on the wire. */
  function Exchanged(s: State, api: string, reply: Reply): (s': State) {
    var now := s.now + reply.elapsed;
    var asked := s.(now := now, log := s.log + [Asked(api, s.now)]);
    if reply.NoReply? then asked else asked.(log := asked.log + [Replied(api, now, reply.status, reply.body)])
  }

  /** The session has expired and this call may renew it. */
  predicate Expired(recursive: bool, reply: Reply) { !recursive && reply.Http? && reply.status in {401, 403} }

  function ReplyOutcome(s: State, api: string, force: bool, recursive: bool, raw: bool, net: Net)
    : (r: (State, Result<Content, HttpError>))
    decreases !recursive, 0
  {
    var s1 := if Expired(recursive, net.first) then AfterLogin(s, net) else s;
    if Expired(recursive, net.first) && net.login then PollOutcome(s1, api, force, true, raw, net.(first := net.second))
    else Settled(s1, api, raw, net.first)
  }

  /** What a reply that ends the poll leaves behind. */
  function Settled(s: State, api: string, raw: bool, reply: Reply): (r: (State, Result<Content, HttpError>)) {
    match reply
    case NoReply(_) => (s, Err(NoConnection))
    case Http(_, status, body) =>
      if status == 404 then
        (PutNegative(s, api, NEG_CACHE_TTL).(vitalsAPI := s.vitalsAPI && api != API_DEVICES_VITALS), Err(NotFound))
      else if status == 429 then (s.(cooldown := Some(s.now + COOLDOWN_TTL)), Err(RateLimited))
      else if status == 503 then
        (PutNegative(s, api, COOLDOWN_TTL).(cooldown := Some(s.now + COOLDOWN_TTL)), Err(RateLimited))
      else if status == 401 || status == 403 then (PutNegative(s, api, NEG_CACHE_TTL), Err(LoginFailed))
      else if status >= 400 then (s, Err(UnexpectedStatus))
      else if body.None? then (s, Err(ReadFailed))
      else
        var content := Represent(body.value, raw);
        (s.(items := s.items[KeyFor(api, raw) := Item(Positive(s.now, content), s.now + s.ttl)]), Ok(content))
  }

  /** How long the endpoint counts as closed after this reply. */
  function ClosedFor(reply: Reply): (d: nat) {
    if reply.NoReply? then 0
    else if reply.status in {401, 403, 404} then NEG_CACHE_TTL
    else if reply.status == 503 then COOLDOWN_TTL
    else 0
  }

  function AfterLogin(s: State, net: Net): (s': State) {
    s.(now := s.now + net.loginElapsed, log := s.log + [LoggedIn(s.now + net.loginElapsed)])
  }

  /** The vitals endpoint is always served as bytes. */
  function AsRaw(api: string, raw: bool): (raw': bool) { raw || api == API_DEVICES_VITALS }

  function Poll(s: State, api: string, force: bool, recursive: bool, raw: bool, net: Net)
    : (r: (State, Result<Content, HttpError>))
  {
    PollOutcome(s, api, force, recursive, AsRaw(api, raw), net)
  }

  // -------------------------------------------------- what one post amounts to

  function PostOutcome(s: State, api: string, recursive: bool, raw: bool, net: Net)
    : (r: (State, Result<Content, HttpError>))
    decreases !recursive
  {
    if !ValidUrl(s.urls, api) then (s, Err(BadRequest))
    else
      var s0 := Later(s, net.first.elapsed);
      var s1 := if Expired(recursive, net.first) then AfterLogin(s0, net) else s0;
      if Expired(recursive, net.first) && net.login then PostOutcome(s1, api, true, raw, net.(first := net.second))
      else PostSettled(s1, api, raw, net.first)
  }

  function PostSettled(s: State, api: string, raw: bool, reply: Reply): (r: (State, Result<Content, HttpError>)) {
    if reply.NoReply? then (s, Err(NoConnection))
    else if reply.body.None? then (s, Err(ReadFailed))
    else (AfterPost(s, api), Ok(Represent(reply.body.value, raw)))
  }

  function AfterPost(s: State, api: string): (s': State) {
    s.(items := s.items - BothKeyspaces(ReadKeys(api)), log := s.log + [Posted(api, s.now)])
  }

  /** Nothing happens for a while. */
  function Later(s: State, d: nat): (s': State) { s.(now := s.now + d) }

  // ---------------------------------------------------------------- the client

  class Client {
    const cache: Cache<Content>
    const urls: iset<string>
    var vitalsAPI: bool
    var now: int
    ghost var log: seq<Event>

    constructor (urls: iset<string>, cacheTTL: int, now: int)
      requires cacheTTL > 0
      ensures View() == Fresh(urls, cacheTTL, now) && fresh(cache)
    {
      cache := new Cache<Content>(cacheTTL);
      this.urls, vitalsAPI, this.now, log := urls, true, now, [];
    }

    ghost function View(): State
      reads this, cache
    {
      State(cache.items, cache.cooldownTime, vitalsAPI, urls, cache.defaultTTL, now, log)
    }

    method SetEndpointNegative(api: string, ttl: int)
      requires ttl > 0
      modifies this, cache
      ensures View() == PutNegative(old(View()), api, ttl)
    {
      cache.SetNegative(api, ttl, now);
      cache.SetNegative(RawKey(api), ttl, now);
    }

    method Login(net: Net) returns (ok: bool)
      modifies this
      ensures View() == AfterLogin(old(View()), net) && ok == net.login
    {
      now := now + net.loginElapsed;
      log := log + [LoggedIn(now)];
      return net.login;
    }

    method HandleHTTPStatus(status: int, api: string, force: bool, recursive: bool, raw: bool, net: Net)
      returns (res: Result<Content, HttpError>, handled: bool)
      requires net.first.Http? && net.first.status == status
      requires api == API_DEVICES_VITALS ==> raw
      modifies this, cache
      ensures handled <==> status >= 400
      ensures handled ==> (View(), res) == ReplyOutcome(old(View()), api, force, recursive, raw, net)
      ensures !handled ==> View() == old(View())
      decreases !recursive, 0
    {
      if status == 404 {
        if api == API_DEVICES_VITALS {
          vitalsAPI := false;
        }
        SetEndpointNegative(api, NEG_CACHE_TTL);
        return Err(NotFound), true;
      } else if status == 429 {
        cache.SetCooldown(COOLDOWN_TTL, now);
        return Err(RateLimited), true;
      } else if status == 503 {
        cache.SetCooldown(COOLDOWN_TTL, now);
        SetEndpointNegative(api, COOLDOWN_TTL);
        return Err(RateLimited), true;
      } else if status == 401 || status == 403 {
        if !recursive {
          var ok := Login(net);
          if ok {
            res := Poll(api, force, true, raw, net.(first := net.second));
            return res, true;
          }
        }
        SetEndpointNegative(api, NEG_CACHE_TTL);
        return Err(LoginFailed), true;
      } else if status >= 400 {
        return Err(UnexpectedStatus), true;
      }
      return Err(UnexpectedStatus), false;
    }

    method Poll(api: string, force: bool, recursive: bool, raw: bool, net: Net)
      returns (res: Result<Content, HttpError>)
      modifies this, cache
      ensures (View(), res) == PollOutcome(old(View()), api, force, recursive, AsRaw(api, raw), net)
      decreases !recursive, 2
    {
      var raw' := raw;
      if api == API_DEVICES_VITALS {
        raw' := true;
      }
      if !force {
        var key := api;
        if raw' {
          key := RawKey(api);
        }
        var hit := cache.Get(key, now, None);
        if hit.NegativeHit? {
          return Err(NotFound);
        }
        if hit.PositiveHit? {
          return Ok(hit.value);
        }
      }
      var cooling := cache.InCooldown(now);
      if cooling {
        return Err(RateLimited);
      }
      if api == API_DEVICES_VITALS && !vitalsAPI {
        return Err(NotFound);
      }
      if !ValidUrl(urls, api) {
        return Err(BadRequest);
      }
      res := Request(api, force, recursive, raw', net);
    }

    /** The part of a poll that goes over the wire. */
    method Request(api: string, force: bool, recursive: bool, raw: bool, net: Net)
      returns (res: Result<Content, HttpError>)
      requires api == API_DEVICES_VITALS ==> raw
      modifies this, cache
      ensures (View(), res) == ReplyOutcome(Exchanged(old(View()), api, net.first), api, force, recursive, raw, net)
      decreases !recursive, 1
    {
      log := log + [Asked(api, now)];
      now := now + net.first.elapsed;
      if net.first.NoReply? {
        return Err(NoConnection);
      }
      log := log + [Replied(api, now, net.first.status, net.first.body)];
      var handled;
      res, handled := HandleHTTPStatus(net.first.status, api, force, recursive, raw, net);
      if handled {
        return res;
      }
      if net.first.body.None? {
        return Err(ReadFailed);
      }
      res := Ok(Represent(net.first.body.value, raw));
      Keep(api, raw, res.value);
    }

    /** Each representation has its own key. */
    method Keep(api: string, raw: bool, content: Content)
      modifies cache
      ensures var item := Item(Positive(now, content), now + cache.defaultTTL);
              View() == old(View()).(items := old(cache.items)[KeyFor(api, raw) := item])
    {
      if raw {
        cache.Set(RawKey(api), content, now);
      } else {
        cache.Set(api, content, now);
      }
    }

    method Post(api: string, recursive: bool, raw: bool, net: Net) returns (res: Result<Content, HttpError>)
      modifies this, cache
      ensures (View(), res) == PostOutcome(old(View()), api, recursive, raw, net)
      decreases !recursive
    {
      if !ValidUrl(urls, api) {
        return Err(BadRequest);
      }
      now := now + net.first.elapsed;
      if net.first.NoReply? {
        return Err(NoConnection);
      }
      if (net.first.status == 401 || net.first.status == 403) && !recursive {
        var ok := Login(net);
        if ok {
          res := Post(api, true, raw, net.(first := net.second));
          return res;
        }
      }
      if net.first.body.None? {
        return Err(ReadFailed);
      }
      cache.Invalidate(api);
      log := log + [Posted(api, now)];
      return Ok(Represent(net.first.body.value, raw));
    }
  }

  // --------------------------------------------------- what the cache may hold

  /** A reply that is served and cached. */
  predicate IsReading(e: Event, api: string) { e.Replied? && e.status < 400 && e.body.Some? && e.api == api }

  /** Event `i` is a reading of the endpoint that no later write has overtaken. */
  ghost predicate IsCurrentReading(log: seq<Event>, i: nat, api: string) {
    && i < |log| && IsReading(log[i], api)
    && forall j :: i < j < |log| && log[j].Posted? ==> log[j].api != api
  }

  ghost predicate HoldsReading(s: State, i: nat, api: string, raw: bool, key: string) {
    && IsCurrentReading(s.log, i, api) && ValidUrl(s.urls, api) && key == KeyFor(api, raw) && key in s.items
    && s.items[key] == Item(Positive(s.log[i].at, Represent(s.log[i].body.value, raw)), s.log[i].at + s.ttl)
  }

  /** Every positive entry is a current reading under the key of its representation. */
  ghost predicate Sound(s: State) {
    forall key :: key in s.items && s.items[key].entry.Positive? ==>
      exists i, api, raw :: HoldsReading(s, i, api, raw, key)
  }

  predicate IsLimit(e: Event) { e.Replied? && e.status in {429, 503} }

  /** The gateway has no vitals, and has said so. */
  predicate IsNoVitals(e: Event) { e.Replied? && e.api == API_DEVICES_VITALS && e.status == 404 }

  ghost predicate VitalsGone(log: seq<Event>) { exists i: nat :: i < |log| && IsNoVitals(log[i]) }

  /** The cooldown ends five minutes after event `i`, a rate limit. */
  predicate CooledBy(log: seq<Event>, i: nat, until: int) {
    i < |log| && IsLimit(log[i]) && until == log[i].at + COOLDOWN_TTL
  }

  /** The cooldown ends five minutes after the last of all rate limits so far, and no
      request was made inside it. The vitals are given up when they are found missing. */
  ghost predicate LimitsHold(s: State) {
    && (forall i :: 0 <= i < |s.log| && IsLimit(s.log[i]) ==>
          s.log[i].at <= s.now && s.cooldown.Some? && s.log[i].at + COOLDOWN_TTL <= s.cooldown.value)
    && (s.cooldown.Some? ==> exists i: nat :: CooledBy(s.log, i, s.cooldown.value))
    && (s.vitalsAPI <==> !VitalsGone(s.log))
    && (forall i, j :: 0 <= i < j < |s.log| && IsLimit(s.log[i]) && s.log[j].Asked? ==>
          s.log[i].at + COOLDOWN_TTL <= s.log[j].at)
  }

  ghost predicate Valid(s: State) { Sound(s) && LimitsHold(s) }

  /** More on the wire, but no write, and no entry that was not there before. */
  ghost predicate Extends(s: State, s': State) {
    && s.log <= s'.log && s'.ttl == s.ttl && s'.urls == s.urls
    && (forall j :: |s.log| <= j < |s'.log| ==> !s'.log[j].Posted?)
    && (forall key :: key in s'.items && s'.items[key].entry.Positive? ==>
          key in s.items && s'.items[key] == s.items[key])
  }

  lemma ExtensionIsSound(s: State, s': State)
    requires Sound(s) && Extends(s, s')
    ensures Sound(s')
  {
    forall key | key in s'.items && s'.items[key].entry.Positive?
      ensures exists i, api, raw :: HoldsReading(s', i, api, raw, key)
    {
      var i, api, raw :| HoldsReading(s, i, api, raw, key);
      assert HoldsReading(s', i, api, raw, key);
    }
  }

  lemma AnswerIsSound(s: State, api: string, raw: bool, body: Body, now: int)
    requires Sound(s) && ValidUrl(s.urls, api) && |s.log| > 0 && s.now == now
    requires var last := s.log[|s.log| - 1]; last.Replied? && last == Replied(api, now, last.status, Some(body))
    requires s.log[|s.log| - 1].status < 400
    ensures Sound(s.(items := s.items[KeyFor(api, raw) := Item(Positive(now, Represent(body, raw)), now + s.ttl)]))
  {
    var key := KeyFor(api, raw);
    var s' := s.(items := s.items[key := Item(Positive(now, Represent(body, raw)), now + s.ttl)]);
    forall k | k in s'.items && s'.items[k].entry.Positive?
      ensures exists i, api', raw' :: HoldsReading(s', i, api', raw', k)
    {
      if k == key {
        assert HoldsReading(s', |s.log| - 1, api, raw, key);
      } else {
        var i, api', raw' :| HoldsReading(s, i, api', raw', k);
        assert HoldsReading(s', i, api', raw', k);
      }
    }
  }

  /** A write removes whatever it makes stale before it is recorded. */
  lemma PostIsSound(s: State, api: string)
    requires Sound(s)
    ensures Sound(AfterPost(s, api))
  {
    var s' := AfterPost(s, api);
    forall key | key in s'.items && s'.items[key].entry.Positive?
      ensures exists i, api', raw :: HoldsReading(s', i, api', raw, key)
    {
      var i, api', raw :| HoldsReading(s, i, api', raw, key);
      assert api' != api;
      assert HoldsReading(s', i, api', raw, key);
    }
  }

  /** One more event at the present time, and the cooldown that goes with it. */
  lemma EventKeepsLimits(s: State, e: Event, s': State)
    requires LimitsHold(s) && s'.log == s.log + [e] && s.now <= s'.now
    requires e.Asked? ==> e.at == s.now && !Cooling(s.cooldown, s.now)
    requires if IsLimit(e) then e.at == s'.now && s'.cooldown == Some(s'.now + COOLDOWN_TTL)
             else s'.cooldown == s.cooldown
    requires s'.vitalsAPI <==> s.vitalsAPI && !IsNoVitals(e)
    ensures LimitsHold(s')
  {
    var n := |s.log|;
    if IsLimit(e) {
      assert CooledBy(s'.log, n, s'.cooldown.value);
    } else if s.cooldown.Some? {
      var i: nat :| CooledBy(s.log, i, s.cooldown.value);
      assert CooledBy(s'.log, i, s'.cooldown.value);
    }
    assert s'.log[n] == e;
    if VitalsGone(s.log) {
      var i: nat :| i < |s.log| && IsNoVitals(s.log[i]);
      assert IsNoVitals(s'.log[i]);
    }
  }

  /** What the reply does to the cooldown and to the vitals. */
  function Noticed(s: State, api: string, reply: Reply): (s': State) {
    if reply.NoReply? then s
    else if reply.status in {429, 503} then s.(cooldown := Some(s.now + COOLDOWN_TTL))
    else s.(vitalsAPI := s.vitalsAPI && !(api == API_DEVICES_VITALS && reply.status == 404))
  }

  lemma ExchangeIsValid(s: State, api: string, reply: Reply)
    requires Valid(s) && !Cooling(s.cooldown, s.now)
    ensures Valid(Noticed(Exchanged(s, api, reply), api, reply))
  {
    var s' := Noticed(Exchanged(s, api, reply), api, reply);
    var asked := s.(now := s.now + reply.elapsed, log := s.log + [Asked(api, s.now)]);
    EventKeepsLimits(s, Asked(api, s.now), asked);
    if reply.Http? {
      EventKeepsLimits(asked, Replied(api, asked.now, reply.status, reply.body), s');
    }
    ExtensionIsSound(s, s');
  }

  lemma LoginIsValid(s: State, net: Net)
    requires Valid(s)
    ensures Valid(AfterLogin(s, net))
  {
    EventKeepsLimits(s, LoggedIn(s.now + net.loginElapsed), AfterLogin(s, net));
    ExtensionIsSound(s, AfterLogin(s, net));
  }

  lemma NegativeIsValid(s: State, api: string, ttl: int)
    requires Valid(s)
    ensures Valid(PutNegative(s, api, ttl))
  {
    ExtensionIsSound(s, PutNegative(s, api, ttl));
  }

  lemma PollKeepsValid(s: State, api: string, force: bool, recursive: bool, raw: bool, net: Net)
    requires Valid(s)
    ensures Valid(PollOutcome(s, api, force, recursive, raw, net).0)
    decreases !recursive, 1
  {
    if ValidUrl(s.urls, api) && !Cooling(s.cooldown, s.now) {
      ExchangeIsValid(s, api, net.first);
      ReplyKeepsValid(Exchanged(s, api, net.first), api, force, recursive, raw, net);
    }
  }

  lemma ReplyKeepsValid(s: State, api: string, force: bool, recursive: bool, raw: bool, net: Net)
    requires Valid(Noticed(s, api, net.first)) && ValidUrl(s.urls, api) && HasReply(s, api, net.first)
    ensures Valid(ReplyOutcome(s, api, force, recursive, raw, net).0)
    decreases !recursive, 0
  {
    if Expired(recursive, net.first) {
      LoginIsValid(s, net);
      if net.login {
        PollKeepsValid(AfterLogin(s, net), api, force, true, raw, net.(first := net.second));
      } else {
        SettledIsValid(AfterLogin(s, net), api, raw, net.first);
      }
    } else {
      SettledIsValid(s, api, raw, net.first);
    }
  }

  /** The reply is the last but for logins. */
  ghost predicate HasReply(s: State, api: string, reply: Reply) {
    reply.Http? && reply.status < 400 ==>
      s.log != [] && s.log[|s.log| - 1] == Replied(api, s.now, reply.status, reply.body)
  }

  lemma SettledIsValid(s: State, api: string, raw: bool, reply: Reply)
    requires Valid(Noticed(s, api, reply)) && ValidUrl(s.urls, api) && HasReply(s, api, reply)
    ensures Valid(Settled(s, api, raw, reply).0)
  {
    if ClosedFor(reply) > 0 {
      NegativeIsValid(Noticed(s, api, reply), api, ClosedFor(reply));
      assert Settled(s, api, raw, reply).0 == PutNegative(Noticed(s, api, reply), api, ClosedFor(reply));
    } else if reply.Http? && reply.status < 400 && reply.body.Some? {
      AnswerIsSound(s, api, raw, reply.body.value, s.now);
    } else {
      assert Settled(s, api, raw, reply).0 == Noticed(s, api, reply);
    }
  }

  lemma PostKeepsValid(s: State, api: string, recursive: bool, raw: bool, net: Net)
    requires Valid(s)
    ensures Valid(PostOutcome(s, api, recursive, raw, net).0)
    decreases !recursive
  {
    var s0 := Later(s, net.first.elapsed);
    assert Valid(s0) by {
      ExtensionIsSound(s, s0);
    }
    if Expired(recursive, net.first) {
      LoginIsValid(s0, net);
      if net.login {
        PostKeepsValid(AfterLogin(s0, net), api, true, raw, net.(first := net.second));
      } else {
        PostedIsValid(AfterLogin(s0, net), api);
      }
    } else {
      PostedIsValid(s0, api);
    }
  }

  lemma PostedIsValid(s: State, api: string)
    requires Valid(s)
    ensures Valid(AfterPost(s, api))
  {
    PostIsSound(s, api);
    EventKeepsLimits(s, Posted(api, s.now), AfterPost(s, api));
  }

  // -------------------------------------------------------------------- runs

  datatype Op =
    | PollOp(api: string, force: bool, recursive: bool, raw: bool, net: Net)
    | PostOp(api: string, recursive: bool, raw: bool, net: Net)
    | Wait(d: nat)

  function Step(s: State, op: Op): (s': State) {
    match op
    case PollOp(api, force, recursive, raw, net) => Poll(s, api, force, recursive, raw, net).0
    case PostOp(api, recursive, raw, net) => PostOutcome(s, api, recursive, raw, net).0
    case Wait(d) => Later(s, d)
  }

  function Run(s: State, ops: seq<Op>): (s': State) {
    if ops == [] then s else Step(Run(s, ops[..|ops| - 1]), ops[|ops| - 1])
  }

  function Fresh(urls: iset<string>, ttl: int, now: int): (s: State) { State(map[], None, true, urls, ttl, now, []) }

  lemma StepKeepsValid(s: State, op: Op)
    requires Valid(s)
    ensures Valid(Step(s, op))
  {
    match op
    case PollOp(api, force, recursive, raw, net) => PollKeepsValid(s, api, force, recursive, AsRaw(api, raw), net);
    case PostOp(api, recursive, raw, net) => PostKeepsValid(s, api, recursive, raw, net);
    case Wait(d) => ExtensionIsSound(s, Later(s, d));
  }

  lemma {:induction false} RunKeepsValid(s: State, ops: seq<Op>)
    requires Valid(s)
    ensures Valid(Run(s, ops)) && Run(s, ops).ttl == s.ttl && Run(s, ops).urls == s.urls
  {
    if ops != [] {
      RunKeepsValid(s, ops[..|ops| - 1]);
      StepKeepsValid(Run(s, ops[..|ops| - 1]), ops[|ops| - 1]);
      StepKeepsFixed(Run(s, ops[..|ops| - 1]), ops[|ops| - 1]);
    }
  }

  lemma StepKeepsFixed(s: State, op: Op)
    ensures Step(s, op).ttl == s.ttl && Step(s, op).urls == s.urls
  {
    if op.PollOp? {
      PollKeepsFixed(s, op.api, op.force, op.recursive, AsRaw(op.api, op.raw), op.net);
    } else if op.PostOp? {
      PostKeepsFixed(s, op.api, op.recursive, op.raw, op.net);
    }
  }

  lemma PollKeepsFixed(s: State, api: string, force: bool, recursive: bool, raw: bool, net: Net)
    ensures var s' := PollOutcome(s, api, force, recursive, raw, net).0; s'.ttl == s.ttl && s'.urls == s.urls
    decreases !recursive
  {
    var s1 := AfterLogin(Exchanged(s, api, net.first), net);
    SettledKeepsFixed(Exchanged(s, api, net.first), api, raw, net.first);
    SettledKeepsFixed(s1, api, raw, net.first);
    if Expired(recursive, net.first) {
      PollKeepsFixed(s1, api, force, true, raw, net.(first := net.second));
    }
  }

  lemma SettledKeepsFixed(s: State, api: string, raw: bool, reply: Reply)
    ensures var s' := Settled(s, api, raw, reply).0;
            s'.ttl == s.ttl && s'.urls == s.urls && s'.now == s.now && s'.log == s.log
  {
  }

  lemma PostKeepsFixed(s: State, api: string, recursive: bool, raw: bool, net: Net)
    ensures var s' := PostOutcome(s, api, recursive, raw, net).0; s'.ttl == s.ttl && s'.urls == s.urls
    decreases !recursive
  {
    if Expired(recursive, net.first) {
      PostKeepsFixed(AfterLogin(Later(s, net.first.elapsed), net), api, true, raw, net.(first := net.second));
    }
  }

  // ------------------------------------------------- what is served is faithful

  /** A name that is spelled like the raw key of an endpoint that can be asked. */
  predicate Misread(urls: iset<string>, api: string) { RAW_PREFIX <= api && ValidUrl(urls, api[|RAW_PREFIX|..]) }

  lemma ValidUrlIsPlain(urls: iset<string>, api: string)
    ensures ValidUrl(urls, api) ==> !(RAW_PREFIX <= api)
  {
    if RAW_PREFIX <= api {
      assert api[3] == RAW_PREFIX[3] && api[3] in api;
    }
  }

  lemma KeyDeterminesReading(urls: iset<string>, api: string, raw: bool, api': string, raw': bool)
    requires KeyFor(api, raw) == KeyFor(api', raw') && !Misread(urls, api) && ValidUrl(urls, api')
    ensures api == api' && raw == raw'
  {
    ValidUrlIsPlain(urls, api');
    assert RawKey(api')[|RAW_PREFIX|..] == api';
    if raw && raw' {
      RawKeyIsInjective(api, api');
    }
  }

  /** What a poll may return: a reading of the very endpoint, in the representation
      asked for, no older than the lifetime and not overtaken by a write. */
  ghost predicate IsFaithful(s: State, api: string, raw: bool, content: Content) {
    exists i: nat :: IsCurrentReading(s.log, i, api) && content == Represent(s.log[i].body.value, raw)
                     && s.now - s.log[i].at <= s.ttl
  }

  lemma CachedIsFaithful(s: State, api: string, raw: bool)
    requires Valid(s) && !Misread(s.urls, api) && Lookup(s.items, KeyFor(api, raw), s.now, None).PositiveHit?
    ensures IsFaithful(s, api, raw, s.items[KeyFor(api, raw)].entry.value)
  {
    var i, api', raw' :| HoldsReading(s, i, api', raw', KeyFor(api, raw));
    KeyDeterminesReading(s.urls, api, raw, api', raw');
    assert IsCurrentReading(s.log, i, api);
  }

  /** An answer is a reading made during the call, or came from the cache. */
  ghost predicate IsFresh(s: State, r: (State, Result<Content, HttpError>), api: string, raw: bool) {
    var last := |r.0.log| - 1;
    r.1.Ok? ==> && |s.log| <= last && IsReading(r.0.log[last], api) && r.0.log[last].at == r.0.now
                && r.1.value == Represent(r.0.log[last].body.value, raw)
  }

  lemma AnswerIsFresh(s: State, api: string, force: bool, recursive: bool, raw: bool, net: Net)
    requires GoesOut(s, api, force, raw)
    ensures IsFresh(s, PollOutcome(s, api, force, recursive, raw, net), api, raw)
    decreases !recursive
  {
    var s1 := Exchanged(s, api, net.first);
    SettledKeepsFixed(s1, api, raw, net.first);
    if Expired(recursive, net.first) {
      MissStaysMiss(s, api, force, raw, net);
      AnswerIsFresh(AfterLogin(s1, net), api, force, true, raw, net.(first := net.second));
    }
  }

  /** A request is made. */
  predicate GoesOut(s: State, api: string, force: bool, raw: bool) {
    && (force || Lookup(s.items, KeyFor(api, raw), s.now, None).Miss?)
    && !Cooling(s.cooldown, s.now) && ValidUrl(s.urls, api) && (api == API_DEVICES_VITALS ==> s.vitalsAPI)
  }

  /** The request goes out again after a login. */
  lemma MissStaysMiss(s: State, api: string, force: bool, raw: bool, net: Net)
    requires GoesOut(s, api, force, raw)
    ensures GoesOut(AfterLogin(Exchanged(s, api, net.first), net), api, force, raw)
  {
  }

  lemma PollIsFaithful(s: State, api: string, force: bool, recursive: bool, raw: bool, net: Net)
    requires Valid(s) && !Misread(s.urls, api) && s.ttl >= 0
    ensures var (s', res) := PollOutcome(s, api, force, recursive, raw, net);
            res.Ok? ==> IsFaithful(s', api, raw, res.value)
  {
    if GoesOut(s, api, force, raw) {
      AnswerIsFresh(s, api, force, recursive, raw, net);
      PollKeepsFixed(s, api, force, recursive, raw, net);
      var (s', res) := PollOutcome(s, api, force, recursive, raw, net);
      assert res.Ok? ==> IsCurrentReading(s'.log, |s'.log| - 1, api);
    } else if Lookup(s.items, KeyFor(api, raw), s.now, None).PositiveHit? {
      CachedIsFaithful(s, api, raw);
    }
  }

  /** What a poll returns after these operations is faithful. */
  ghost predicate Refines(urls: iset<string>, ttl: nat, start: int, ops: seq<Op>,
                          api: string, force: bool, recursive: bool, raw: bool, net: Net) {
    var (s', res) := Poll(Run(Fresh(urls, ttl, start), ops), api, force, recursive, raw, net);
    res.Ok? ==> IsFaithful(s', api, AsRaw(api, raw), res.value)
  }

  /** The cached client refines an uncached gateway with bounded staleness: in any
      sequence of polls, posts and waits, whichever representations were read
      before. */
  lemma CachedPollRefinesGateway(urls: iset<string>, ttl: nat, start: int, ops: seq<Op>,
                                 api: string, force: bool, recursive: bool, raw: bool, net: Net)
    requires !Misread(urls, api)
    ensures Refines(urls, ttl, start, ops, api, force, recursive, raw, net)
  {
    RunKeepsValid(Fresh(urls, ttl, start), ops);
    PollIsFaithful(Run(Fresh(urls, ttl, start), ops), api, force, recursive, AsRaw(api, raw), net);
  }

  /** The condition on the name is exact, whatever names the parser accepts: for every
      other name there is a run in which it gets the bytes of another endpoint as its
      decoded answer. */
  lemma RefinesUnlessMisread(urls: iset<string>, ttl: nat, start: int, api: string)
    ensures (forall ops, force, recursive, raw, net :: Refines(urls, ttl, start, ops, api, force, recursive, raw, net))
            <==> !Misread(urls, api)
  {
    if Misread(urls, api) {
      var ops, net := MisreadGetsBytes(urls, ttl, start, api);
    } else {
      forall ops, force, recursive, raw, net ensures Refines(urls, ttl, start, ops, api, force, recursive, raw, net) {
        CachedPollRefinesGateway(urls, ttl, start, ops, api, force, recursive, raw, net);
      }
    }
  }

  lemma MisreadGetsBytes(urls: iset<string>, ttl: nat, start: int, api: string) returns (ops: seq<Op>, net: Net)
    requires Misread(urls, api)
    ensures Poll(Run(Fresh(urls, ttl, start), ops), api, false, false, false, net).1 == Ok(Raw("body"))
    ensures !Refines(urls, ttl, start, ops, api, false, false, false, net)
  {
    var other, body := api[|RAW_PREFIX|..], Body("body", Some(Document(1)));
    assert api == RawKey(other);
    net := Net(Http(0, 200, Some(body)), 0, false, NoReply(0));
    ops := [PollOp(other, true, false, true, net)];
    assert ops[..0] == [] && Run(Fresh(urls, ttl, start), []) == Fresh(urls, ttl, start);
    var s := Run(Fresh(urls, ttl, start), ops);
    assert s.items == map[api := Item(Positive(start, Raw("body")), start + ttl)];
    assert s.log == [Asked(other, start), Replied(other, start, 200, Some(body))];
    assert api[0] == RAW_PREFIX[0] != API_DEVICES_VITALS[0];
    assert Poll(s, api, false, false, false, net) == (s, Ok(Raw("body")));
    assert |api| > |other|;
  }

  /** A forced poll, which the read-back before a write relies on, answers with what
      the gateway said during the call. */
  lemma ForcedPollIsFresh(s: State, api: string, recursive: bool, raw: bool, net: Net)
    ensures var (s', res) := PollOutcome(s, api, true, recursive, raw, net);
            res.Ok? ==> exists i: nat :: |s.log| <= i && IsCurrentReading(s'.log, i, api)
                                         && res.value == Represent(s'.log[i].body.value, raw)
  {
    if GoesOut(s, api, true, raw) {
      AnswerIsFresh(s, api, true, recursive, raw, net);
      var (s', res) := PollOutcome(s, api, true, recursive, raw, net);
      assert res.Ok? ==> IsCurrentReading(s'.log, |s'.log| - 1, api);
    }
  }

  /** Keyspaces never mix: positive entries under a raw key are bytes, positive
      entries under a bare key are not. */
  lemma KeyspacesHoldTheirRepresentation(urls: iset<string>, ttl: nat, start: int, ops: seq<Op>, key: string)
    requires var items := Run(Fresh(urls, ttl, start), ops).items; key in items && items[key].entry.Positive?
    ensures Run(Fresh(urls, ttl, start), ops).items[key].entry.value.Raw? <==> RAW_PREFIX <= key
  {
    var s := Run(Fresh(urls, ttl, start), ops);
    RunKeepsValid(Fresh(urls, ttl, start), ops);
    var i, api, raw :| HoldsReading(s, i, api, raw, key);
    ValidUrlIsPlain(urls, api);
  }

  // --------------------------------------------------------------- rate limits

  /** After a rate limit no GET of any endpoint is made for five minutes, forced
      or not, whatever polls, posts and waits follow, and whether the limit came on
      the first request of a poll or on the one repeated after a login. */
  lemma NoRequestWhileCooling(urls: iset<string>, ttl: nat, start: int, ops: seq<Op>, i: nat, j: nat)
    requires var log := Run(Fresh(urls, ttl, start), ops).log; i < j < |log| && IsLimit(log[i]) && log[j].Asked?
    ensures var log := Run(Fresh(urls, ttl, start), ops).log; log[i].at + COOLDOWN_TTL <= log[j].at
  {
    RunKeepsValid(Fresh(urls, ttl, start), ops);
  }

  /** In these five minutes a poll changes nothing at all. */
  lemma CooldownStopsEveryEndpoint(urls: iset<string>, ttl: nat, start: int, ops: seq<Op>, i: nat,
                                   api: string, force: bool, recursive: bool, raw: bool, net: Net)
    requires var s := Run(Fresh(urls, ttl, start), ops);
             i < |s.log| && IsLimit(s.log[i]) && s.now < s.log[i].at + COOLDOWN_TTL
    ensures var s := Run(Fresh(urls, ttl, start), ops); Poll(s, api, force, recursive, raw, net).0 == s
  {
    RunKeepsValid(Fresh(urls, ttl, start), ops);
    var s := Run(Fresh(urls, ttl, start), ops);
    assert Cooling(s.cooldown, s.now);
  }

  /** A poll that does not find its answer in the cache asks the gateway exactly when
      no rate limit came in the last five minutes and the endpoint is not the vitals one
      that was found missing: every cooldown ends, and nothing else holds a poll back. */
  lemma PollsResumeAfterCooldown(urls: iset<string>, ttl: nat, start: int, ops: seq<Op>,
                                 api: string, force: bool, recursive: bool, raw: bool, net: Net)
    requires ValidUrl(urls, api)
    requires var s := Run(Fresh(urls, ttl, start), ops);
             var key := if raw || api == API_DEVICES_VITALS then RawKey(api) else api;
             force || key !in s.items || s.items[key].expiresAt < s.now
    ensures var s := Run(Fresh(urls, ttl, start), ops);
            var log' := Poll(s, api, force, recursive, raw, net).0.log;
            s.log + [Asked(api, s.now)] <= log'
            <==> (forall i :: 0 <= i < |s.log| && s.log[i].Replied? && s.log[i].status in {429, 503} ==>
                    s.log[i].at + COOLDOWN_TTL <= s.now)
                 && (api == API_DEVICES_VITALS ==> !VitalsGone(s.log))
    ensures var s := Run(Fresh(urls, ttl, start), ops);
            var s' := Poll(s, api, force, recursive, raw, net).0;
            s.log + [Asked(api, s.now)] <= s'.log || s' == s
  {
    var s := Run(Fresh(urls, ttl, start), ops);
    RunKeepsValid(Fresh(urls, ttl, start), ops);
    if s.cooldown.Some? {
      var i: nat :| CooledBy(s.log, i, s.cooldown.value);
    }
    if GoesOut(s, api, force, AsRaw(api, raw)) {
      RequestIsLogged(s, api, force, recursive, AsRaw(api, raw), net);
    } else {
      NothingGoesOut(s, api, force, recursive, AsRaw(api, raw), net);
    }
  }

  /** A request that goes out is the next thing on the wire. */
  lemma RequestIsLogged(s: State, api: string, force: bool, recursive: bool, raw: bool, net: Net)
    requires GoesOut(s, api, force, raw)
    ensures s.log + [Asked(api, s.now)] <= PollOutcome(s, api, force, recursive, raw, net).0.log
    decreases !recursive
  {
    var s1 := Exchanged(s, api, net.first);
    var s2 := AfterLogin(s1, net);
    SettledKeepsFixed(s1, api, raw, net.first);
    SettledKeepsFixed(s2, api, raw, net.first);
    if Expired(recursive, net.first) && net.login {
      MissStaysMiss(s, api, force, raw, net);
      RequestIsLogged(s2, api, force, true, raw, net.(first := net.second));
    }
  }

  // ------------------------------------------------------- effort of one poll

  /** Numbers of requests and of logins on the wire. */
  function Requests(log: seq<Event>): (n: nat) {
    if log == [] then 0 else Requests(log[..|log| - 1]) + if log[|log| - 1].Asked? then 1 else 0
  }

  function Logins(log: seq<Event>): (n: nat) {
    if log == [] then 0 else Logins(log[..|log| - 1]) + if log[|log| - 1].LoggedIn? then 1 else 0
  }

  ghost predicate WithinEffort(before: seq<Event>, after: seq<Event>, requests: nat, logins: nat) {
    Requests(after) <= Requests(before) + requests && Logins(after) <= Logins(before) + logins
  }

  lemma EffortOfEvent(log: seq<Event>, e: Event)
    ensures WithinEffort(log, log + [e], if e.Asked? then 1 else 0, if e.LoggedIn? then 1 else 0)
  {
    assert (log + [e])[..|log|] == log;
  }

  lemma ExchangeEffort(s: State, api: string, reply: Reply)
    ensures WithinEffort(s.log, Exchanged(s, api, reply).log, 1, 0)
  {
    var asked := s.log + [Asked(api, s.now)];
    EffortOfEvent(s.log, Asked(api, s.now));
    if reply.Http? {
      EffortOfEvent(asked, Replied(api, s.now + reply.elapsed, reply.status, reply.body));
    }
  }

  /** However the gateway answers, a poll makes at most two requests and one login. */
  lemma PollEffort(s: State, api: string, force: bool, recursive: bool, raw: bool, net: Net)
    ensures WithinEffort(s.log, PollOutcome(s, api, force, recursive, raw, net).0.log,
                         if recursive then 1 else 2, if recursive then 0 else 1)
    decreases !recursive
  {
    if !GoesOut(s, api, force, raw) {
      NothingGoesOut(s, api, force, recursive, raw, net);
    } else {
      var s1 := Exchanged(s, api, net.first);
      ExchangeEffort(s, api, net.first);
      if Expired(recursive, net.first) {
        var s2 := AfterLogin(s1, net);
        EffortOfEvent(s1.log, LoggedIn(s2.now));
        if net.login {
          PollEffort(s2, api, force, true, raw, net.(first := net.second));
        } else {
          SettledKeepsFixed(s2, api, raw, net.first);
        }
      } else {
        SettledKeepsFixed(s1, api, raw, net.first);
      }
    }
  }

  lemma NothingGoesOut(s: State, api: string, force: bool, recursive: bool, raw: bool, net: Net)
    requires !GoesOut(s, api, force, raw)
    ensures PollOutcome(s, api, force, recursive, raw, net).0 == s
  {
  }

  // ------------------------------------------- what one answer spares later on

  /** The reply that a poll ends with if it makes a request. */
  function LastReply(recursive: bool, net: Net): (reply: Reply) {
    if !recursive && net.first.Http? && net.first.status in {401, 403} && net.login then net.second else net.first
  }

  /** What the caller of a poll is told by the reply that ends it. */
  ghost predicate TellsReply(reply: Reply, raw: bool, res: Result<Content, HttpError>) {
    && (forall c :: res == Ok(c) <==>
          reply.Http? && reply.status < 400 && reply.body.Some? && c == Represent(reply.body.value, raw))
    && (reply.NoReply? ==> res == Err(NoConnection))
    && (reply.Http? && reply.status in {401, 403} ==> res == Err(LoginFailed))
    && (reply.Http? && reply.status == 404 ==> res == Err(NotFound))
    && (reply.Http? && reply.status in {429, 503} ==> res == Err(RateLimited))
    && (reply.Http? && reply.status >= 400 && reply.status !in {401, 403, 404, 429, 503} ==>
          res == Err(UnexpectedStatus))
    && (reply.Http? && reply.status < 400 && reply.body.None? ==> res == Err(ReadFailed))
  }

  /** A poll that makes a request succeeds or fails with the reply it ends with. */
  lemma LastReplyDecides(s: State, api: string, force: bool, recursive: bool, raw: bool, net: Net)
    requires GoesOut(s, api, force, raw)
    ensures TellsReply(LastReply(recursive, net), raw, PollOutcome(s, api, force, recursive, raw, net).1)
    decreases !recursive
  {
    if Expired(recursive, net.first) && net.login {
      MissStaysMiss(s, api, force, raw, net);
      LastReplyDecides(AfterLogin(Exchanged(s, api, net.first), net), api, force, true, raw, net.(first := net.second));
    }
  }

  /** What the caller of a poll that makes no request is told, and by what. */
  lemma HeldBackPoll(s: State, api: string, force: bool, recursive: bool, raw: bool, net: Net)
    requires !GoesOut(s, api, force, raw)
    ensures var key := if raw then RawKey(api) else api;
            var cached := !force && key in s.items && s.now <= s.items[key].expiresAt;
            var limited := s.cooldown.Some? && s.now < s.cooldown.value;
            var noVitals := api == API_DEVICES_VITALS && !s.vitalsAPI;
            PollOutcome(s, api, force, recursive, raw, net)
            == (s, if cached && s.items[key].entry.Positive? then Ok(s.items[key].entry.value)
                   else if cached then Err(NotFound)
                   else if limited then Err(RateLimited)
                   else if noVitals then Err(NotFound)
                   else Err(BadRequest))
  {
  }

  /** A post takes effect on the cache exactly when its last reply could be read to the
      end, whatever the status, and then returns that reply. */
  lemma LastReplyDecidesPost(s: State, api: string, recursive: bool, raw: bool, net: Net)
    requires ValidUrl(s.urls, api)
    ensures var (s', res) := PostOutcome(s, api, recursive, raw, net);
            var reply := LastReply(recursive, net);
            && (forall c :: res == Ok(c) <==> reply.Http? && reply.body.Some? && c == Represent(reply.body.value, raw))
            && (reply.NoReply? ==> res == Err(NoConnection))
            && (reply.Http? && reply.body.None? ==> res == Err(ReadFailed))
            && s'.items == (if res.Ok? then s.items - BothKeyspaces(ReadKeys(api)) else s.items)
            && (res.Ok? ==> s'.log != [] && s'.log[|s'.log| - 1] == Posted(api, s'.now))
            && s'.cooldown == s.cooldown && s'.vitalsAPI == s.vitalsAPI
    decreases !recursive
  {
    if Expired(recursive, net.first) && net.login {
      LastReplyDecidesPost(AfterLogin(Later(s, net.first.elapsed), net), api, true, raw, net.(first := net.second));
    }
  }

  /** Both keyspaces say that the endpoint is closed, until then. */
  ghost predicate KnownClosed(s: State, api: string, until: int) {
    forall raw :: KeyFor(api, raw) in s.items && s.items[KeyFor(api, raw)].entry.Negative?
                  && s.items[KeyFor(api, raw)].expiresAt == until
  }

  lemma PutNegativeIsKnown(s: State, api: string, ttl: int)
    ensures KnownClosed(PutNegative(s, api, ttl), api, s.now + ttl)
  {
    assert |RawKey(api)| > |api|;
  }

  lemma ClosingIsRecorded(s: State, api: string, force: bool, recursive: bool, raw: bool, net: Net)
    requires GoesOut(s, api, force, raw) && ClosedFor(LastReply(recursive, net)) > 0
    ensures var s' := PollOutcome(s, api, force, recursive, raw, net).0;
            KnownClosed(s', api, s'.now + ClosedFor(LastReply(recursive, net)))
    decreases !recursive
  {
    var s1 := Exchanged(s, api, net.first);
    if Expired(recursive, net.first) {
      SettledIsKnown(AfterLogin(s1, net), api, raw, net.first);
      MissStaysMiss(s, api, force, raw, net);
      if net.login {
        ClosingIsRecorded(AfterLogin(s1, net), api, force, true, raw, net.(first := net.second));
      }
    } else {
      SettledIsKnown(s1, api, raw, net.first);
    }
  }

  lemma SettledIsKnown(s: State, api: string, raw: bool, reply: Reply)
    requires ClosedFor(reply) > 0
    ensures var s' := Settled(s, api, raw, reply).0; s'.now == s.now && KnownClosed(s', api, s.now + ClosedFor(reply))
  {
    PutNegativeIsKnown(s, api, ClosedFor(reply));
  }

  lemma ClosedIsNotAsked(s: State, api: string, until: int, recursive: bool, raw: bool, net: Net)
    requires KnownClosed(s, api, until) && s.now <= until
    ensures Poll(s, api, false, recursive, raw, net) == (s, Err(NotFound))
  {
    assert Lookup(s.items, KeyFor(api, AsRaw(api, raw)), s.now, None).NegativeHit?;
  }

  /** From one state to a later one, the entries of this endpoint are untouched and no
      request for it was made. */
  ghost predicate LeftAlone(s: State, s': State, api: string) {
    && s.log <= s'.log && s.now <= s'.now
    && (forall j :: |s.log| <= j < |s'.log| ==> s'.log[j].Asked? ==> s'.log[j].api != api)
    && (forall raw :: SameEntry(s.items, s'.items, KeyFor(api, raw)))
  }

  predicate SameEntry(items: Items<Content>, items': Items<Content>, key: string) {
    (key in items <==> key in items') && (key in items ==> items'[key] == items[key])
  }

  /** The keys of two endpoints are different. */
  lemma KeysAreApart(api: string, raw: bool, other: string, raw': bool)
    requires other != api && !(RAW_PREFIX <= api) && !(RAW_PREFIX <= other)
    ensures KeyFor(other, raw') != KeyFor(api, raw)
  {
    if raw && raw' && RawKey(other) == RawKey(api) {
      RawKeyIsInjective(other, api);
    }
  }

  lemma SettledLeavesAlone(s: State, api: string, other: string, raw: bool, reply: Reply)
    requires other != api && !(RAW_PREFIX <= api) && ValidUrl(s.urls, other)
    ensures LeftAlone(s, Settled(s, other, raw, reply).0, api)
  {
    ValidUrlIsPlain(s.urls, other);
    var s' := Settled(s, other, raw, reply).0;
    forall raw' ensures SameEntry(s.items, s'.items, KeyFor(api, raw')) {
      KeysAreApart(api, raw', other, false);
      KeysAreApart(api, raw', other, true);
    }
  }

  lemma LeftAloneTwice(s: State, s1: State, s2: State, api: string)
    requires LeftAlone(s, s1, api) && LeftAlone(s1, s2, api)
    ensures LeftAlone(s, s2, api)
  {
    forall raw ensures SameEntry(s.items, s2.items, KeyFor(api, raw)) {
      assert SameEntry(s.items, s1.items, KeyFor(api, raw)) && SameEntry(s1.items, s2.items, KeyFor(api, raw));
    }
  }

  /** A poll of another endpoint. */
  lemma OtherPollLeavesAlone(s: State, api: string, other: string, force: bool, recursive: bool, raw: bool, net: Net)
    requires other != api && !(RAW_PREFIX <= api)
    ensures LeftAlone(s, PollOutcome(s, other, force, recursive, raw, net).0, api)
    decreases !recursive, 1
  {
    if GoesOut(s, other, force, raw) {
      var s1 := Exchanged(s, other, net.first);
      OtherReplyLeavesAlone(s1, api, other, force, recursive, raw, net);
      assert LeftAlone(s, s1, api);
      LeftAloneTwice(s, s1, ReplyOutcome(s1, other, force, recursive, raw, net).0, api);
    } else {
      NothingGoesOut(s, other, force, recursive, raw, net);
    }
  }

  lemma OtherReplyLeavesAlone(s: State, api: string, other: string, force: bool, recursive: bool, raw: bool, net: Net)
    requires other != api && !(RAW_PREFIX <= api) && ValidUrl(s.urls, other)
    ensures LeftAlone(s, ReplyOutcome(s, other, force, recursive, raw, net).0, api)
    decreases !recursive, 0
  {
    if Expired(recursive, net.first) {
      var s1 := AfterLogin(s, net);
      assert LeftAlone(s, s1, api);
      if net.login {
        OtherPollLeavesAlone(s1, api, other, force, true, raw, net.(first := net.second));
      } else {
        SettledLeavesAlone(s1, api, other, raw, net.first);
      }
      LeftAloneTwice(s, s1, ReplyOutcome(s, other, force, recursive, raw, net).0, api);
    } else {
      SettledLeavesAlone(s, api, other, raw, net.first);
    }
  }

  /** A post that makes other endpoints stale, or ends with an error. */
  lemma OtherPostLeavesAlone(s: State, api: string, other: string, recursive: bool, raw: bool, net: Net)
    requires !(RAW_PREFIX <= api)
    requires PostOutcome(s, other, recursive, raw, net).1.Ok? ==> api !in ReadKeys(other)
    ensures LeftAlone(s, PostOutcome(s, other, recursive, raw, net).0, api)
    decreases !recursive
  {
    if ValidUrl(s.urls, other) {
      ValidUrlIsPlain(s.urls, other);
      var s0 := Later(s, net.first.elapsed);
      var s1 := if Expired(recursive, net.first) then AfterLogin(s0, net) else s0;
      assert LeftAlone(s, s1, api);
      if Expired(recursive, net.first) && net.login {
        OtherPostLeavesAlone(s1, api, other, true, raw, net.(first := net.second));
      } else if PostSettled(s1, other, raw, net.first).1.Ok? {
        AfterPostLeavesAlone(s1, api, other);
      }
    }
  }

  lemma AfterPostLeavesAlone(s: State, api: string, other: string)
    requires !(RAW_PREFIX <= api) && !(RAW_PREFIX <= other) && api !in ReadKeys(other)
    ensures LeftAlone(s, AfterPost(s, other), api)
  {
    forall raw ensures KeyFor(api, raw) !in BothKeyspaces(ReadKeys(other)) {
      forall k | k in ReadKeys(other)
        ensures KeyFor(k, false) != KeyFor(api, raw) && KeyFor(k, true) != KeyFor(api, raw)
      {
        assert "SITE_CONFIG"[0] != RAW_PREFIX[0];
        KeysAreApart(api, raw, k, false);
        KeysAreApart(api, raw, k, true);
      }
    }
  }

  /** A forced poll of the endpoint, or a post without error that makes it stale. */
  predicate Reopens(s: State, api: string, op: Op) {
    match op
    case PollOp(other, force, _, _, _) => other == api && force
    case PostOp(other, recursive, raw, net) =>
      api in ReadKeys(other) && PostOutcome(s, other, recursive, raw, net).1.Ok?
    case Wait(_) => false
  }

  ghost predicate StaysClosed(s: State, ops: seq<Op>, api: string) {
    forall j: nat :: j < |ops| ==> !Reopens(Run(s, ops[..j]), api, ops[j])
  }

  lemma StepLeavesClosed(s: State, op: Op, api: string, until: int)
    requires KnownClosed(s, api, until) && s.now <= until && !(RAW_PREFIX <= api) && !Reopens(s, api, op)
    ensures LeftAlone(s, Step(s, op), api)
  {
    match op
    case PollOp(other, force, recursive, raw, net) =>
      if other == api {
        ClosedIsNotAsked(s, api, until, recursive, raw, net);
      } else {
        OtherPollLeavesAlone(s, api, other, force, recursive, AsRaw(other, raw), net);
      }
    case PostOp(other, recursive, raw, net) => OtherPostLeavesAlone(s, api, other, recursive, raw, net);
    case Wait(d) =>
  }

  lemma {:induction false} RunLeavesClosed(s: State, ops: seq<Op>, api: string, until: int)
    requires KnownClosed(s, api, until) && !(RAW_PREFIX <= api) && StaysClosed(s, ops, api)
    requires Run(s, ops).now <= until
    ensures LeftAlone(s, Run(s, ops), api) && KnownClosed(Run(s, ops), api, until)
  {
    if ops != [] {
      var n := |ops| - 1;
      assert forall j: nat :: j <= n ==> ops[..n][..j] == ops[..j];
      ClockRuns(Run(s, ops[..n]), ops[n]);
      RunLeavesClosed(s, ops[..n], api, until);
      StepLeavesClosed(Run(s, ops[..n]), ops[n], api, until);
      StillClosed(Run(s, ops[..n]), Run(s, ops), api, until);
    }
  }

  lemma StillClosed(s: State, s': State, api: string, until: int)
    requires KnownClosed(s, api, until) && LeftAlone(s, s', api)
    ensures KnownClosed(s', api, until)
  {
    assert forall raw :: SameEntry(s.items, s'.items, KeyFor(api, raw));
  }

  lemma ClockRuns(s: State, op: Op)
    ensures s.now <= Step(s, op).now
  {
    if op.PollOp? {
      PollTakesTime(s, op.api, op.force, op.recursive, AsRaw(op.api, op.raw), op.net);
    } else if op.PostOp? {
      PostTakesTime(s, op.api, op.recursive, op.raw, op.net);
    }
  }

  lemma PollTakesTime(s: State, api: string, force: bool, recursive: bool, raw: bool, net: Net)
    ensures s.now <= PollOutcome(s, api, force, recursive, raw, net).0.now
    decreases !recursive
  {
    if Expired(recursive, net.first) {
      PollTakesTime(AfterLogin(Exchanged(s, api, net.first), net), api, force, true, raw, net.(first := net.second));
    }
  }

  lemma PostTakesTime(s: State, api: string, recursive: bool, raw: bool, net: Net)
    ensures s.now <= PostOutcome(s, api, recursive, raw, net).0.now
    decreases !recursive
  {
    if Expired(recursive, net.first) {
      PostTakesTime(AfterLogin(Later(s, net.first.elapsed), net), api, true, raw, net.(first := net.second));
    }
  }

  /** A missing, busy or closed endpoint, whichever representation found it out, before
      or after a new login: in every run that follows, it is not asked until the time is
      up, unless by a forced poll or after a post without error that makes it stale; and
      unforced polls of it, in either representation, say that it is not there. */
  lemma ClosedEndpointIsRemembered(s: State, api: string, force: bool, recursive: bool, raw: bool, net: Net,
                                   ops: seq<Op>,
                                  recursive': bool, raw': bool, net': Net)
    requires GoesOut(s, api, force, AsRaw(api, raw))
    requires LastReply(recursive, net).Http? && LastReply(recursive, net).status in {401, 403, 404, 503}
    requires var s1 := Poll(s, api, force, recursive, raw, net).0;
             var closed := if LastReply(recursive, net).status == 503 then 300 * SECOND else 600 * SECOND;
             StaysClosed(s1, ops, api) && Run(s1, ops).now <= s1.now + closed
    ensures var s1 := Poll(s, api, force, recursive, raw, net).0;
            var s2 := Run(s1, ops);
            && LeftAlone(s1, s2, api)
            && Poll(s2, api, false, recursive', raw', net') == (s2, Err(NotFound))
  {
    var s1 := Poll(s, api, force, recursive, raw, net).0;
    var until := s1.now + ClosedFor(LastReply(recursive, net));
    ClosingIsRecorded(s, api, force, recursive, AsRaw(api, raw), net);
    ValidUrlIsPlain(s.urls, api);
    RunLeavesClosed(s1, ops, api, until);
    ClosedIsNotAsked(Run(s1, ops), api, until, recursive', raw', net');
  }

  /** An answer is served again, without a request, for as long as it lives. */
  lemma AnswerIsReused(s: State, api: string, force: bool, recursive: bool, raw: bool, net: Net,
                       wait: nat, recursive': bool, net': Net)
    requires GoesOut(s, api, force, AsRaw(api, raw)) && Poll(s, api, force, recursive, raw, net).1.Ok? && wait <= s.ttl
    ensures var (s1, res) := Poll(s, api, force, recursive, raw, net);
            Poll(Later(s1, wait), api, false, recursive', raw, net') == (Later(s1, wait), res)
  {
    PutByAnswer(s, api, force, recursive, AsRaw(api, raw), net);
  }

  lemma PutByAnswer(s: State, api: string, force: bool, recursive: bool, raw: bool, net: Net)
    requires GoesOut(s, api, force, raw) && PollOutcome(s, api, force, recursive, raw, net).1.Ok?
    ensures var (s', res) := PollOutcome(s, api, force, recursive, raw, net);
            && KeyFor(api, raw) in s'.items
            && s'.items[KeyFor(api, raw)] == Item(Positive(s'.now, res.value), s'.now + s.ttl)
    decreases !recursive
  {
    if Expired(recursive, net.first) {
      MissStaysMiss(s, api, force, raw, net);
      if net.login {
        PutByAnswer(AfterLogin(Exchanged(s, api, net.first), net), api, force, true, raw, net.(first := net.second));
      }
    }
  }
}
