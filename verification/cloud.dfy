/** The owner-cloud client: cached reads of one energy site, and the recovery that
    switches to another site when the configured one is gone. A switch empties
    the cache, so no answer of the old site survives it. */
module Cloud {
  import opened Common
  import opened ResponseCache

  const SITE_CONFIG_TTL := 59 * SECOND
  const RECOVERY_INTERVAL := 60 * SECOND

  /** The addresses that are read, each below the address of its site. */
  datatype Read = Tariff | LiveStatus | SiteInfo | SiteStatus | BackupTime

  datatype Url = Url(site: string, read: Read)

  function CacheKey(read: Read): (key: string) {
    match read
    case Tariff => "SITE_TARIFF"
    case LiveStatus => "SITE_DATA"
    case SiteInfo => "SITE_CONFIG"
    case SiteStatus => "SITE_SUMMARY"
    case BackupTime => "BACKUP_TIME_REMAINING"
  }

  /** The reader's own age limit; only the site configuration has one. */
  function AgeLimit(read: Read): (limit: Option<int>) {
    if read.SiteInfo? then Some(SITE_CONFIG_TTL) else None
  }

  /** Identifiers of a listed product, where it has them. */
  datatype Product = Product(energySiteID: Option<string>, id: Option<string>)

  /** One exchange; a body that is no JSON has no value. */
  datatype Reply = NoReply(elapsed: nat) | Http(elapsed: nat, status: int, json: Option<Document>)

  /** The answer to the product listing; a failure of any kind has no value. */
  datatype Listing = Listing(elapsed: nat, products: Option<seq<Product>>)

  /** Everything the network may answer during one read. */
  datatype Net = Net(first: Reply, listing: Listing, retry: Reply)

  datatype Event =
    | Answered(url: Url, at: int, json: Document)
    | Attempted(at: int)
    | Switched(to: string)

  datatype State = State(items: Items<Document>, siteID: string, lastRecovery: Option<int>, ttl: int, now: int,
                         log: seq<Event>)

  // ------------------------------------------------------- choosing a new site

  function ExtractProductID(prod: Product): (id: string) {
    if prod.energySiteID.Some? then prod.energySiteID.value
    else if prod.id.Some? then prod.id.value
    else ""
  }

  predicate Listed(products: seq<Product>, site: string) {
    exists i :: 0 <= i < |products| && ExtractProductID(products[i]) == site
  }

  /** The empty string when there is nothing to switch to. */
  function FindReplacementSite(products: seq<Product>, current: string): (site: string)
    ensures site != "" <==> |products| == 1 && ExtractProductID(products[0]) !in {"", current}
    ensures site != "" ==> Listed(products, site) && !Listed(products, current)
  {
    if Listed(products, current) then ""
    else if |products| != 1 then ""
    else ExtractProductID(products[0])
  }

  // --------------------------------------------------- what one read amounts to

  predicate MayRecover(s: State) { s.lastRecovery.None? || s.now - s.lastRecovery.value >= RECOVERY_INTERVAL }

  /** The site that a recovery would switch to, or the empty string. */
  function Replacement(s: State, listing: Listing): (site: string) {
    if MayRecover(s) && listing.products.Some? then FindReplacementSite(listing.products.value, s.siteID) else ""
  }

  function Recovered(s: State, listing: Listing): (s': State) {
    if !MayRecover(s) then s
    else
      var s1 := s.(lastRecovery := Some(s.now), now := s.now + listing.elapsed, log := s.log + [Attempted(s.now)]);
      var site := Replacement(s, listing);
      if site == "" then s1 else s1.(siteID := site, items := map[], log := s1.log + [Switched(site)])
  }

  /** The state once the last reply is there, that reply, and where it came from. */
  function Exchange(s: State, url: Url, net: Net): (r: (State, Reply, Url)) {
    var s1 := s.(now := s.now + net.first.elapsed);
    if net.first.Http? && net.first.status == 404 then
      var s2 := Recovered(s1, net.listing);
      if Replacement(s1, net.listing) == "" then (s2, net.first, url)
      else
        var s3 := s2.(now := s2.now + net.retry.elapsed);
        if net.retry.NoReply? then (s3, net.first, url) else (s3, net.retry, Url(s3.siteID, url.read))
    else (s1, net.first, url)
  }

  function Conclude(s: State, key: string, url: Url, reply: Reply): (r: (State, Result<Document, HttpError>)) {
    if reply.NoReply? then (s, Err(NoConnection))
    else if CheckStatus(reply.status).Some? then (s, Err(CheckStatus(reply.status).value))
    else if reply.json.None? then (s, Err(NotJson))
    else
      (s.(items := s.items[key := Item(Positive(s.now, reply.json.value), s.now + s.ttl)],
          log := s.log + [Answered(url, s.now, reply.json.value)]), Ok(reply.json.value))
  }

  function Fetch(s: State, key: string, url: Url, force: bool, limit: Option<int>, net: Net)
    : (r: (State, Result<Document, HttpError>))
  {
    var hit := if force then Miss else Lookup(s.items, key, s.now, limit);
    if hit.PositiveHit? then (s, Ok(hit.value))
    else
      var (s1, reply, from) := Exchange(s, url, net);
      Conclude(s1, key, from, reply)
  }

  function ReadSite(s: State, read: Read, force: bool, net: Net): (r: (State, Result<Document, HttpError>)) {
    Fetch(s, CacheKey(read), Url(s.siteID, read), force, AgeLimit(read), net)
  }

  // ---------------------------------------------------------------- the client

  class Client {
    const cache: Cache<Document>
    var siteID: string
    var lastRecovery: Option<int>
    var now: int
    ghost var log: seq<Event>

    constructor (siteID: string, cacheTTL: int, now: int)
      requires cacheTTL > 0
      ensures View() == Fresh(siteID, cacheTTL, now) && fresh(cache)
    {
      cache := new Cache<Document>(cacheTTL);
      this.siteID, lastRecovery, this.now, log := siteID, None, now, [];
    }

    ghost function View(): State
      reads this, cache
    {
      State(cache.items, siteID, lastRecovery, cache.defaultTTL, now, log)
    }

    method RecoverStaleSite(listing: Listing) returns (switched: bool)
      modifies this, cache
      ensures View() == Recovered(old(View()), listing)
      ensures switched <==> Replacement(old(View()), listing) != ""
    {
      if lastRecovery.Some? && now - lastRecovery.value < RECOVERY_INTERVAL {
        return false;
      }
      lastRecovery := Some(now);
      log := log + [Attempted(now)];
      now := now + listing.elapsed;
      if listing.products.None? || |listing.products.value| == 0 {
        return false;
      }
      var replacement := FindReplacementSite(listing.products.value, siteID);
      if replacement == "" {
        return false;
      }
      siteID := replacement;
      log := log + [Switched(replacement)];
      cache.Clear();
      return true;
    }

    method FetchSiteJSON(key: string, url: Url, force: bool, limit: Option<int>, net: Net)
      returns (res: Result<Document, HttpError>)
      modifies this, cache
      ensures (View(), res) == Fetch(old(View()), key, url, force, limit, net)
    {
      if !force {
        var hit := cache.Get(key, now, limit);
        if hit.PositiveHit? {
          return Ok(hit.value);
        }
      }
      now := now + net.first.elapsed;
      if net.first.NoReply? {
        return Err(NoConnection);
      }
      var resp, from := net.first, url;
      if resp.status == 404 {
        var switched := RecoverStaleSite(net.listing);
        if switched {
          now := now + net.retry.elapsed;
          if net.retry.Http? {
            resp, from := net.retry, Url(siteID, url.read);
          }
        }
      }
      var statusErr := CheckStatus(resp.status);
      if statusErr.Some? {
        return Err(statusErr.value);
      }
      if resp.json.None? {
        return Err(NotJson);
      }
      cache.Set(key, resp.json.value, now);
      log := log + [Answered(from, now, resp.json.value)];
      return Ok(resp.json.value);
    }
  }

  // -------------------------------------------------------------------- runs

  datatype Op = ReadOp(read: Read, force: bool, net: Net) | InvalidateOp(api: string) | DeleteOp(key: string)
    | Wait(d: nat)

  function Step(s: State, op: Op): (s': State) {
    match op
    case ReadOp(read, force, net) => ReadSite(s, read, force, net).0
    case InvalidateOp(api) => s.(items := s.items - BothKeyspaces(ReadKeys(api)))
    case DeleteOp(key) => s.(items := s.items - BothKeyspaces([key]))
    case Wait(d) => s.(now := s.now + d)
  }

  function Run(s: State, ops: seq<Op>): (s': State) {
    if ops == [] then s else Step(Run(s, ops[..|ops| - 1]), ops[|ops| - 1])
  }

  function Fresh(siteID: string, ttl: int, now: int): (s: State) { State(map[], siteID, None, ttl, now, []) }

  /** Event `i` is an answer to this read, from the site in use and given since the
      last switch. */
  ghost predicate IsReading(s: State, i: nat, read: Read) {
    && i < |s.log| && s.log[i].Answered? && s.log[i].url == Url(s.siteID, read)
    && forall j :: i < j < |s.log| ==> !s.log[j].Switched?
  }

  /** The item holds answer `i` under the key of its read. */
  ghost predicate Holds(s: State, i: nat, read: Read, key: string, item: Item<Document>) {
    IsReading(s, i, read) && key == CacheKey(read)
    && item == Item(Positive(s.log[i].at, s.log[i].json), s.log[i].at + s.ttl)
  }

  ghost predicate Sound(s: State) {
    forall key :: key in s.items ==> exists i: nat, read :: Holds(s, i, read, key, s.items[key])
  }

  predicate IsAttempt(log: seq<Event>, i: nat, at: int) { i < |log| && log[i] == Attempted(at) }

  ghost predicate AttemptsAreSpaced(s: State) {
    && (forall i, j :: 0 <= i < j < |s.log| && s.log[i].Attempted? && s.log[j].Attempted?
                       ==> s.log[i].at + RECOVERY_INTERVAL <= s.log[j].at)
    && (forall i :: 0 <= i < |s.log| && s.log[i].Attempted?
                    ==> s.lastRecovery.Some? && s.log[i].at <= s.lastRecovery.value)
    && (s.lastRecovery.Some? ==> exists i: nat :: IsAttempt(s.log, i, s.lastRecovery.value))
  }

  ghost predicate Valid(s: State) { Sound(s) && AttemptsAreSpaced(s) }

  lemma RecoveredIsValid(s: State, listing: Listing)
    requires Valid(s)
    ensures Valid(Recovered(s, listing)) && Recovered(s, listing).ttl == s.ttl
  {
    if MayRecover(s) {
      var s' := Recovered(s, listing);
      assert IsAttempt(s'.log, |s.log|, s.now);
      if Replacement(s, listing) == "" {
        forall key | key in s'.items ensures exists i: nat, read :: Holds(s', i, read, key, s'.items[key]) {
          var i: nat, read :| Holds(s, i, read, key, s.items[key]);
          assert Holds(s', i, read, key, s'.items[key]);
        }
      }
    }
  }

  lemma Later(s: State, d: nat)
    requires Valid(s)
    ensures Valid(s.(now := s.now + d))
  {
    var s' := s.(now := s.now + d);
    forall key | key in s'.items ensures exists i: nat, read :: Holds(s', i, read, key, s'.items[key]) {
      var i: nat, read :| Holds(s, i, read, key, s.items[key]);
      assert Holds(s', i, read, key, s'.items[key]);
    }
  }

  lemma Forgetful(s: State, keys: set<string>)
    requires Valid(s)
    ensures Valid(s.(items := s.items - keys))
  {
    var s' := s.(items := s.items - keys);
    forall key | key in s'.items ensures exists i: nat, read :: Holds(s', i, read, key, s'.items[key]) {
      var i: nat, read :| Holds(s, i, read, key, s.items[key]);
      assert Holds(s', i, read, key, s'.items[key]);
    }
  }

  lemma ConcludedIsValid(s: State, read: Read, reply: Reply)
    requires Valid(s)
    ensures Valid(Conclude(s, CacheKey(read), Url(s.siteID, read), reply).0)
  {
    var s' := Conclude(s, CacheKey(read), Url(s.siteID, read), reply).0;
    if s' != s {
      if s.lastRecovery.Some? {
        var i: nat :| IsAttempt(s.log, i, s.lastRecovery.value);
        assert IsAttempt(s'.log, i, s.lastRecovery.value);
      }
      forall key | key in s'.items ensures exists i: nat, read' :: Holds(s', i, read', key, s'.items[key]) {
        if key == CacheKey(read) {
          assert Holds(s', |s.log|, read, key, s'.items[key]);
        } else {
          var i: nat, read' :| Holds(s, i, read', key, s.items[key]);
          assert Holds(s', i, read', key, s'.items[key]);
        }
      }
    }
  }

  /** A reply that is concluded with came from the site in use, or has no content. */
  lemma ExchangeIsValid(s: State, read: Read, net: Net)
    requires Valid(s)
    ensures var (s', reply, from) := Exchange(s, Url(s.siteID, read), net);
            Valid(s') && s'.ttl == s.ttl
            && (from == Url(s'.siteID, read) || (reply.Http? && reply.status == 404))
  {
    ExchangeLeaves(s, read, net);
    Later(s, net.first.elapsed);
    if net.first.Http? && net.first.status == 404 {
      var s1 := s.(now := s.now + net.first.elapsed);
      RecoveredIsValid(s1, net.listing);
      Later(Recovered(s1, net.listing), net.retry.elapsed);
    }
  }

  /** The state that an exchange leaves, and where its reply came from. */
  lemma ExchangeLeaves(s: State, read: Read, net: Net)
    ensures var s1 := s.(now := s.now + net.first.elapsed);
            var s2 := Recovered(s1, net.listing);
            var (s', reply, from) := Exchange(s, Url(s.siteID, read), net);
            && s' == (if !net.first.Http? || net.first.status != 404 then s1
                      else if Replacement(s1, net.listing) == "" then s2
                      else s2.(now := s2.now + net.retry.elapsed))
            && (from == Url(s'.siteID, read) || (reply.Http? && reply.status == 404))
  {
  }

  lemma ReadIsValid(s: State, read: Read, force: bool, net: Net)
    requires Valid(s)
    ensures Valid(ReadSite(s, read, force, net).0) && ReadSite(s, read, force, net).0.ttl == s.ttl
  {
    ExchangeIsValid(s, read, net);
    var (s1, reply, from) := Exchange(s, Url(s.siteID, read), net);
    if from == Url(s1.siteID, read) {
      ConcludedIsValid(s1, read, reply);
    }
  }

  lemma StepIsValid(s: State, op: Op)
    requires Valid(s)
    ensures Valid(Step(s, op)) && Step(s, op).ttl == s.ttl
  {
    match op
    case ReadOp(read, force, net) => ReadIsValid(s, read, force, net);
    case InvalidateOp(api) => Forgetful(s, BothKeyspaces(ReadKeys(api)));
    case DeleteOp(key) => Forgetful(s, BothKeyspaces([key]));
    case Wait(d) => Later(s, d);
  }

  lemma {:induction false} RunIsValid(s: State, ops: seq<Op>)
    requires Valid(s)
    ensures Valid(Run(s, ops)) && Run(s, ops).ttl == s.ttl
  {
    if ops != [] {
      RunIsValid(s, ops[..|ops| - 1]);
      StepIsValid(Run(s, ops[..|ops| - 1]), ops[|ops| - 1]);
    }
  }

  // ------------------------------------------------------------ what runs keep

  /** No cached answer outlives the use of its site. */
  lemma CachedEntriesAreOfCurrentSite(site: string, ttl: int, start: int, ops: seq<Op>, key: string)
    requires key in Run(Fresh(site, ttl, start), ops).items
    ensures var s := Run(Fresh(site, ttl, start), ops);
            exists i: nat, read :: Holds(s, i, read, key, s.items[key])
  {
    RunIsValid(Fresh(site, ttl, start), ops);
  }

  /** Event `i` is an answer with this content, young enough for both lifetimes. */
  ghost predicate IsAnswer(s: State, i: nat, read: Read, json: Document, ttl: nat) {
    IsReading(s, i, read) && s.log[i].json == json
    && (s.now - s.log[i].at <= if read.SiteInfo? then Min(ttl, SITE_CONFIG_TTL) else ttl)
  }

  /** Whatever happened before, a read answers with what the site in use said to
      this very read, at most as long ago as both lifetimes allow. */
  lemma ReadIsFaithful(site: string, ttl: nat, start: int, ops: seq<Op>, read: Read, force: bool, net: Net)
    ensures var s := Run(Fresh(site, ttl, start), ops);
            var (s', res) := ReadSite(s, read, force, net);
            res.Ok? ==> exists i: nat :: IsAnswer(s', i, read, res.value, ttl) && (force ==> |s.log| <= i)
  {
    RunIsValid(Fresh(site, ttl, start), ops);
    ReadOfValidIsFaithful(Run(Fresh(site, ttl, start), ops), read, force, net);
  }

  lemma ReadOfValidIsFaithful(s: State, read: Read, force: bool, net: Net)
    requires Valid(s) && s.ttl >= 0
    ensures var (s', res) := ReadSite(s, read, force, net);
            res.Ok? ==> exists i: nat :: IsAnswer(s', i, read, res.value, s.ttl) && (force ==> |s.log| <= i)
  {
    var key := CacheKey(read);
    if !force && Lookup(s.items, key, s.now, AgeLimit(read)).PositiveHit? {
      var i: nat, read' :| Holds(s, i, read', key, s.items[key]);
      KeysAreDistinct(read, read');
      assert IsAnswer(s, i, read, s.items[key].entry.value, s.ttl);
    } else {
      ExchangeIsValid(s, read, net);
      ExchangeExtendsLog(s, read, net);
      var (s1, reply, from) := Exchange(s, Url(s.siteID, read), net);
      var (s', res) := Conclude(s1, key, from, reply);
      assert res.Ok? ==> IsAnswer(s', |s1.log|, read, res.value, s.ttl);
    }
  }

  lemma ExchangeExtendsLog(s: State, read: Read, net: Net)
    ensures s.log <= Exchange(s, Url(s.siteID, read), net).0.log
  {
  }

  lemma KeysAreDistinct(a: Read, b: Read)
    requires CacheKey(a) == CacheKey(b)
    ensures a == b
  {
    assert |"SITE_TARIFF"| == 11 && |"SITE_DATA"| == 9 && |"SITE_CONFIG"| == 11 && |"SITE_SUMMARY"| == 12;
    assert |"BACKUP_TIME_REMAINING"| == 21;
    assert "SITE_TARIFF"[5] != "SITE_CONFIG"[5];
  }

  /** The reply that a read ends with, if it makes a request: the repeated one when the
      site was switched and there is one. */
  ghost function LastReply(s: State, op: Op): (reply: Reply)
    requires op.ReadOp?
  {
    if Abandons(s, op) && op.net.retry.Http? then op.net.retry else op.net.first
  }

  /** A read that is not served from the cache succeeds or fails with its last reply; a
      good one is cached, anything else is not. */
  lemma LastReplyDecides(s: State, op: Op)
    requires op.ReadOp?
    requires op.force || !Lookup(s.items, CacheKey(op.read), s.now, AgeLimit(op.read)).PositiveHit?
    ensures var (s', res) := ReadSite(s, op.read, op.force, op.net);
            var reply := LastReply(s, op);
            && (forall json :: res == Ok(json) <==> reply.Http? && reply.status < 400 && reply.json == Some(json))
            && (reply.NoReply? ==> res == Err(NoConnection))
            && (reply.Http? && reply.status in {401, 403} ==> res == Err(LoginFailed))
            && (reply.Http? && reply.status == 404 ==> res == Err(NotFound))
            && (reply.Http? && reply.status in {429, 503} ==> res == Err(RateLimited))
            && (reply.Http? && reply.status >= 400 && reply.status !in {401, 403, 404, 429, 503} ==>
                  res == Err(UnexpectedStatus))
            && (reply.Http? && reply.status < 400 && reply.json.None? ==> res == Err(NotJson))
            && var kept := if Abandons(s, op) then map[] else s.items;
               s'.items == if res.Ok? then kept[CacheKey(op.read) := Item(Positive(s'.now, res.value), s'.now + s.ttl)]
                           else kept
  {
    ExchangeDecides(s, op);
  }

  /** A good answer is served again, without a request, for as long as it lives: for the
      configured lifetime, and the site configuration for no more than 59 seconds. */
  lemma AnswerIsReused(s: State, op: Op, wait: nat, net: Net)
    requires op.ReadOp? && ReadSite(s, op.read, op.force, op.net).1.Ok? && s.ttl >= 0
    requires op.force || !Lookup(s.items, CacheKey(op.read), s.now, AgeLimit(op.read)).PositiveHit?
    ensures var (s1, res) := ReadSite(s, op.read, op.force, op.net);
            var s2 := s1.(now := s1.now + wait);
            var lives := wait <= s.ttl && (op.read.SiteInfo? ==> wait <= 59 * SECOND);
            && (lives ==> ReadSite(s2, op.read, false, net) == (s2, res))
            && (!lives && net.first.NoReply? ==> ReadSite(s2, op.read, false, net).1 == Err(NoConnection))
  {
    LastReplyDecides(s, op);
  }

  lemma ExchangeDecides(s: State, op: Op)
    requires op.ReadOp?
    requires op.force || !Lookup(s.items, CacheKey(op.read), s.now, AgeLimit(op.read)).PositiveHit?
    ensures var (s1, reply, from) := Exchange(s, Url(s.siteID, op.read), op.net);
            reply == LastReply(s, op) && s1.ttl == s.ttl && s1.items == if Abandons(s, op) then map[] else s.items
  {
  }

  /** What identifies a listed product: its energy site if it has one, else its own
      identifier. The one listed product replaces the site if that is another one. */
  lemma ReplacementIsIdentified(product: Product, current: string)
    ensures var site := FindReplacementSite([product], current);
            var id := match product
              case Product(Some(e), _) => e
              case Product(None, Some(i)) => i
              case Product(None, None) => "";
            site == if id == current then "" else id
  {
    var id := ExtractProductID(product);
    assert [product][0] == product;
  }

  lemma RunSpacesAttempts(site: string, ttl: int, start: int, ops: seq<Op>)
    ensures AttemptsAreSpaced(Run(Fresh(site, ttl, start), ops))
  {
    RunIsValid(Fresh(site, ttl, start), ops);
  }

  /** A read that the cache cannot serve, answered with 404. */
  predicate FindsSiteGone(s: State, op: Op) {
    && op.ReadOp? && op.net.first.Http? && op.net.first.status == 404
    && (op.force || !Lookup(s.items, CacheKey(op.read), s.now, AgeLimit(op.read)).PositiveHit?)
  }

  /** The read tries to recover if and only if no attempt of the last minute is on record. */
  ghost predicate TriesExactlyWhenDue(s: State, op: Op)
    requires FindsSiteGone(s, op)
  {
    var gone := s.now + op.net.first.elapsed;
    s.log + [Attempted(gone)] <= Step(s, op).log
    <==> forall i :: 0 <= i < |s.log| && s.log[i].Attempted? ==> s.log[i].at + RECOVERY_INTERVAL <= gone
  }

  /** A read that finds its site gone tries to recover exactly when no attempt of the
      last minute is on record: after a minute there is always another one. */
  lemma RecoveryIsTriedAgain(site: string, ttl: int, start: int, ops: seq<Op>, op: Op)
    requires FindsSiteGone(Run(Fresh(site, ttl, start), ops), op)
    ensures TriesExactlyWhenDue(Run(Fresh(site, ttl, start), ops), op)
  {
    RunSpacesAttempts(site, ttl, start, ops);
    RecoveryIsDue(Run(Fresh(site, ttl, start), ops), op);
  }

  lemma RecoveryIsDue(s: State, op: Op)
    requires AttemptsAreSpaced(s)
    requires FindsSiteGone(s, op)
    ensures TriesExactlyWhenDue(s, op)
  {
    if s.lastRecovery.Some? {
      var i: nat :| IsAttempt(s.log, i, s.lastRecovery.value);
    }
    AttemptIsLogged(s, op);
  }

  lemma AttemptIsLogged(s: State, op: Op)
    requires FindsSiteGone(s, op)
    ensures var s1 := s.(now := s.now + op.net.first.elapsed);
            s.log + [Attempted(s1.now)] <= Step(s, op).log <==> MayRecover(s1)
  {
    var s1 := s.(now := s.now + op.net.first.elapsed);
    var (s2, reply, from) := Exchange(s, Url(s.siteID, op.read), op.net);
    var log' := Conclude(s2, CacheKey(op.read), from, reply).0.log;
    if MayRecover(s1) {
      assert s.log + [Attempted(s1.now)] <= s2.log;
    } else {
      assert s2.log == s.log && log' == s.log;
    }
  }

  /** Two recovery attempts of one run are never less than a minute apart. */
  lemma RecoveryAttemptsAreSpaced(site: string, ttl: int, start: int, ops: seq<Op>, i: nat, j: nat)
    requires var log := Run(Fresh(site, ttl, start), ops).log; i < j < |log| && log[i].Attempted? && log[j].Attempted?
    ensures var log := Run(Fresh(site, ttl, start), ops).log; log[j].at - log[i].at >= RECOVERY_INTERVAL
  {
    RunIsValid(Fresh(site, ttl, start), ops);
  }

  /** The answer that makes a read switch sites: the site is gone, the last attempt
      is a minute old, and the account lists exactly one product, another one. */
  ghost predicate Abandons(s: State, op: Op) {
    && op.ReadOp?
    && (op.force || !Lookup(s.items, CacheKey(op.read), s.now, AgeLimit(op.read)).PositiveHit?)
    && op.net.first.Http? && op.net.first.status == 404
    && MayRecover(s.(now := s.now + op.net.first.elapsed))
    && op.net.listing.products.Some? && |op.net.listing.products.value| == 1
    && ExtractProductID(op.net.listing.products.value[0]) !in {"", s.siteID}
  }

  /** The site changes in exactly these cases, and then to the one listed product. */
  lemma SiteChangesOnlyWhenGone(s: State, op: Op)
    ensures Step(s, op).siteID != s.siteID <==> Abandons(s, op)
    ensures Abandons(s, op) ==> Step(s, op).siteID == ExtractProductID(op.net.listing.products.value[0])
  {
    if op.ReadOp? {
      var s1 := s.(now := s.now + op.net.first.elapsed);
      var (s2, reply, from) := Exchange(s, Url(s.siteID, op.read), op.net);
      assert Conclude(s2, CacheKey(op.read), from, reply).0.siteID == s2.siteID;
    }
  }

  /** A read that switched sites has left nothing in the cache but, when the new
      site answered, that one answer. */
  lemma SwitchEmptiesCache(s: State, op: Op)
    requires Abandons(s, op)
    ensures Step(s, op).items.Keys <= {CacheKey(op.read)}
    ensures CacheKey(op.read) in Step(s, op).items
            <==> op.net.retry.Http? && CheckStatus(op.net.retry.status).None? && op.net.retry.json.Some?
  {
    var (s2, reply, from) := Exchange(s, Url(s.siteID, op.read), op.net);
    assert s2.items == map[];
  }
}
