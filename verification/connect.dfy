/** The facade's connection: one live backend out of four, found by walking a
    cycle of modes with retries, over a dozen fields that have to agree. */
module Connect {
  import opened Common

  datatype ConnectionMode = ModeUnknown | ModeLocal | ModeHybrid | ModeTEDAPI | ModeV1r | ModeCloud | ModeFleetAPI

  datatype TEDAPIMode = TEDAPIOff | TEDAPIFull | TEDAPIHybrid | TEDAPIV1r

  const MAX_CONNECT_RETRIES := 3

  /** The gateway's own WiFi address, with or without the HTTPS port, is special. */
  datatype Host = NoHost | DefaultGateway(withPort: bool) | OtherHost(name: string)

  /** A backend object by identity. A local one may carry a TEDAPI client. */
  datatype Backend = LocalBackend(id: nat, layered: bool) | TedapiBackend(id: nat) | CloudBackend(id: nat)
    | FleetBackend(id: nat)

  datatype Config = Config(host: Host, password: string, gwPwd: string, rsaKeyPath: string, wifiHost: string,
                           failover: bool, wifiV1rFallback: bool)

  /** What New settled on from its options; Connect starts over from here. */
  datatype Configured = Configured(mode: ConnectionMode, cloudmode: bool, fleetapiFlag: bool)

  /** The text of an error; it may be empty. */
  datatype Reason = Unstated | PasswordRequired | Said(text: string)

  datatype ConnectError = NoError | NoMode | ModeFailed(mode: ConnectionMode, reason: Reason)

  /** The ten fields that describe a connection, and that a failed reconnect puts
      back. */
  datatype Snapshot = Snapshot(client: Option<Backend>, local: Option<Backend>, tedapi: Option<Backend>,
                               cloud: Option<Backend>,
                               fleetapi: Option<Backend>, mode: ConnectionMode, tedapiMode: TEDAPIMode,
                               cloudmode: bool, fleetapiFlag: bool, tedapiFlag: bool)

  datatype Conn = Conn(link: Snapshot, poller: Option<Backend>, configured: Configured, error: ConnectError,
                       nextId: nat)

  /** How the backends answer one attempt: the errors of the two signed transports
      and of authentication, and whether the hybrid probe connects. */
  datatype Attempt = Attempt(v1r: Option<Reason>, wifi: Option<Reason>, probe: bool, auth: Option<Reason>)

  // ------------------------------------------------------------ one attempt

  function Noted(c: Conn, mode: ConnectionMode, reason: Reason): (c': Conn) {
    if reason == Unstated || c.error != NoError then c else c.(error := ModeFailed(mode, reason))
  }

  /** The signed transport logs in with the customer password, or else with the
      last five characters of the gateway password. */
  predicate HasV1rPassword(cfg: Config) { cfg.password != "" || |cfg.gwPwd| >= 5 }

  predicate Signed(cfg: Config) { cfg.rsaKeyPath != "" }

  predicate PureTedapi(cfg: Config) { !Signed(cfg) && cfg.password == "" && cfg.gwPwd != "" }

  predicate HasTedapiClient(cfg: Config) { Signed(cfg) || PureTedapi(cfg) }

  predicate Probes(cfg: Config) { cfg.gwPwd != "" && cfg.host.DefaultGateway? }

  /** What comes of one attempt, whatever the connection was before it. A refused
      attempt of a plain local login also drops the hybrid sub-mode. */
  datatype Answer =
    | Refused(mode: ConnectionMode, reason: Reason, dropsHybrid: bool)
    | OpensV1r | OpensTedapi | OpensLocal(layered: bool) | OpensFleetAPI | OpensCloud

  function LocalAnswer(cfg: Config, a: Attempt): (r: Answer) {
    if Signed(cfg) then
      if !HasV1rPassword(cfg) then Refused(ModeLocal, PasswordRequired, false)
      else if a.v1r.Some? then Refused(ModeLocal, a.v1r.value, false)
      else if cfg.wifiHost != "" && cfg.wifiV1rFallback && a.wifi.Some? then Refused(ModeLocal, a.wifi.value, false)
      else OpensV1r
    else if PureTedapi(cfg) then OpensTedapi
    else if a.auth.Some? then Refused(ModeLocal, a.auth.value, true)
    else OpensLocal(Probes(cfg) && a.probe)
  }

  function AnswerOf(cfg: Config, mode: ConnectionMode, a: Attempt): (r: Answer) {
    match mode
    case ModeLocal => LocalAnswer(cfg, a)
    case ModeTEDAPI => LocalAnswer(cfg, a)
    case ModeV1r => LocalAnswer(cfg, a)
    case ModeFleetAPI => if a.auth.Some? then Refused(ModeFleetAPI, a.auth.value, false) else OpensFleetAPI
    case ModeCloud => if a.auth.Some? then Refused(ModeCloud, a.auth.value, false) else OpensCloud
    case _ => Refused(mode, Unstated, false)
  }

  function BackendOf(r: Answer, id: nat): (b: Backend)
    requires !r.Refused?
  {
    match r
    case OpensV1r => TedapiBackend(id)
    case OpensTedapi => TedapiBackend(id)
    case OpensLocal(layered) => LocalBackend(id, layered)
    case OpensFleetAPI => FleetBackend(id)
    case OpensCloud => CloudBackend(id)
  }

  /** The ten fields after the attempt; `id` names a backend that it opens. */
  function Linked(l: Snapshot, r: Answer, id: nat): (l': Snapshot) {
    if r.Refused? then if r.dropsHybrid then l.(tedapiMode := TEDAPIOff, tedapiFlag := false) else l
    else
      var b := Some(BackendOf(r, id));
      match r
      case OpensV1r => l.(client := b, tedapi := b, tedapiMode := TEDAPIV1r, tedapiFlag := true, mode := ModeV1r)
      case OpensTedapi => l.(client := b, tedapi := b, tedapiMode := TEDAPIFull, tedapiFlag := true, mode := ModeTEDAPI)
      case OpensLocal(layered) =>
        l.(client := b, local := b, cloudmode := false, fleetapiFlag := false,
           tedapiMode := if layered then TEDAPIHybrid else l.tedapiMode, tedapiFlag := layered || l.tedapiFlag)
      case OpensFleetAPI =>
        l.(client := b, fleetapi := b, tedapi := None, cloudmode := true, fleetapiFlag := true, tedapiFlag := false,
           tedapiMode := TEDAPIOff)
      case OpensCloud =>
        l.(client := b, cloud := b, tedapi := None, cloudmode := true, fleetapiFlag := false, tedapiFlag := false,
           tedapiMode := TEDAPIOff)
  }

  /** The connection after the attempt. */
  function Applied(c: Conn, r: Answer): (c': Conn) {
    var link := Linked(c.link, r, c.nextId);
    if r.Refused? then Noted(c, r.mode, r.reason).(link := link)
    else c.(link := link, poller := link.client, nextId := c.nextId + 1)
  }

  function InMode(c: Conn, mode: ConnectionMode): (c': Conn) { c.(link := c.link.(mode := mode)) }

  // --------------------------------------------------------- the whole walk

  function NextFailoverMode(mode: ConnectionMode): (next: ConnectionMode) {
    match mode
    case ModeLocal => ModeFleetAPI
    case ModeTEDAPI => ModeFleetAPI
    case ModeV1r => ModeFleetAPI
    case ModeFleetAPI => ModeCloud
    case ModeCloud => ModeLocal
    case _ => ModeUnknown
  }

  /** The mode of the `n`-th attempt. */
  function ModeAt(configured: ConnectionMode, failover: bool, n: nat): (mode: ConnectionMode) {
    if n == 0 || !failover then configured else NextFailoverMode(ModeAt(configured, failover, n - 1))
  }

  function AnswerAt(configured: ConnectionMode, cfg: Config, net: nat -> Attempt, n: nat): (r: Answer) {
    AnswerOf(cfg, ModeAt(configured, cfg.failover, n), net(n))
  }

  /** The first attempt from the `n`-th on that succeeds before the limit. */
  function FirstSuccess(configured: ConnectionMode, cfg: Config, net: nat -> Attempt, n: nat, limit: nat): (k: nat)
    requires n <= limit
    ensures n <= k <= limit
    ensures forall i :: n <= i < k ==> AnswerAt(configured, cfg, net, i).Refused?
    ensures k < limit ==> !AnswerAt(configured, cfg, net, k).Refused?
    decreases limit - n
  {
    if n == limit || !AnswerAt(configured, cfg, net, n).Refused? then n
    else FirstSuccess(configured, cfg, net, n + 1, limit)
  }

  /** The connection when the `n`-th attempt begins, all before it having failed. */
  function Tried(c: Conn, cfg: Config, net: nat -> Attempt, n: nat): (c': Conn) {
    var start := c.configured.mode;
    if n == 0 then InMode(c, start)
    else InMode(Applied(Tried(c, cfg, net, n - 1), AnswerAt(start, cfg, net, n - 1)), ModeAt(start, cfg.failover, n))
  }

  /** Attempts made when none succeeds: one round, or one more round than waits
      that run to their end before the caller gives up. */
  function Limit(cfg: Config, retry: bool, waits: nat): (n: nat) {
    var rounds := if retry then waits + 1 else 1;
    if cfg.failover then MAX_CONNECT_RETRIES * rounds else rounds
  }

  /** Without a previous client the configured mode and flags come back; with one
      everything that was connected does. */
  function Restored(c: Conn, prev: Snapshot): (c': Conn) {
    if prev.client.Some? then c.(link := prev, poller := prev.client) else c.(link := AsConfigured(c))
  }

  function AsConfigured(c: Conn): (l: Snapshot) {
    c.link.(mode := c.configured.mode, cloudmode := c.configured.cloudmode, fleetapiFlag := c.configured.fleetapiFlag,
            tedapiFlag := false, tedapiMode := TEDAPIOff)
  }

  function Adopted(c: Conn): (c': Conn) {
    if c.configured.mode != ModeUnknown then c
    else c.(configured := Configured(c.link.mode, c.link.cloudmode, c.link.fleetapiFlag))
  }

  function Started(c: Conn): (c': Conn) {
    c.(link := c.link.(mode := c.configured.mode, cloudmode := c.configured.cloudmode,
                       fleetapiFlag := c.configured.fleetapiFlag))
  }

  /** `waits` is the number of waits that pass before the context is cancelled. */
  function Connected(prev: Conn, cfg: Config, retry: bool, waits: nat, net: nat -> Attempt): (r: (Conn, bool)) {
    var c := Adopted(prev.(error := NoError));
    if c.configured.mode == ModeUnknown then (c.(error := NoMode), false)
    else
      var limit := Limit(cfg, retry, waits);
      (Walked(Started(c), cfg, net, limit, prev.link), FirstSuccess(c.configured.mode, cfg, net, 0, limit) < limit)
  }

  /** The first success connects; otherwise the state from before is put back. */
  function Walked(c: Conn, cfg: Config, net: nat -> Attempt, limit: nat, prev: Snapshot): (c': Conn) {
    var k := FirstSuccess(c.configured.mode, cfg, net, 0, limit);
    if k < limit then Applied(Tried(c, cfg, net, k), AnswerAt(c.configured.mode, cfg, net, k)).(error := NoError)
    else Restored(Tried(c, cfg, net, limit), prev)
  }

  function Closed(c: Conn): (c': Conn) {
    c.(link := c.link.(client := None, local := None, tedapi := None, cloud := None, fleetapi := None),
       poller := if c.link.client.Some? then None else c.poller)
  }

  // -------------------------------------------------------------- the facade

  /** The mode that the options select, before any probing of files. */
  function OptionMode(host: Host, cloudMode: bool, fleetAPI: bool): (c: Configured) {
    var cloud := cloudMode || host.NoHost?;
    if cloud && fleetAPI then Configured(ModeFleetAPI, true, true)
    else if cloud then Configured(ModeCloud, true, false)
    else if fleetAPI then Configured(ModeUnknown, false, false)
    else Configured(ModeLocal, false, false)
  }

  /** Auto-selection prefers a host, then a FleetAPI file, then a cloud file. */
  function Selected(host: Host, cloudMode: bool, fleetAPI: bool, autoSelect: bool, fleetFile: bool, cloudFile: bool)
    : (c: Configured)
  {
    if !autoSelect then OptionMode(host, cloudMode, fleetAPI)
    else if !host.NoHost? && !cloudMode && !fleetAPI then Configured(ModeLocal, false, false)
    else if fleetFile then Configured(ModeFleetAPI, true, true)
    else if cloudFile then Configured(ModeCloud, true, false)
    else OptionMode(host, cloudMode, fleetAPI)
  }

  /** The connection as New leaves it, before any attempt. */
  function Unconnected(c: Configured): (l: Snapshot) {
    Snapshot(None, None, None, None, None, c.mode, TEDAPIOff, c.cloudmode, c.fleetapiFlag, false)
  }

  function Initial(c: Configured): (conn: Conn) { Conn(Unconnected(c), None, c, NoError, 0) }

  class Powerwall {
    const config: Config
    var client: Option<Backend>
    var poller: Option<Backend>
    var local: Option<Backend>
    var tedapi: Option<Backend>
    var cloud: Option<Backend>
    var fleetapi: Option<Backend>
    var mode: ConnectionMode
    var tedapiMode: TEDAPIMode
    var cloudmode: bool
    var fleetapiFlag: bool
    var tedapiFlag: bool
    var configured: Configured
    var connectError: ConnectError
    var nextId: nat

    ghost function View(): Conn
      reads this
    {
      Conn(Snapshot(client, local, tedapi, cloud, fleetapi, mode, tedapiMode, cloudmode, fleetapiFlag, tedapiFlag),
           poller, configured, connectError, nextId)
    }

    constructor (config: Config, cloudMode: bool, fleetAPI: bool, autoSelect: bool, fleetFile: bool, cloudFile: bool)
      ensures this.config == config
      ensures View() == Initial(Selected(config.host, cloudMode, fleetAPI, autoSelect, fleetFile, cloudFile))
    {
      this.config := config;
      client, poller, local, tedapi, cloud, fleetapi := None, None, None, None, None, None;
      mode, tedapiMode, cloudmode, fleetapiFlag, tedapiFlag := ModeUnknown, TEDAPIOff, false, false, false;
      connectError, nextId := NoError, 0;
      new;
      var cloud := cloudMode;
      if config.host.NoHost? {
        cloud := true;
      }
      if cloud && !fleetAPI {
        mode, cloudmode := ModeCloud, true;
      } else if cloud && fleetAPI {
        mode, cloudmode, fleetapiFlag := ModeFleetAPI, true, true;
      } else if !cloud && !fleetAPI {
        mode := ModeLocal;
      }
      if autoSelect {
        if !config.host.NoHost? && !cloud && !fleetAPI {
          mode, cloudmode, fleetapiFlag := ModeLocal, false, false;
        } else if fleetFile {
          mode, cloudmode, fleetapiFlag := ModeFleetAPI, true, true;
        } else if cloudFile {
          mode, cloudmode, fleetapiFlag := ModeCloud, true, false;
        }
      }
      configured := Configured(mode, cloudmode, fleetapiFlag);
    }

    method NoteConnectError(mode: ConnectionMode, reason: Reason)
      modifies `connectError
      ensures View() == Noted(old(View()), mode, reason)
    {
      if reason == Unstated || connectError != NoError {
        return;
      }
      connectError := ModeFailed(mode, reason);
    }

    method SetClient(b: Option<Backend>)
      modifies `client, `poller
      ensures View() == old(View()).(link := old(View()).link.(client := b), poller := b)
    {
      client := b;
      poller := if b.Some? then b else None;
    }

    method ConnectV1r(a: Attempt) returns (ok: bool)
      requires Signed(config)
      modifies this
      ensures View() == Applied(old(View()), LocalAnswer(config, a)) && (ok <==> !LocalAnswer(config, a).Refused?)
    {
      var pwd := config.password;
      if pwd == "" && config.gwPwd != "" && |config.gwPwd| >= 5 {
        pwd := config.gwPwd[|config.gwPwd| - 5..];
      }
      if pwd == "" {
        NoteConnectError(ModeLocal, PasswordRequired);
        return false;
      }
      if a.v1r.Some? {
        NoteConnectError(ModeLocal, a.v1r.value);
        return false;
      }
      if config.wifiHost != "" && config.wifiV1rFallback {
        if a.wifi.Some? {
          NoteConnectError(ModeLocal, a.wifi.value);
          return false;
        }
      }
      tedapi := Some(TedapiBackend(nextId));
      nextId := nextId + 1;
      SetClient(tedapi);
      tedapiMode, tedapiFlag, mode := TEDAPIV1r, true, ModeV1r;
      return true;
    }

    method ConnectPureTEDAPI() returns (ok: bool)
      modifies this
      ensures View() == Applied(old(View()), OpensTedapi) && ok
    {
      tedapi := Some(TedapiBackend(nextId));
      nextId := nextId + 1;
      SetClient(tedapi);
      tedapiMode, tedapiFlag, mode := TEDAPIFull, true, ModeTEDAPI;
      return true;
    }

    method ConnectLocal(a: Attempt) returns (ok: bool)
      modifies this
      ensures View() == Applied(old(View()), LocalAnswer(config, a)) && (ok <==> !LocalAnswer(config, a).Refused?)
    {
      if config.rsaKeyPath != "" {
        ok := ConnectV1r(a);
        return ok;
      }
      if config.password == "" && config.gwPwd != "" {
        ok := ConnectPureTEDAPI();
        return ok;
      }
      ok := LoginLocal(a);
    }

    /** The local login proper, with the hybrid probe before it. */
    method LoginLocal(a: Attempt) returns (ok: bool)
      requires !HasTedapiClient(config)
      modifies this
      ensures View() == Applied(old(View()), LocalAnswer(config, a)) && (ok <==> !LocalAnswer(config, a).Refused?)
    {
      var backend := LocalBackend(nextId, false);
      if Probes(config) {
        if a.probe {
          backend := backend.(layered := true);
          tedapiMode, tedapiFlag := TEDAPIHybrid, true;
        }
      }
      if a.auth.None? {
        nextId := nextId + 1;
        local := Some(backend);
        SetClient(local);
        cloudmode, fleetapiFlag := false, false;
        return true;
      }
      NoteConnectError(ModeLocal, a.auth.value);
      tedapiMode, tedapiFlag := TEDAPIOff, false;
      return false;
    }

    method SetCloudFlags(fleet: bool)
      modifies `cloudmode, `fleetapiFlag, `tedapiFlag, `tedapiMode
      ensures View() == old(View()).(link := old(View()).link.(cloudmode := true, fleetapiFlag := fleet,
                                                               tedapiFlag := false, tedapiMode := TEDAPIOff))
    {
      cloudmode, fleetapiFlag, tedapiFlag, tedapiMode := true, fleet, false, TEDAPIOff;
    }

    method ConnectFleetAPI(a: Attempt) returns (ok: bool)
      modifies this
      ensures View() == Applied(old(View()), AnswerOf(config, ModeFleetAPI, a)) && (ok <==> a.auth.None?)
    {
      if a.auth.None? {
        if tedapi.Some? {
          tedapi := None;
        }
        fleetapi := Some(FleetBackend(nextId));
        nextId := nextId + 1;
        SetClient(fleetapi);
        SetCloudFlags(true);
        return true;
      }
      NoteConnectError(ModeFleetAPI, a.auth.value);
      return false;
    }

    method ConnectCloud(a: Attempt) returns (ok: bool)
      modifies this
      ensures View() == Applied(old(View()), AnswerOf(config, ModeCloud, a)) && (ok <==> a.auth.None?)
    {
      if a.auth.None? {
        if tedapi.Some? {
          tedapi := None;
        }
        cloud := Some(CloudBackend(nextId));
        nextId := nextId + 1;
        SetClient(cloud);
        SetCloudFlags(false);
        return true;
      }
      NoteConnectError(ModeCloud, a.auth.value);
      return false;
    }

    method TryMode(mode: ConnectionMode, a: Attempt) returns (ok: bool)
      modifies this
      ensures View() == Applied(old(View()), AnswerOf(config, mode, a)) && (ok <==> !AnswerOf(config, mode, a).Refused?)
    {
      match mode {
        case ModeLocal => ok := ConnectLocal(a);
        case ModeTEDAPI => ok := ConnectLocal(a);
        case ModeV1r => ok := ConnectLocal(a);
        case ModeFleetAPI => ok := ConnectFleetAPI(a);
        case ModeCloud => ok := ConnectCloud(a);
        case _ => ok := false;
      }
    }

    method RestoreFailedConnectState(prev: Snapshot)
      modifies this
      ensures View() == Restored(old(View()), prev)
    {
      if prev.client.Some? {
        SetClient(prev.client);
        local, tedapi, cloud, fleetapi := prev.local, prev.tedapi, prev.cloud, prev.fleetapi;
        mode, tedapiMode := prev.mode, prev.tedapiMode;
        cloudmode, fleetapiFlag, tedapiFlag := prev.cloudmode, prev.fleetapiFlag, prev.tedapiFlag;
        return;
      }
      RestoreConfiguredState();
    }

    method RestoreConfiguredState()
      modifies `mode, `cloudmode, `fleetapiFlag, `tedapiFlag, `tedapiMode
      ensures View() == old(View()).(link := AsConfigured(old(View())))
    {
      mode, cloudmode, fleetapiFlag := configured.mode, configured.cloudmode, configured.fleetapiFlag;
      tedapiFlag, tedapiMode := false, TEDAPIOff;
    }

    /** The `n`-th attempt of a walk over `net` that gives up at `limit`. */
    method AttemptMode(mode: ConnectionMode, a: Attempt, ghost c: Conn, ghost net: nat -> Attempt, ghost n: nat,
                       ghost limit: nat, ghost prev: Snapshot)
      returns (ok: bool)
      requires n < limit && FirstSuccess(c.configured.mode, config, net, 0, limit) >= n
      requires View() == Tried(c, config, net, n) && a == net(n)
               && mode == ModeAt(c.configured.mode, config.failover, n)
      modifies this
      ensures configured == c.configured
      ensures ok ==> View() == Walked(c, config, net, limit, prev)
      ensures ok ==> FirstSuccess(c.configured.mode, config, net, 0, limit) == n
      ensures !ok ==> InMode(View(), ModeAt(c.configured.mode, config.failover, n + 1)) == Tried(c, config, net, n + 1)
      ensures !ok ==> this.mode == mode && FirstSuccess(c.configured.mode, config, net, 0, limit) >= n + 1
      ensures !ok && n + 1 == limit ==>
        Walked(c, config, net, limit, prev) == Restored(Tried(c, config, net, limit), prev)
    {
      TriedInOrder(c, config, net, n);
      Turn(c, config, net, n, limit, prev);
      ok := TryMode(mode, a);
      if ok {
        connectError := NoError;
      }
    }

    method ConnectStrict(retry: bool, waits: nat, net: nat -> Attempt, ghost c: Conn, prev: Snapshot)
      returns (ok: bool)
      requires !config.failover && View() == c == Started(c)
      modifies this
      ensures View() == Walked(c, config, net, Limit(config, retry, waits), prev)
      ensures ok <==>
        FirstSuccess(c.configured.mode, config, net, 0, Limit(config, retry, waits)) < Limit(config, retry, waits)
    {
      var n := 0;
      ghost var limit := Limit(config, retry, waits);
      while true
        invariant View() == Tried(c, config, net, n) && configured == c.configured
        invariant n < limit && FirstSuccess(c.configured.mode, config, net, 0, limit) >= n
        decreases limit - n
      {
        ok := AttemptMode(configured.mode, net(n), c, net, n, limit, prev);
        if ok {
          return true;
        }
        n := n + 1;
        if !retry || n > waits {
          RestoreFailedConnectState(prev);
          return false;
        }
      }
    }

    /** An attempt in the current mode; a failure moves on to the next mode. */
    method AttemptAndAdvance(a: Attempt, ghost c: Conn, ghost net: nat -> Attempt, ghost n: nat, ghost limit: nat,
                             ghost prev: Snapshot)
      returns (ok: bool)
      requires n < limit && FirstSuccess(c.configured.mode, config, net, 0, limit) >= n
      requires config.failover && View() == Tried(c, config, net, n) && a == net(n)
      modifies this
      ensures ok ==> View() == Walked(c, config, net, limit, prev)
      ensures ok ==> FirstSuccess(c.configured.mode, config, net, 0, limit) == n
      ensures !ok ==> View() == Tried(c, config, net, n + 1)
      ensures !ok ==> FirstSuccess(c.configured.mode, config, net, 0, limit) >= n + 1
      ensures !ok ==> mode == ModeAt(c.configured.mode, true, n + 1) && configured == c.configured
    {
      TriedInOrder(c, config, net, n);
      ok := AttemptMode(mode, a, c, net, n, limit, prev);
      if !ok {
        Advance();
      }
    }

    method Advance()
      modifies `mode
      ensures mode == NextFailoverMode(old(mode)) && View() == InMode(old(View()), mode)
    {
      mode := NextFailoverMode(mode);
    }

    /** After a full round, which has come back to the configured mode by itself: the
        wait passes and the next round starts there, or the context is cancelled. */
    method WaitForNextRound(waited: nat, waits: nat, prev: Snapshot) returns (again: bool)
      requires mode == configured.mode
      modifies this
      ensures again <==> waited != waits
      ensures View() == if again then old(View()) else Restored(old(View()), prev)
    {
      if waited == waits {
        RestoreFailedConnectState(prev);
        return false;
      }
      mode := configured.mode;
      return true;
    }

    method ConnectWithFailover(retry: bool, waits: nat, net: nat -> Attempt, ghost c: Conn, prev: Snapshot)
      returns (ok: bool)
      requires config.failover && View() == c == Started(c)
      requires Startable(c.configured.mode)
      modifies this
      ensures View() == Walked(c, config, net, Limit(config, retry, waits), prev)
      ensures ok <==>
        FirstSuccess(c.configured.mode, config, net, 0, Limit(config, retry, waits)) < Limit(config, retry, waits)
    {
      var n, waited, attempt := 0, 0, 0;
      ghost var limit := Limit(config, retry, waits);
      while attempt < MAX_CONNECT_RETRIES
        invariant View() == Tried(c, config, net, n)
        invariant n == 3 * waited + attempt && attempt <= 3 && waited <= (if retry then waits else 0)
        invariant retry ==> attempt < 3
        invariant FirstSuccess(c.configured.mode, config, net, 0, limit) >= n
        decreases limit - n
      {
        attempt := attempt + 1;
        ok := AttemptAndAdvance(net(n), c, net, n, limit, prev);
        if ok {
          return true;
        }
        n := n + 1;
        if retry && attempt == MAX_CONNECT_RETRIES {
          RoundsEndAtStart(configured.mode, waited + 1);
          AllRefused(c, config, net, n, limit, prev);
          var again := WaitForNextRound(waited, waits, prev);
          if !again {
            return false;
          }
          waited := waited + 1;
          attempt := 0;
        }
      }
      AllRefused(c, config, net, n, limit, prev);
      RestoreFailedConnectState(prev);
      return false;
    }

    /** Forgets the last error and starts from the configured mode and flags, which
        the current ones become when nothing is configured. */
    method Begin() returns (known: bool)
      modifies this
      ensures known <==> Adopted(old(View())).configured.mode != ModeUnknown
      ensures var c := Adopted(old(View()).(error := NoError));
              View() == if known then Started(c) else c.(error := NoMode)
    {
      connectError := NoError;
      if configured.mode == ModeUnknown {
        configured := Configured(mode, cloudmode, fleetapiFlag);
      }
      if configured.mode == ModeUnknown {
        connectError := NoMode;
        return false;
      }
      mode, cloudmode, fleetapiFlag := configured.mode, configured.cloudmode, configured.fleetapiFlag;
      return true;
    }

    /** `waits` is how many of the waits between rounds pass before the context is
        cancelled; `net` answers the attempts in order. */
    method Connect(retry: bool, waits: nat, net: nat -> Attempt) returns (ok: bool)
      requires Valid(View(), config)
      modifies this
      ensures (View(), ok) == Connected(old(View()), config, retry, waits, net)
      ensures Valid(View(), config)
    {
      ConnectedIsValid(View(), config, retry, waits, net);
      ghost var c := Started(Adopted(View().(error := NoError)));
      var prev := Snapshot(client, local, tedapi, cloud, fleetapi, mode, tedapiMode, cloudmode, fleetapiFlag,
                           tedapiFlag);
      var known := Begin();
      if !known {
        return false;
      }
      if !config.failover {
        ok := ConnectStrict(retry, waits, net, c, prev);
      } else {
        ok := ConnectWithFailover(retry, waits, net, c, prev);
      }
    }

    method Close()
      modifies this
      ensures View() == Closed(old(View()))
    {
      if client.Some? {
        SetClient(None);
      }
      if local.Some? {
        local := None;
      }
      if tedapi.Some? {
        tedapi := None;
      }
      if cloud.Some? {
        cloud := None;
      }
      if fleetapi.Some? {
        fleetapi := None;
      }
    }
  }

  // -------------------------------------------------- what every state keeps

  /** The mode names the field that holds the client, and the flags go with it. */
  ghost predicate ModeNamesClient(l: Snapshot, cfg: Config, configured: Configured) {
    var flags := (l.cloudmode, l.fleetapiFlag);
    match l.mode
    case ModeLocal => l.local == l.client && !HasTedapiClient(cfg) && flags == (false, false)
    case ModeV1r => l.tedapi == l.client && Signed(cfg) && l.tedapiMode == TEDAPIV1r
      && flags == (configured.cloudmode, configured.fleetapiFlag)
    case ModeTEDAPI => l.tedapi == l.client && PureTedapi(cfg) && l.tedapiMode == TEDAPIFull
      && flags == (configured.cloudmode, configured.fleetapiFlag)
    case ModeCloud => l.cloud == l.client && flags == (true, false) && l.tedapiMode == TEDAPIOff
    case ModeFleetAPI => l.fleetapi == l.client && flags == (true, true) && l.tedapiMode == TEDAPIOff
    case _ => false
  }

  /** What holds even in the middle of Connect. */
  ghost predicate Coherent(l: Snapshot, cfg: Config) {
    && (l.tedapiFlag <==> l.tedapiMode != TEDAPIOff)
    && (l.client.None? ==> l.local.None? && l.tedapi.None? && l.cloud.None? && l.fleetapi.None?)
    && (l.tedapi.Some? ==> HasTedapiClient(cfg))
    && (!HasTedapiClient(cfg) ==> l.tedapiMode in {TEDAPIOff, TEDAPIHybrid})
  }

  predicate Startable(mode: ConnectionMode) { mode in {ModeLocal, ModeFleetAPI, ModeCloud} }

  ghost predicate Valid(c: Conn, cfg: Config) {
    && c.poller == c.link.client
    && Coherent(c.link, cfg)
    && (c.link.client.Some? ==> ModeNamesClient(c.link, cfg, c.configured))
    && (c.link.tedapi.Some? ==> c.link.mode == ModeTEDAPI || c.link.mode == ModeV1r)
    && (Startable(c.configured.mode)
        || (c.configured.mode == ModeUnknown && c.link.client.None? && c.link.mode == ModeUnknown))
  }

  lemma InitialIsValid(cfg: Config, cloudMode: bool, fleetAPI: bool, autoSelect: bool, fleetFile: bool, cloudFile: bool)
    ensures Valid(Initial(Selected(cfg.host, cloudMode, fleetAPI, autoSelect, fleetFile, cloudFile)), cfg)
  {
  }

  /** Which options lead to which mode. Without a usable combination there is none. */
  lemma ModeByOptions(host: Host, cloudMode: bool, fleetAPI: bool, autoSelect: bool, fleetFile: bool, cloudFile: bool)
    ensures var c := Selected(host, cloudMode, fleetAPI, autoSelect, fleetFile, cloudFile);
            var cloud := cloudMode || host.NoHost?;
            var file := autoSelect && (cloud || fleetAPI) && (fleetFile || cloudFile);
            && (c.mode == ModeLocal <==> !cloud && !fleetAPI)
            && (c.mode == ModeFleetAPI <==> (file && fleetFile) || (!file && cloud && fleetAPI))
            && (c.mode == ModeCloud <==> (file && !fleetFile) || (!file && cloud && !fleetAPI))
            && (c.mode == ModeUnknown <==> !file && !cloud && fleetAPI)
            && (c.cloudmode <==> c.mode == ModeFleetAPI || c.mode == ModeCloud)
            && (c.fleetapiFlag <==> c.mode == ModeFleetAPI)
  {
  }

  /** A failed attempt leaves every backend, the mode and the flags alone. */
  lemma RefusalChangesLittle(c: Conn, cfg: Config, r: Answer)
    requires r.Refused? && Coherent(c.link, cfg)
    ensures Coherent(Applied(c, r).link, cfg)
    ensures var l := Applied(c, r).link; l == c.link.(tedapiMode := l.tedapiMode, tedapiFlag := l.tedapiFlag)
    ensures Applied(c, r) == c.(link := Applied(c, r).link, error := Applied(c, r).error)
  {
  }

  lemma {:induction false} TriedInOrder(c: Conn, cfg: Config, net: nat -> Attempt, n: nat)
    ensures Tried(c, cfg, net, n).link.mode == ModeAt(c.configured.mode, cfg.failover, n)
    ensures Tried(c, cfg, net, n).configured == c.configured
  {
    if n > 0 {
      TriedInOrder(c, cfg, net, n - 1);
    }
  }

  /** When all attempts up to the limit were refused, the walk ends in the restoration. */
  lemma AllRefused(c: Conn, cfg: Config, net: nat -> Attempt, n: nat, limit: nat, prev: Snapshot)
    requires n <= limit && FirstSuccess(c.configured.mode, cfg, net, 0, limit) >= n
    ensures n == limit ==> Walked(c, cfg, net, limit, prev) == Restored(Tried(c, cfg, net, n), prev)
  {
  }

  /** One turn of either loop: a success is the first one and ends the walk, a
      refusal leads to the next attempt or, at the limit, to the restoration. */
  lemma Turn(c: Conn, cfg: Config, net: nat -> Attempt, n: nat, limit: nat, prev: Snapshot)
    requires n < limit && FirstSuccess(c.configured.mode, cfg, net, 0, limit) >= n
    ensures var now, r := Tried(c, cfg, net, n), AnswerAt(c.configured.mode, cfg, net, n);
            var k := FirstSuccess(c.configured.mode, cfg, net, 0, limit);
            if r.Refused? then
              && k >= n + 1 && Applied(now, r).link.mode == now.link.mode
              && Tried(c, cfg, net, n + 1) == InMode(Applied(now, r), ModeAt(c.configured.mode, cfg.failover, n + 1))
              && (n + 1 == limit ==> Walked(c, cfg, net, limit, prev) == Restored(Tried(c, cfg, net, n + 1), prev))
            else k == n && Walked(c, cfg, net, limit, prev) == Applied(now, r).(error := NoError)
  {
  }

  lemma {:induction false} CycleOfThree(start: ConnectionMode, n: nat)
    requires Startable(start)
    ensures n % 3 == 0 ==> ModeAt(start, true, n) == start
    ensures n % 3 == 1 ==> ModeAt(start, true, n) == NextFailoverMode(start)
    ensures n % 3 == 2 ==> ModeAt(start, true, n) == NextFailoverMode(NextFailoverMode(start))
  {
    if n > 0 {
      CycleOfThree(start, n - 1);
    }
  }

  lemma RoundsEndAtStart(start: ConnectionMode, rounds: nat)
    requires Startable(start)
    ensures ModeAt(start, true, 3 * rounds) == start
  {
    CycleOfThree(start, 3 * rounds);
  }

  /** Any three attempts in a row try the local, FleetAPI and cloud families once
      each, and the attempts repeat with period three from the configured mode. */
  lemma CycleCoversFamilies(start: ConnectionMode, n: nat)
    requires Startable(start)
    ensures {ModeAt(start, true, n), ModeAt(start, true, n + 1), ModeAt(start, true, n + 2)}
            == {ModeLocal, ModeFleetAPI, ModeCloud}
    ensures ModeAt(start, true, n + 3) == ModeAt(start, true, n)
    ensures ModeAt(start, true, 0) == start
  {
    CycleOfThree(start, n);
    CycleOfThree(start, n + 1);
    CycleOfThree(start, n + 2);
    CycleOfThree(start, n + 3);
  }

  lemma ModeAtIsFamily(start: ConnectionMode, failover: bool, n: nat)
    requires Startable(start)
    ensures Startable(ModeAt(start, failover, n))
  {
    if failover {
      CycleOfThree(start, n);
    }
  }

  /** While attempts fail, only the mode under trial, the TEDAPI sub-mode and the
      recorded reason move. */
  lemma {:induction false} TriedIsCoherent(c: Conn, cfg: Config, net: nat -> Attempt, n: nat)
    requires Coherent(c.link, cfg) && forall i :: 0 <= i < n ==> AnswerAt(c.configured.mode, cfg, net, i).Refused?
    ensures var t := Tried(c, cfg, net, n);
            && Coherent(t.link, cfg) && t == c.(link := t.link, error := t.error)
            && t.link == c.link.(mode := t.link.mode, tedapiMode := t.link.tedapiMode, tedapiFlag := t.link.tedapiFlag)
  {
    if n > 0 {
      TriedIsCoherent(c, cfg, net, n - 1);
      RefusalChangesLittle(Tried(c, cfg, net, n - 1), cfg, AnswerAt(c.configured.mode, cfg, net, n - 1));
    }
  }

  lemma SuccessIsValid(c: Conn, cfg: Config, a: Attempt)
    requires Coherent(c.link, cfg) && Startable(c.link.mode) && Startable(c.configured.mode)
    requires (c.link.cloudmode, c.link.fleetapiFlag) == (c.configured.cloudmode, c.configured.fleetapiFlag)
    requires !AnswerOf(cfg, c.link.mode, a).Refused?
    ensures Valid(Applied(c, AnswerOf(cfg, c.link.mode, a)), cfg)
            && Applied(c, AnswerOf(cfg, c.link.mode, a)).link.client.Some?
  {
  }

  /** The walk ends valid: connected by its first success, or as it was before. */
  lemma WalkedIsValid(c: Conn, cfg: Config, net: nat -> Attempt, limit: nat, prev: Snapshot)
    requires c == Started(c) && Coherent(c.link, cfg) && Startable(c.configured.mode)
    requires prev.client.Some? ==> Valid(c.(link := prev, poller := prev.client), cfg)
    requires prev.client.None? ==> c.link.client.None? && c.poller.None?
    ensures Valid(Walked(c, cfg, net, limit, prev), cfg)
    ensures FirstSuccess(c.configured.mode, cfg, net, 0, limit) < limit ==>
      Walked(c, cfg, net, limit, prev).link.client.Some?
  {
    var k := FirstSuccess(c.configured.mode, cfg, net, 0, limit);
    TriedIsCoherent(c, cfg, net, k);
    if k < limit {
      TriedInOrder(c, cfg, net, k);
      ModeAtIsFamily(c.configured.mode, cfg.failover, k);
      SuccessIsValid(Tried(c, cfg, net, k), cfg, net(k));
    }
  }

  /** Connect keeps the invariant whatever the backends answer. */
  lemma ConnectedIsValid(prev: Conn, cfg: Config, retry: bool, waits: nat, net: nat -> Attempt)
    requires Valid(prev, cfg)
    ensures Valid(Connected(prev, cfg, retry, waits, net).0, cfg)
    ensures Connected(prev, cfg, retry, waits, net).1 ==> Connected(prev, cfg, retry, waits, net).0.link.client.Some?
  {
    var c := Adopted(prev.(error := NoError));
    if c.configured.mode != ModeUnknown {
      WalkedIsValid(Started(c), cfg, net, Limit(cfg, retry, waits), prev.link);
    }
  }

  // -------------------------------------------------------------------- runs

  datatype Op = DoConnect(retry: bool, waits: nat, net: nat -> Attempt) | DoClose

  ghost function Run(c: Conn, cfg: Config, ops: seq<Op>): (c': Conn) {
    if ops == [] then c
    else
      var before := Run(c, cfg, ops[..|ops| - 1]);
      match ops[|ops| - 1]
      case DoConnect(retry, waits, net) => Connected(before, cfg, retry, waits, net).0
      case DoClose => Closed(before)
  }

  /** After a Close, whenever it comes, no backend and no poller is left; mode, flags and
      configuration stay. */
  lemma CloseLeavesNothing(cfg: Config, c: Conn, ops: seq<Op>)
    requires Valid(c, cfg)
    ensures var (before, after) := (Run(c, cfg, ops), Run(c, cfg, ops + [DoClose]));
            && after.poller.None?
            && after.link == Snapshot(None, None, None, None, None, before.link.mode, before.link.tedapiMode,
                                      before.link.cloudmode, before.link.fleetapiFlag, before.link.tedapiFlag)
            && after.configured == before.configured
  {
    RunIsValid(cfg, c, ops);
    assert (ops + [DoClose])[..|ops|] == ops;
  }

  /** Every sequence of Connect and Close from New leaves the fields in agreement. */
  lemma {:induction false} RunIsValid(cfg: Config, c: Conn, ops: seq<Op>)
    requires Valid(c, cfg)
    ensures Valid(Run(c, cfg, ops), cfg)
  {
    if ops != [] {
      var n := |ops| - 1;
      RunIsValid(cfg, c, ops[..n]);
      var before := Run(c, cfg, ops[..n]);
      match ops[n]
      case DoConnect(retry, waits, net) => ConnectedIsValid(before, cfg, retry, waits, net);
      case DoClose =>
    }
  }

  /** A failed Connect made every attempt it was entitled to. With a previous
      client all ten snapshot fields are back, without one they are as New left
      them, and the error is the first reason that an attempt gave. */
  lemma FailureRestores(prev: Conn, cfg: Config, retry: bool, waits: nat, net: nat -> Attempt)
    requires Valid(prev, cfg) && prev.configured.mode != ModeUnknown && !Connected(prev, cfg, retry, waits, net).1
    ensures Connected(prev, cfg, retry, waits, net).0.link
            == if prev.link.client.Some? then prev.link else Unconnected(prev.configured)
    ensures var limit := Limit(cfg, retry, waits);
            && (forall i :: 0 <= i < limit ==> AnswerAt(prev.configured.mode, cfg, net, i).Refused?)
            && Connected(prev, cfg, retry, waits, net).0.error == FirstReason(prev.configured.mode, cfg, net, 0, limit)
  {
    var c := Started(prev.(error := NoError));
    FirstReasonIsKept(c, cfg, net, Limit(cfg, retry, waits));
    TriedIsCoherent(c, cfg, net, Limit(cfg, retry, waits));
  }

  /** The first reason given by the attempts from the `i`-th up to the `n`-th. */
  function FirstReason(configured: ConnectionMode, cfg: Config, net: nat -> Attempt, i: nat, n: nat): (e: ConnectError)
    requires i <= n && forall j :: i <= j < n ==> AnswerAt(configured, cfg, net, j).Refused?
    decreases n - i
  {
    if i == n then NoError
    else
      var r := AnswerAt(configured, cfg, net, i);
      if r.reason != Unstated then ModeFailed(r.mode, r.reason) else FirstReason(configured, cfg, net, i + 1, n)
  }

  lemma {:induction false} FirstReasonIsKept(c: Conn, cfg: Config, net: nat -> Attempt, n: nat)
    requires c.error == NoError && forall i :: 0 <= i < n ==> AnswerAt(c.configured.mode, cfg, net, i).Refused?
    ensures Tried(c, cfg, net, n).error == FirstReason(c.configured.mode, cfg, net, 0, n)
  {
    if n > 0 {
      FirstReasonIsKept(c, cfg, net, n - 1);
      FirstReasonExtends(c.configured.mode, cfg, net, 0, n - 1);
    }
  }

  lemma {:induction false} FirstReasonExtends(configured: ConnectionMode, cfg: Config, net: nat -> Attempt, i: nat,
                                              n: nat)
    requires i <= n && forall j :: i <= j < n + 1 ==> AnswerAt(configured, cfg, net, j).Refused?
    ensures var r, e := AnswerAt(configured, cfg, net, n), FirstReason(configured, cfg, net, i, n);
            FirstReason(configured, cfg, net, i, n + 1)
            == if e != NoError then e else if r.reason != Unstated then ModeFailed(r.mode, r.reason) else NoError
    decreases n - i
  {
    if i < n {
      FirstReasonExtends(configured, cfg, net, i + 1, n);
    }
  }

  /** Connect fails exactly when every attempt it is entitled to is refused: three
      with failover and one without, and with retry as many again after every wait
      that is not cancelled. */
  lemma FailsWhenAllRefuse(prev: Conn, cfg: Config, retry: bool, waits: nat, net: nat -> Attempt)
    requires prev.configured.mode != ModeUnknown
    ensures Limit(cfg, retry, waits) == (if cfg.failover then 3 else 1) * (if retry then waits + 1 else 1)
    ensures !Connected(prev, cfg, retry, waits, net).1
            <==> forall i :: 0 <= i < Limit(cfg, retry, waits) ==> AnswerAt(prev.configured.mode, cfg, net, i).Refused?
  {
    var limit := Limit(cfg, retry, waits);
    var k := FirstSuccess(prev.configured.mode, cfg, net, 0, limit);
    assert k < limit ==> !AnswerAt(prev.configured.mode, cfg, net, k).Refused?;
  }

  // ------------------------------------------- what it takes, and what one gets

  /** The families in the order in which failover tries them. */
  const FAMILIES := [ModeLocal, ModeFleetAPI, ModeCloud]

  /** The family tried by the `n`-th attempt, the configured one being at `place`. */
  function FamilyAt(place: nat, failover: bool, n: nat): (mode: ConnectionMode)
    requires place < 3
  {
    if failover then FAMILIES[(place + n) % 3] else FAMILIES[place]
  }

  lemma {:induction false} ModeAtIsInOrder(place: nat, failover: bool, n: nat)
    requires place < 3
    ensures ModeAt(FAMILIES[place], failover, n) == FamilyAt(place, failover, n)
  {
    if n > 0 && failover {
      ModeAtIsInOrder(place, failover, n - 1);
    }
  }

  /** A signed local connection needs a password, the signed transport, and the one
      over WiFi where that is configured. */
  predicate SignedGetsThrough(cfg: Config, a: Attempt) {
    && (cfg.password != "" || |cfg.gwPwd| >= 5)
    && a.v1r.None? && (cfg.wifiHost != "" && cfg.wifiV1rFallback ==> a.wifi.None?)
  }

  /** The gateway, or the cloud, lets this attempt in. */
  predicate GetsThrough(cfg: Config, family: ConnectionMode, a: Attempt) {
    if family != ModeLocal then a.auth.None?
    else if cfg.rsaKeyPath != "" then SignedGetsThrough(cfg, a)
    else if cfg.password == "" && cfg.gwPwd != "" then true
    else a.auth.None?
  }

  /** The client that such an attempt opens. */
  function Opened(cfg: Config, family: ConnectionMode, a: Attempt, id: nat): (b: Backend) {
    if family == ModeFleetAPI then FleetBackend(id)
    else if family == ModeCloud then CloudBackend(id)
    else if cfg.rsaKeyPath != "" || (cfg.password == "" && cfg.gwPwd != "") then TedapiBackend(id)
    else LocalBackend(id, cfg.gwPwd != "" && cfg.host.DefaultGateway? && a.probe)
  }

  /** Why the others are turned away. */
  function Complaint(cfg: Config, family: ConnectionMode, a: Attempt): (reason: Reason)
    requires !GetsThrough(cfg, family, a)
  {
    if family != ModeLocal || cfg.rsaKeyPath == "" then a.auth.value
    else if cfg.password == "" && |cfg.gwPwd| < 5 then PasswordRequired
    else if a.v1r.Some? then a.v1r.value
    else a.wifi.value
  }

  lemma AttemptGetsThrough(cfg: Config, family: ConnectionMode, a: Attempt, id: nat)
    requires Startable(family)
    ensures !AnswerOf(cfg, family, a).Refused? <==> GetsThrough(cfg, family, a)
    ensures var r := AnswerOf(cfg, family, a);
            if r.Refused? then r.mode == family && r.reason == Complaint(cfg, family, a)
            else BackendOf(r, id) == Opened(cfg, family, a, id)
  {
  }

  /** Connect succeeds exactly when one of the attempts it is entitled to gets through,
      each in its family of the cycle. */
  lemma ConnectsIfOneGetsThrough(prev: Conn, cfg: Config, place: nat, retry: bool, waits: nat, net: nat -> Attempt)
    requires place < 3 && prev.configured.mode == FAMILIES[place]
    ensures var limit := (if cfg.failover then 3 else 1) * (if retry then waits + 1 else 1);
            Connected(prev, cfg, retry, waits, net).1
            <==> exists k: nat :: k < limit && GetsThrough(cfg, FamilyAt(place, cfg.failover, k), net(k))
  {
    var limit := (if cfg.failover then 3 else 1) * (if retry then waits + 1 else 1);
    FailsWhenAllRefuse(prev, cfg, retry, waits, net);
    forall k: nat | k < limit
      ensures AnswerAt(FAMILIES[place], cfg, net, k).Refused?
              <==> !GetsThrough(cfg, FamilyAt(place, cfg.failover, k), net(k))
    {
      ModeAtIsInOrder(place, cfg.failover, k);
      AttemptGetsThrough(cfg, FamilyAt(place, cfg.failover, k), net(k), 0);
    }
  }

  /** With no mode to start from, nothing is tried and nothing changes but the error. */
  lemma NoModeFailsAtOnce(prev: Conn, cfg: Config, retry: bool, waits: nat, net: nat -> Attempt)
    requires Valid(prev, cfg) && prev.configured.mode == ModeUnknown
    ensures var (c, ok) := Connected(prev, cfg, retry, waits, net);
            !ok && c.error == NoMode && c.link == prev.link && c.poller == prev.poller
  {
  }

  /** Where no mode was configured, the present one and its flags become the configured
      ones. */
  lemma PresentModeIsAdopted(prev: Conn, cfg: Config, retry: bool, waits: nat, net: nat -> Attempt)
    requires prev.configured.mode == ModeUnknown != prev.link.mode
    ensures var configured := Configured(prev.link.mode, prev.link.cloudmode, prev.link.fleetapiFlag);
            Connected(prev, cfg, retry, waits, net)
            == Connected(prev.(configured := configured), cfg, retry, waits, net)
  {
  }

  /** The first attempt that gets through opens the client, a new one of its family,
      and leaves no error. */
  lemma FirstThroughOpensClient(prev: Conn, cfg: Config, place: nat, retry: bool, waits: nat, net: nat -> Attempt,
                                k: nat)
    requires Valid(prev, cfg) && place < 3 && prev.configured.mode == FAMILIES[place]
    requires k < (if cfg.failover then 3 else 1) * (if retry then waits + 1 else 1)
    requires GetsThrough(cfg, FamilyAt(place, cfg.failover, k), net(k))
    requires forall i: nat :: i < k ==> !GetsThrough(cfg, FamilyAt(place, cfg.failover, i), net(i))
    ensures var c := Connected(prev, cfg, retry, waits, net).0;
            && c.link.client == Some(Opened(cfg, FamilyAt(place, cfg.failover, k), net(k), prev.nextId))
            && c.poller == c.link.client && c.error == NoError
  {
    var start := Started(prev.(error := NoError));
    FirstThroughIsFirstSuccess(prev, cfg, place, retry, waits, net, k);
    TriedIsCoherent(start, cfg, net, k);
    AnswerOpens(Tried(start, cfg, net, k), AnswerAt(FAMILIES[place], cfg, net, k));
    ModeAtIsInOrder(place, cfg.failover, k);
    AttemptGetsThrough(cfg, FamilyAt(place, cfg.failover, k), net(k), prev.nextId);
  }

  lemma AnswerOpens(c: Conn, r: Answer)
    requires !r.Refused?
    ensures Applied(c, r).link.client == Some(BackendOf(r, c.nextId))
    ensures Applied(c, r).poller == Applied(c, r).link.client
  {
  }

  lemma FirstThroughIsFirstSuccess(prev: Conn, cfg: Config, place: nat, retry: bool, waits: nat, net: nat -> Attempt,
                                   k: nat)
    requires place < 3 && prev.configured.mode == FAMILIES[place]
    requires k < (if cfg.failover then 3 else 1) * (if retry then waits + 1 else 1)
    requires GetsThrough(cfg, FamilyAt(place, cfg.failover, k), net(k))
    requires forall i: nat :: i < k ==> !GetsThrough(cfg, FamilyAt(place, cfg.failover, i), net(i))
    ensures k < Limit(cfg, retry, waits) && FirstSuccess(FAMILIES[place], cfg, net, 0, Limit(cfg, retry, waits)) == k
    ensures forall i: nat :: i < k ==> AnswerAt(FAMILIES[place], cfg, net, i).Refused?
    ensures !AnswerAt(FAMILIES[place], cfg, net, k).Refused?
  {
    forall i: nat | i <= k
      ensures AnswerAt(FAMILIES[place], cfg, net, i).Refused?
              <==> !GetsThrough(cfg, FamilyAt(place, cfg.failover, i), net(i))
    {
      ModeAtIsInOrder(place, cfg.failover, i);
      AttemptGetsThrough(cfg, FamilyAt(place, cfg.failover, i), net(i), 0);
    }
    FailsWhenAllRefuse(prev, cfg, retry, waits, net);
  }

  /** When none gets through, the error is the first reason given, if any gave one. */
  lemma ErrorIsFirstComplaint(prev: Conn, cfg: Config, place: nat, retry: bool, waits: nat, net: nat -> Attempt,
                              k: nat)
    requires Valid(prev, cfg) && place < 3 && prev.configured.mode == FAMILIES[place]
    requires var limit := (if cfg.failover then 3 else 1) * (if retry then waits + 1 else 1);
             k <= limit && forall i: nat :: i < limit ==>
               && !GetsThrough(cfg, FamilyAt(place, cfg.failover, i), net(i))
               && (i < k ==> Complaint(cfg, FamilyAt(place, cfg.failover, i), net(i)) == Unstated)
               && (i == k ==> Complaint(cfg, FamilyAt(place, cfg.failover, i), net(i)) != Unstated)
    ensures var limit := (if cfg.failover then 3 else 1) * (if retry then waits + 1 else 1);
            var family := FamilyAt(place, cfg.failover, k);
            Connected(prev, cfg, retry, waits, net).0.error
            == if k == limit then NoError else ModeFailed(family, Complaint(cfg, family, net(k)))
  {
    var limit := Limit(cfg, retry, waits);
    FailsWhenAllRefuse(prev, cfg, retry, waits, net);
    forall i: nat | i < limit
      ensures AnswerAt(FAMILIES[place], cfg, net, i).Refused?
      ensures var (r, family) := (AnswerAt(FAMILIES[place], cfg, net, i), FamilyAt(place, cfg.failover, i));
              r.mode == family && r.reason == Complaint(cfg, family, net(i))
    {
      ModeAtIsInOrder(place, cfg.failover, i);
      AttemptGetsThrough(cfg, FamilyAt(place, cfg.failover, i), net(i), 0);
    }
    FailureRestores(prev, cfg, retry, waits, net);
    FirstReasonIsAt(FAMILIES[place], cfg, net, 0, limit, k);
  }

  lemma {:induction false} FirstReasonIsAt(configured: ConnectionMode, cfg: Config, net: nat -> Attempt, i: nat, n: nat,
                                           k: nat)
    requires i <= k <= n && forall j :: i <= j < n ==> AnswerAt(configured, cfg, net, j).Refused?
    requires forall j :: i <= j < k ==> AnswerAt(configured, cfg, net, j).reason == Unstated
    requires k < n ==> AnswerAt(configured, cfg, net, k).reason != Unstated
    ensures var r := AnswerAt(configured, cfg, net, k);
            FirstReason(configured, cfg, net, i, n) == if k == n then NoError else ModeFailed(r.mode, r.reason)
    decreases k - i
  {
    if i < k {
      FirstReasonIsAt(configured, cfg, net, i + 1, n, k);
    }
  }

  // ------------------------------------------------------- the hybrid sub-mode

  /** The sub-mode says hybrid exactly when a TEDAPI client is on top of the local one. */
  predicate HybridIsTrue(l: Snapshot)
    requires l.client.Some? && l.client.value.LocalBackend?
  {
    l.tedapiMode == TEDAPIHybrid <==> l.client.value.layered
  }

  /** A refused local login among the first `n` attempts has reset the sub-mode. */
  ghost predicate Dropped(configured: ConnectionMode, cfg: Config, net: nat -> Attempt, n: nat) {
    exists i: nat :: i < n && RefusesLogin(configured, cfg, net, i)
  }

  predicate RefusesLogin(configured: ConnectionMode, cfg: Config, net: nat -> Attempt, i: nat) {
    && ModeAt(configured, cfg.failover, i) == ModeLocal
    && cfg.rsaKeyPath == "" && (cfg.password != "" || cfg.gwPwd == "") && net(i).auth.Some?
  }

  lemma {:induction false} TriedSubMode(c: Conn, cfg: Config, net: nat -> Attempt, n: nat)
    requires Startable(c.configured.mode)
    requires forall i :: 0 <= i < n ==> AnswerAt(c.configured.mode, cfg, net, i).Refused?
    ensures Tried(c, cfg, net, n).link.tedapiMode
            == if Dropped(c.configured.mode, cfg, net, n) then TEDAPIOff else c.link.tedapiMode
  {
    if n > 0 {
      TriedSubMode(c, cfg, net, n - 1);
      var r := AnswerAt(c.configured.mode, cfg, net, n - 1);
      ModeAtIsFamily(c.configured.mode, cfg.failover, n - 1);
      assert r.dropsHybrid <==> RefusesLogin(c.configured.mode, cfg, net, n - 1);
      assert Dropped(c.configured.mode, cfg, net, n)
        <==> Dropped(c.configured.mode, cfg, net, n - 1) || r.dropsHybrid;
    }
  }

  /** A Connect that ends with a local client reports the hybrid sub-mode truthfully
      exactly when the sub-mode was off before it, the probe of the successful login
      connected, or an earlier local login in the same Connect was refused. */
  lemma HybridMayBeStale(prev: Conn, cfg: Config, retry: bool, waits: nat, net: nat -> Attempt)
    requires Valid(prev, cfg) && prev.configured.mode != ModeUnknown && Connected(prev, cfg, retry, waits, net).1
    requires var c := Connected(prev, cfg, retry, waits, net).0;
             c.link.client.Some? && c.link.client.value.LocalBackend?
    ensures var k := FirstSuccess(prev.configured.mode, cfg, net, 0, Limit(cfg, retry, waits));
            HybridIsTrue(Connected(prev, cfg, retry, waits, net).0.link)
            <==> (prev.link.tedapiMode == TEDAPIOff || (Probes(cfg) && net(k).probe)
                  || Dropped(prev.configured.mode, cfg, net, k))
  {
    var k := FirstSuccess(prev.configured.mode, cfg, net, 0, Limit(cfg, retry, waits));
    SuccessIsLinked(prev, cfg, retry, waits, net);
    HybridOfWalk(Started(prev.(error := NoError)), cfg, net, k);
  }

  lemma SuccessIsLinked(prev: Conn, cfg: Config, retry: bool, waits: nat, net: nat -> Attempt)
    requires prev.configured.mode != ModeUnknown && Connected(prev, cfg, retry, waits, net).1
    ensures var k := FirstSuccess(prev.configured.mode, cfg, net, 0, Limit(cfg, retry, waits));
            var c := Started(prev.(error := NoError));
            && !AnswerAt(prev.configured.mode, cfg, net, k).Refused?
            && Connected(prev, cfg, retry, waits, net).0.link
               == Applied(Tried(c, cfg, net, k), AnswerAt(prev.configured.mode, cfg, net, k)).link
  {
  }

  lemma HybridOfWalk(c: Conn, cfg: Config, net: nat -> Attempt, k: nat)
    requires Startable(c.configured.mode)
    requires Coherent(c.link, cfg) && forall i :: 0 <= i < k ==> AnswerAt(c.configured.mode, cfg, net, i).Refused?
    requires var r := AnswerAt(c.configured.mode, cfg, net, k); !r.Refused? && BackendOf(r, 0).LocalBackend?
    ensures HybridIsTrue(Applied(Tried(c, cfg, net, k), AnswerAt(c.configured.mode, cfg, net, k)).link)
            <==> (c.link.tedapiMode == TEDAPIOff || (Probes(cfg) && net(k).probe)
                  || Dropped(c.configured.mode, cfg, net, k))
  {
    TriedIsCoherent(c, cfg, net, k);
    TriedSubMode(c, cfg, net, k);
    LocalComesFromLogin(Tried(c, cfg, net, k), cfg, ModeAt(c.configured.mode, cfg.failover, k), net(k));
  }

  lemma LocalComesFromLogin(c: Conn, cfg: Config, mode: ConnectionMode, a: Attempt)
    requires var r := AnswerOf(cfg, mode, a); !r.Refused? && BackendOf(r, c.nextId).LocalBackend?
    requires Coherent(c.link, cfg)
    ensures !HasTedapiClient(cfg) && AnswerOf(cfg, mode, a) == OpensLocal(Probes(cfg) && a.probe)
    ensures HybridIsTrue(Applied(c, AnswerOf(cfg, mode, a)).link)
            <==> (c.link.tedapiMode == TEDAPIOff || (Probes(cfg) && a.probe))
  {
  }

  /** It does come to that: a default gateway with both passwords, connected once with
      the probe and once more without, reports a hybrid client that has no TEDAPI
      client on top. */
  lemma StaleHybridIsReached(cfg: Config, probed: nat -> Attempt, unprobed: nat -> Attempt)
    requires cfg.host.DefaultGateway? && cfg.password != "" && cfg.gwPwd != "" && !Signed(cfg)
    requires probed(0).auth.None? && probed(0).probe && unprobed(0).auth.None? && !unprobed(0).probe
    ensures var start := Initial(Selected(cfg.host, false, false, false, false, false));
            var c := Run(start, cfg, [DoConnect(false, 0, probed), DoConnect(false, 0, unprobed)]);
            c.link.tedapiMode == TEDAPIHybrid && c.link.client == Some(LocalBackend(1, false))
  {
    var start := Initial(Selected(cfg.host, false, false, false, false, false));
    var first, both := [DoConnect(false, 0, probed)], [DoConnect(false, 0, probed), DoConnect(false, 0, unprobed)];
    assert first[..0] == [] && both[..1] == first;
    assert Run(start, cfg, []) == start;
    LocalSucceedsAtOnce(start, cfg, probed);
    LocalSucceedsAtOnce(Run(start, cfg, first), cfg, unprobed);
  }

  lemma LocalSucceedsAtOnce(prev: Conn, cfg: Config, net: nat -> Attempt)
    requires prev.configured.mode == ModeLocal && !HasTedapiClient(cfg) && net(0).auth.None?
    ensures Connected(prev, cfg, false, 0, net)
            == (Applied(Started(prev), OpensLocal(Probes(cfg) && net(0).probe)).(error := NoError), true)
  {
    var c := Started(prev.(error := NoError));
    var limit := Limit(cfg, false, 0);
    assert AnswerAt(ModeLocal, cfg, net, 0) == OpensLocal(Probes(cfg) && net(0).probe);
    assert FirstSuccess(ModeLocal, cfg, net, 0, limit) == 0;
  }
}
