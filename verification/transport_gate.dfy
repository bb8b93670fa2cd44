/** The gate in front of signed TEDAPI requests. Writes go over the wired LAN
    transport while it is healthy; once it has failed they may go over WiFi, but
    only within a minute of a signed read-only probe of that path. */
module TransportGate {
  import opened Common

  const READY_TTL := 60 * SECOND

  datatype Transport = Transport(id: nat, host: string)

  /** The fields of the driver that decide which transport a request gets. An
      unset deadline is the zero time. */
  datatype Gate = Gate(v1r: Option<Transport>, wifi: Option<Transport>, host: string, din: string,
                       failover: bool, fallback: bool, lanFailed: bool, readyUntil: Option<int>, pw3: bool)

  /** How a signed configuration read over WiFi went, and how long it took. */
  datatype Probe = Probe(elapsed: nat, answered: bool)

  predicate Requested(g: Gate) { g.v1r.Some? && g.failover && g.lanFailed && g.fallback }

  predicate CanProbe(g: Gate) {
    Requested(g) && g.wifi.Some? && g.wifi.value.host != "" && g.wifi.value.host != g.host && g.din != ""
  }

  function AfterProbe(g: Gate, now: int, probe: Probe): (g': Gate) {
    g.(readyUntil := if CanProbe(g) && probe.answered then Some(now + probe.elapsed + READY_TTL) else None)
  }

  predicate StillReady(g: Gate, now: int) { g.readyUntil.Some? && now < g.readyUntil.value }

  /** A write probes when WiFi is wanted and the last probe has run out. */
  predicate WriteProbes(g: Gate, now: int) { Requested(g) && g.wifi.Some? && !StillReady(g, now) }

  function AfterWrite(g: Gate, now: int, probe: Probe): (g': Gate) {
    if WriteProbes(g, now) then AfterProbe(g, now, probe) else g
  }

  function WriteTransport(g: Gate, now: int, probe: Probe): (t: Option<Transport>) {
    if !g.lanFailed then g.v1r
    else if Requested(g) && (WriteProbes(g, now) ==> CanProbe(g) && probe.answered) then g.wifi
    else None
  }

  function AfterConnect(g: Gate, lanDin: string, wifiDin: string): (g': Gate) {
    if lanDin != "" then g.(din := lanDin, lanFailed := false, readyUntil := None)
    else if g.failover && g.fallback && g.wifi.Some? && wifiDin != "" then g.(din := wifiDin, lanFailed := true)
    else g
  }

  function Fresh(host: string): (g: Gate) { Gate(None, None, host, "", true, false, false, None, false) }

  class Client {
    var v1r: Option<Transport>
    var wifiV1r: Option<Transport>
    var host: string
    var din: string
    var failover: bool
    var wifiV1rFallback: bool
    var lanFailed: bool
    var wifiV1rReadyUntil: Option<int>
    var pw3: bool

    ghost function View(): Gate
      reads this
    {
      Gate(v1r, wifiV1r, host, din, failover, wifiV1rFallback, lanFailed, wifiV1rReadyUntil, pw3)
    }

    constructor (host: string)
      ensures View() == Fresh(host)
    {
      this.host, din := host, "";
      v1r, wifiV1r := None, None;
      failover, wifiV1rFallback, lanFailed, wifiV1rReadyUntil, pw3 := true, false, false, None, false;
    }

    method SetV1rTransport(t: Option<Transport>)
      modifies this
      ensures View() == old(View()).(v1r := t, pw3 := true)
    {
      v1r, pw3 := t, true;
    }

    method SetWiFiV1rTransport(t: Option<Transport>)
      modifies this
      ensures View() == old(View()).(wifi := t)
    {
      wifiV1r := t;
    }

    method SetFailover(failover: bool, fallback: bool)
      modifies this
      ensures View() == old(View()).(failover := failover, fallback := fallback)
    {
      this.failover, wifiV1rFallback := failover, fallback;
    }

    method SetLANFailed(failed: bool)
      modifies this
      ensures View() == old(View()).(lanFailed := failed, readyUntil := if failed then old(wifiV1rReadyUntil) else None)
    {
      lanFailed := failed;
      if !failed {
        wifiV1rReadyUntil := None;
      }
    }

    /** Reads never wait for a probe. */
    method V1rReadTransport() returns (t: Option<Transport>)
      ensures t == if !lanFailed then v1r else if Requested(View()) then wifiV1r else None
    {
      if !lanFailed {
        return v1r;
      }
      if !(v1r.Some? && failover && lanFailed && wifiV1rFallback) {
        return None;
      }
      return wifiV1r;
    }

    method WiFiV1rReady(now: int, probe: Probe) returns (ready: bool)
      modifies this
      ensures View() == AfterProbe(old(View()), now, probe)
      ensures ready <==> View().readyUntil.Some?
    {
      wifiV1rReadyUntil := None;
      var requested := v1r.Some? && failover && lanFailed && wifiV1rFallback;
      if !requested || wifiV1r.None? || wifiV1r.value.host == "" || wifiV1r.value.host == host || din == "" {
        return false;
      }
      if !probe.answered {
        wifiV1rReadyUntil := None;
        return false;
      }
      wifiV1rReadyUntil := Some(now + probe.elapsed + READY_TTL);
      return true;
    }

    method V1rWriteTransport(now: int, probe: Probe) returns (t: Option<Transport>)
      modifies this
      ensures View() == AfterWrite(old(View()), now, probe)
      ensures t == WriteTransport(old(View()), now, probe)
    {
      if !lanFailed {
        return v1r;
      }
      if !(v1r.Some? && failover && lanFailed && wifiV1rFallback) {
        return None;
      }
      var wifi, readyUntil := wifiV1r, wifiV1rReadyUntil;
      if wifi.None? {
        return None;
      }
      if !(readyUntil.Some? && now < readyUntil.value) {
        var ready := WiFiV1rReady(now, probe);
        if !ready {
          return None;
        }
      }
      return wifi;
    }

    /** `lanDin` and `wifiDin` are the identities that logging in over LAN and
        WiFi gives, empty when that fails. */
    method ConnectV1r(lanDin: string, wifiDin: string) returns (ok: bool)
      modifies this
      ensures View() == AfterConnect(old(View()), lanDin, wifiDin)
      ensures ok <==> lanDin != "" || (failover && wifiV1rFallback && wifiV1r.Some? && wifiDin != "")
    {
      if lanDin != "" {
        din, lanFailed, wifiV1rReadyUntil := lanDin, false, None;
        return true;
      }
      if !failover || !wifiV1rFallback || wifiV1r.None? || wifiDin == "" {
        return false;
      }
      din, lanFailed := wifiDin, true;
      return true;
    }
  }

  // ------------------------------------------------------------------- runs

  datatype Op =
    | SetV1r(lan: Option<Transport>)
    | SetWiFi(wifi: Option<Transport>)
    | SetFailover(failover: bool, fallback: bool)
    | SetLANFailed(failed: bool)
    | Read
    | Ready(now: int, probe: Probe)
    | Write(now: int, probe: Probe)
    | Connect(lanDin: string, wifiDin: string)

  function Step(g: Gate, op: Op): (g': Gate) {
    match op
    case SetV1r(t) => g.(v1r := t, pw3 := true)
    case SetWiFi(t) => g.(wifi := t)
    case SetFailover(on, fb) => g.(failover := on, fallback := fb)
    case SetLANFailed(failed) => g.(lanFailed := failed, readyUntil := if failed then g.readyUntil else None)
    case Read => g
    case Ready(now, probe) => AfterProbe(g, now, probe)
    case Write(now, probe) => AfterWrite(g, now, probe)
    case Connect(lanDin, wifiDin) => AfterConnect(g, lanDin, wifiDin)
  }

  function Run(g: Gate, ops: seq<Op>): (g': Gate) {
    if ops == [] then g else Step(Run(g, ops[..|ops| - 1]), ops[|ops| - 1])
  }

  /** The `k`-th call probed the WiFi transport `t` and got an answer at `at`. */
  ghost predicate ProbedAt(g: Gate, ops: seq<Op>, k: nat, t: Transport, at: int)
    requires k < |ops|
  {
    var before := Run(g, ops[..k]);
    && (ops[k].Ready? || (ops[k].Write? && WriteProbes(before, ops[k].now)))
    && CanProbe(before) && before.wifi == Some(t)
    && ops[k].probe.answered && at == ops[k].now + ops[k].probe.elapsed
  }

  /** From the `k`-th call on the LAN transport has never been healthy. */
  ghost predicate LanDownSince(g: Gate, ops: seq<Op>, k: nat)
    requires k <= |ops|
  {
    forall j :: k <= j <= |ops| ==> Run(g, ops[..j]).lanFailed
  }

  /** The WiFi transport that is in place after these calls, if `wifi` was before. */
  function LastSet(ops: seq<Op>, wifi: Option<Transport>): (last: Option<Transport>) {
    if ops == [] then wifi
    else if ops[|ops| - 1].SetWiFi? then ops[|ops| - 1].wifi
    else LastSet(ops[..|ops| - 1], wifi)
  }

  lemma {:induction false} WiFiIsLastSet(g: Gate, ops: seq<Op>, k: nat)
    requires k <= |ops|
    ensures Run(g, ops).wifi == LastSet(ops[k..], Run(g, ops[..k]).wifi)
  {
    if k == |ops| {
      assert ops[..k] == ops;
    } else {
      var n := |ops| - 1;
      WiFiIsLastSet(g, ops[..n], k);
      assert ops[..n][..k] == ops[..k] && ops[k..][..n - k] == ops[..n][k..];
      assert ops[k..] != [] && ops[k..][n - k] == ops[n];
      assert !ops[n].SetWiFi? ==> Step(Run(g, ops[..n]), ops[n]).wifi == Run(g, ops[..n]).wifi;
    }
  }

  lemma RunPrefix(g: Gate, ops: seq<Op>, n: nat, k: nat, t: Transport, at: int)
    requires k < n <= |ops|
    ensures ProbedAt(g, ops[..n], k, t, at) <==> ProbedAt(g, ops, k, t, at)
    ensures LanDownSince(g, ops[..n], k) <==> forall j :: k <= j <= n ==> Run(g, ops[..j]).lanFailed
  {
    assert forall j :: 0 <= j <= n ==> ops[..n][..j] == ops[..j];
  }

  /** One call keeps a deadline only while LAN stays down, and moves it only by
      probing. */
  lemma StepKeepsDeadline(g: Gate, op: Op)
    requires Step(g, op).readyUntil.Some?
    ensures (op.Ready? || (op.Write? && WriteProbes(g, op.now))) ==>
      CanProbe(g) && op.probe.answered && Step(g, op) == g.(readyUntil := Some(op.now + op.probe.elapsed + READY_TTL))
    ensures !(op.Ready? || (op.Write? && WriteProbes(g, op.now))) ==>
      g.readyUntil == Step(g, op).readyUntil && (g.lanFailed ==> Step(g, op).lanFailed)
    ensures !op.SetWiFi? ==> Step(g, op).wifi == g.wifi
  {
  }

  lemma {:induction false} DeadlineHasProbe(g: Gate, ops: seq<Op>) returns (k: nat, t: Transport)
    requires g.readyUntil.None? && Run(g, ops).readyUntil.Some?
    ensures k < |ops| && ProbedAt(g, ops, k, t, Run(g, ops).readyUntil.value - READY_TTL)
    ensures LanDownSince(g, ops, k)
  {
    var n := |ops| - 1;
    var before, op := Run(g, ops[..n]), ops[n];
    assert ops[..n + 1] == ops;
    StepKeepsDeadline(before, op);
    if op.Ready? || (op.Write? && WriteProbes(before, op.now)) {
      k, t := n, before.wifi.value;
    } else {
      k, t := DeadlineHasProbe(g, ops[..n]);
      RunPrefix(g, ops, n, k, t, before.readyUntil.value - READY_TTL);
      assert Run(g, ops[..n]).lanFailed;
    }
  }

  /** A deadline that is set is backed by a probe a minute before it, made in the
      present outage; a healthy LAN leaves no deadline behind. The transport in place
      is the last one set since that probe, or the probed one. */
  lemma DeadlineIsBacked(g: Gate, ops: seq<Op>) returns (k: nat, t: Transport)
    requires g.readyUntil.None? && Run(g, ops).readyUntil.Some?
    ensures k < |ops| && ProbedAt(g, ops, k, t, Run(g, ops).readyUntil.value - READY_TTL)
    ensures LanDownSince(g, ops, k)
    ensures Run(g, ops).wifi == LastSet(ops[k..], Some(t))
  {
    k, t := DeadlineHasProbe(g, ops);
    WiFiIsLastSet(g, ops, k);
  }

  // --------------------------------------------- what a write gets, by the calls

  /** The LAN transport that is in place after these calls on a fresh client. */
  function LastLan(ops: seq<Op>): (last: Option<Transport>) {
    if ops == [] then None
    else if ops[|ops| - 1].SetV1r? then ops[|ops| - 1].lan
    else LastLan(ops[..|ops| - 1])
  }

  /** Failover is on until it is set, and the fallback over WiFi is off. */
  function LastSwitches(ops: seq<Op>): (on: (bool, bool)) {
    if ops == [] then (true, false)
    else if ops[|ops| - 1].SetFailover? then (ops[|ops| - 1].failover, ops[|ops| - 1].fallback)
    else LastSwitches(ops[..|ops| - 1])
  }

  /** A login over WiFi is tried when the one over LAN has failed. */
  predicate LoginOverWiFi(before: seq<Op>, op: Op) {
    && op.Connect? && op.lanDin == "" && op.wifiDin != ""
    && LastSwitches(before) == (true, true) && LastSet(before, None).Some?
  }

  /** Whether LAN counts as failed: as told last, by the driver's owner or by a login. */
  function LanIsDown(ops: seq<Op>): (down: bool) {
    if ops == [] then false
    else
      var (before, op) := (ops[..|ops| - 1], ops[|ops| - 1]);
      if op.SetLANFailed? then op.failed
      else if op.Connect? && op.lanDin != "" then false
      else LoginOverWiFi(before, op) || LanIsDown(before)
  }

  /** The identity that the last successful login gave. */
  function LastDin(ops: seq<Op>): (din: string) {
    if ops == [] then ""
    else
      var (before, op) := (ops[..|ops| - 1], ops[|ops| - 1]);
      if op.Connect? && op.lanDin != "" then op.lanDin
      else if LoginOverWiFi(before, op) then op.wifiDin
      else LastDin(before)
  }

  lemma {:induction false} SettingsAreLastSet(host: string, ops: seq<Op>)
    ensures var g := Run(Fresh(host), ops);
            && g.v1r == LastLan(ops) && g.wifi == LastSet(ops, None) && g.host == host
            && (g.failover, g.fallback) == LastSwitches(ops)
  {
    if ops != [] {
      SettingsAreLastSet(host, ops[..|ops| - 1]);
      StepSets(Run(Fresh(host), ops[..|ops| - 1]), ops[|ops| - 1]);
    }
  }

  lemma StepSets(g: Gate, op: Op)
    ensures Step(g, op).v1r == (if op.SetV1r? then op.lan else g.v1r)
    ensures Step(g, op).wifi == (if op.SetWiFi? then op.wifi else g.wifi)
    ensures Step(g, op).failover == (if op.SetFailover? then op.failover else g.failover)
    ensures Step(g, op).fallback == (if op.SetFailover? then op.fallback else g.fallback)
    ensures Step(g, op).host == g.host
  {
  }

  lemma {:induction false} LoginsTellLast(host: string, ops: seq<Op>)
    ensures Run(Fresh(host), ops).lanFailed == LanIsDown(ops) && Run(Fresh(host), ops).din == LastDin(ops)
  {
    if ops != [] {
      LoginsTellLast(host, ops[..|ops| - 1]);
      SettingsAreLastSet(host, ops[..|ops| - 1]);
      StepTellsLogin(Run(Fresh(host), ops[..|ops| - 1]), ops[|ops| - 1]);
    }
  }

  lemma StepTellsLogin(g: Gate, op: Op)
    ensures var overWiFi := op.Connect? && op.lanDin == "" && op.wifiDin != ""
                            && g.failover && g.fallback && g.wifi.Some?;
            && Step(g, op).lanFailed
               == (if op.SetLANFailed? then op.failed else if op.Connect? && op.lanDin != "" then false
                   else overWiFi || g.lanFailed)
            && Step(g, op).din
               == if op.Connect? && op.lanDin != "" then op.lanDin else if overWiFi then op.wifiDin else g.din
  {
  }

  /** The `j`-th call probed, or was refused the probe it wanted. */
  predicate TriesProbe(g: Gate, ops: seq<Op>, j: nat)
    requires j < |ops|
  {
    ops[j].Ready? || (ops[j].Write? && WriteProbes(Run(g, ops[..j]), ops[j].now))
  }

  ghost predicate NoTrySince(g: Gate, ops: seq<Op>, k: nat) {
    forall j: nat :: k < j < |ops| ==> !TriesProbe(g, ops, j)
  }

  /** The `k`-th call was the last to try a probe, of the transport `t`, and it was
      answered a minute before `until`; LAN has been down ever since. */
  ghost predicate LastProbe(g: Gate, ops: seq<Op>, k: nat, t: Transport, until: int) {
    k < |ops| && ProbedAt(g, ops, k, t, until - READY_TTL) && LanDownSince(g, ops, k) && NoTrySince(g, ops, k)
  }

  /** Writes may go over WiFi without a probe of their own up to this time. */
  ghost predicate OpenUntil(g: Gate, ops: seq<Op>, until: int) {
    exists k: nat, t :: LastProbe(g, ops, k, t, until)
  }

  lemma NoOtherCallOpens(g: Gate, op: Op)
    requires !op.Ready? && !(op.Write? && WriteProbes(g, op.now))
    ensures g.lanFailed && Step(g, op).lanFailed ==> Step(g, op).readyUntil == g.readyUntil
  {
  }

  /** The deadline is set exactly when the last probe was answered and LAN has not
      recovered since. */
  lemma {:induction false} DeadlineIsLastProbe(g: Gate, ops: seq<Op>, until: int)
    requires g.readyUntil.None?
    ensures Run(g, ops).readyUntil == Some(until) <==> OpenUntil(g, ops, until)
  {
    if ops != [] {
      var n := |ops| - 1;
      DeadlineIsLastProbe(g, ops[..n], until);
      if Run(g, ops).readyUntil == Some(until) {
        OpenByProbe(g, ops, until);
      } else if OpenUntil(g, ops, until) {
        var k: nat, t :| LastProbe(g, ops, k, t, until);
        LastProbeSets(g, ops, k, t, until);
      }
    }
  }

  lemma OpenByProbe(g: Gate, ops: seq<Op>, until: int)
    requires ops != [] && Run(g, ops).readyUntil == Some(until)
    requires Run(g, ops[..|ops| - 1]).readyUntil == Some(until) ==> OpenUntil(g, ops[..|ops| - 1], until)
    ensures OpenUntil(g, ops, until)
  {
    var n := |ops| - 1;
    var before := Run(g, ops[..n]);
    assert ops[..n + 1] == ops;
    StepKeepsDeadline(before, ops[n]);
    if TriesProbe(g, ops, n) {
      NewProbeIsLast(g, ops, until);
    } else {
      var k: nat, t :| LastProbe(g, ops[..n], k, t, until);
      LastProbeStays(g, ops, k, t, until);
    }
  }

  lemma NewProbeIsLast(g: Gate, ops: seq<Op>, until: int)
    requires ops != [] && TriesProbe(g, ops, |ops| - 1) && Run(g, ops).readyUntil == Some(until)
    ensures OpenUntil(g, ops, until)
  {
    var n := |ops| - 1;
    var before := Run(g, ops[..n]);
    StepKeepsDeadline(before, ops[n]);
    assert ops[..n + 1] == ops;
    assert ProbedAt(g, ops, n, before.wifi.value, until - READY_TTL);
    assert LanDownSince(g, ops, n);
    assert LastProbe(g, ops, n, before.wifi.value, until);
  }

  lemma LastProbeStays(g: Gate, ops: seq<Op>, k: nat, t: Transport, until: int)
    requires ops != [] && !TriesProbe(g, ops, |ops| - 1) && Run(g, ops).lanFailed
    requires LastProbe(g, ops[..|ops| - 1], k, t, until)
    ensures LastProbe(g, ops, k, t, until)
  {
    var n := |ops| - 1;
    assert ops[..n + 1] == ops;
    RunPrefix(g, ops, n, k, t, until - READY_TTL);
    NoFurtherTry(g, ops, k);
  }

  lemma NoFurtherTry(g: Gate, ops: seq<Op>, k: nat)
    requires ops != []
    ensures k < |ops| - 1 ==>
      (NoTrySince(g, ops, k) <==> NoTrySince(g, ops[..|ops| - 1], k) && !TriesProbe(g, ops, |ops| - 1))
  {
    var n := |ops| - 1;
    forall j: nat | j < n ensures TriesProbe(g, ops[..n], j) <==> TriesProbe(g, ops, j) {
      assert ops[..n][..j] == ops[..j];
    }
  }

  lemma {:induction false} LastProbeSets(g: Gate, ops: seq<Op>, k: nat, t: Transport, until: int)
    requires LastProbe(g, ops, k, t, until)
    ensures Run(g, ops).readyUntil == Some(until)
  {
    var n := |ops| - 1;
    assert ops[..n + 1] == ops;
    if k < n {
      LastProbeStayed(g, ops, k, t, until);
      LastProbeSets(g, ops[..n], k, t, until);
      assert !TriesProbe(g, ops, n);
      NoOtherCallOpens(Run(g, ops[..n]), ops[n]);
    }
  }

  lemma LastProbeStayed(g: Gate, ops: seq<Op>, k: nat, t: Transport, until: int)
    requires LastProbe(g, ops, k, t, until) && k < |ops| - 1
    ensures LastProbe(g, ops[..|ops| - 1], k, t, until)
    ensures Run(g, ops[..|ops| - 1]).lanFailed && Run(g, ops).lanFailed
  {
    var n := |ops| - 1;
    assert ops[..n + 1] == ops;
    RunPrefix(g, ops, n, k, t, until - READY_TTL);
    NoFurtherTry(g, ops, k);
  }

  /** What a write gets, by the calls made so far on a fresh client: with LAN healthy
      the LAN transport last set; with LAN down the WiFi transport last set, if and only
      if a LAN transport is set, both switches are on, and the last probe is less than a
      minute old or one made now is possible and answered. */
  lemma WriteGetsLastSet(host: string, ops: seq<Op>, now: int, probe: Probe)
    ensures var (lan, wifi, din) := (LastLan(ops), LastSet(ops, None), LastDin(ops));
            var open := exists until :: OpenUntil(Fresh(host), ops, until) && now < until;
            var answers := wifi.Some? && wifi.value.host !in {"", host} && din != "" && probe.answered;
            WriteTransport(Run(Fresh(host), ops), now, probe)
            == if !LanIsDown(ops) then lan
               else if lan.Some? && LastSwitches(ops) == (true, true) && (open || answers) then wifi
               else None
  {
    var g := Run(Fresh(host), ops);
    SettingsAreLastSet(host, ops);
    LoginsTellLast(host, ops);
    if g.readyUntil.Some? {
      DeadlineIsLastProbe(Fresh(host), ops, g.readyUntil.value);
    }
    if exists until :: OpenUntil(Fresh(host), ops, until) && now < until {
      var until :| OpenUntil(Fresh(host), ops, until) && now < until;
      DeadlineIsLastProbe(Fresh(host), ops, until);
    }
  }

  /** The transport a write gets, in any sequence of calls on a gate without a deadline:
      the LAN transport only while LAN is healthy, and the WiFi transport only when
      LAN has failed, failover and fallback are on, and a signed probe was answered at
      most a minute ago and in the present outage. It is the transport that was probed
      exactly when that is still the last one set. */
  lemma WriteIsGated(g: Gate, ops: seq<Op>, now: int, probe: Probe) returns (k: nat, t: Transport)
    requires g.readyUntil.None?
    requires forall j :: 0 <= j < |ops| && (ops[j].Ready? || ops[j].Write?) ==> ops[j].now + ops[j].probe.elapsed <= now
    ensures var at := Run(g, ops);
            var given := WriteTransport(at, now, probe);
            && (given.Some? && !at.lanFailed ==> given == at.v1r)
            && (given.Some? && at.lanFailed ==>
                  var all := ops + [Write(now, probe)];
                  && given == at.wifi && at.failover && at.fallback
                  && k < |all| && LanDownSince(g, all, k)
                  && (exists p :: ProbedAt(g, all, k, t, p) && p <= now + probe.elapsed
                                  && (if k < |ops| then now - p < READY_TTL else p == now + probe.elapsed))
                  && (given == Some(t) <==> LastSet(all[k..], Some(t)) == Some(t)))
  {
    var all := ops + [Write(now, probe)];
    var at := Run(g, ops);
    assert all[..|ops|] == ops;
    k, t := 0, Transport(0, "");
    if at.lanFailed && WriteTransport(at, now, probe).Some? {
      assert all[..|all|] == all;
      if WriteProbes(at, now) {
        k, t := |ops|, at.wifi.value;
        assert ProbedAt(g, all, k, t, now + probe.elapsed);
      } else {
        k, t := DeadlineIsBacked(g, ops);
        RunPrefix(g, all, |ops|, k, t, at.readyUntil.value - READY_TTL);
        assert ProbedAt(g, all, k, t, at.readyUntil.value - READY_TTL);
        assert Run(g, all).lanFailed;
      }
      WiFiIsLastSet(g, all, k);
      assert Run(g, all[..k]).wifi == Some(t);
    }
  }

  lemma RunOne(g: Gate, ops: seq<Op>, op: Op)
    ensures Run(g, ops + [op]) == Step(Run(g, ops), op)
  {
    assert (ops + [op])[..|ops|] == ops;
  }

  /** From a fresh client, by its own methods only: whatever transport replaces the
      probed one is handed out for writes without having been probed itself. */
  lemma SwappedTransportIsNotProbed(lan: Transport, probed: Transport, other: Transport, host: string, now: nat)
    requires probed.host != "" && probed.host != host && now < READY_TTL
    ensures var calls := [SetV1r(Some(lan)), SetFailover(true, true), SetWiFi(Some(probed)), Connect("", "din"),
                          Ready(0, Probe(0, true)), SetWiFi(Some(other))];
            WriteTransport(Run(Fresh(host), calls), now, Probe(0, false)) == Some(other)
  {
    var g, c0: seq<Op> := Fresh(host), [];
    var c1 := c0 + [SetV1r(Some(lan))];
    var c2 := c1 + [SetFailover(true, true)];
    var c3 := c2 + [SetWiFi(Some(probed))];
    var c4 := c3 + [Connect("", "din")];
    var c5 := c4 + [Ready(0, Probe(0, true))];
    RunOne(g, c0, SetV1r(Some(lan)));
    RunOne(g, c1, SetFailover(true, true));
    RunOne(g, c2, SetWiFi(Some(probed)));
    RunOne(g, c3, Connect("", "din"));
    RunOne(g, c4, Ready(0, Probe(0, true)));
    RunOne(g, c5, SetWiFi(Some(other)));
    assert c5 + [SetWiFi(Some(other))]
        == [SetV1r(Some(lan)), SetFailover(true, true), SetWiFi(Some(probed)), Connect("", "din"),
            Ready(0, Probe(0, true)), SetWiFi(Some(other))];
  }

  // ------------------------------------------------------- probes that take time

  /** The driver while probes are under way: its lock is free in the meantime, and
      any call may come in between. A probe keeps the transport it began with. */
  datatype Busy = Busy(gate: Gate, probing: map<nat, Transport>)

  datatype Small = Whole(op: Op) | Begins(id: nat) | Ends(id: nat, now: int, answered: bool)

  function SmallStep(b: Busy, op: Small): (b': Busy) {
    match op
    case Whole(op) => b.(gate := Step(b.gate, op))
    case Begins(id) =>
      b.(gate := b.gate.(readyUntil := None),
         probing := if CanProbe(b.gate) && id !in b.probing then b.probing[id := b.gate.wifi.value] else b.probing)
    case Ends(id, now, answered) =>
      if id !in b.probing then b
      else Busy(b.gate.(readyUntil := if answered then Some(now + READY_TTL) else None), b.probing - {id})
  }

  function SmallRun(b: Busy, ops: seq<Small>): (b': Busy) {
    if ops == [] then b else SmallStep(SmallRun(b, ops[..|ops| - 1]), ops[|ops| - 1])
  }

  /** The `k`-th step brought the answer to a probe, at `at`. */
  ghost predicate AnsweredAt(b: Busy, ops: seq<Small>, k: nat, at: int)
    requires k < |ops|
  {
    var before := SmallRun(b, ops[..k]);
    match ops[k]
    case Whole(op) =>
      && (op.Ready? || (op.Write? && WriteProbes(before.gate, op.now))) && CanProbe(before.gate)
      && op.probe.answered && at == op.now + op.probe.elapsed
    case Begins(_) => false
    case Ends(id, now, answered) => id in before.probing && answered && at == now
  }

  /** LAN was down before step `j`, that is after the first `j` steps. */
  predicate DownAt(b: Busy, ops: seq<Small>, j: nat)
    requires j <= |ops|
  {
    SmallRun(b, ops[..j]).gate.lanFailed
  }

  /** From the first `k` steps on LAN has never been healthy. */
  ghost predicate DownSince(b: Busy, ops: seq<Small>, k: nat)
    requires k <= |ops|
  {
    forall j :: k <= j <= |ops| ==> DownAt(b, ops, j)
  }

  lemma DownOneMore(b: Busy, ops: seq<Small>, k: nat)
    requires k < |ops| && DownSince(b, ops[..|ops| - 1], k) && SmallRun(b, ops).gate.lanFailed
    ensures DownSince(b, ops, k)
  {
    assert ops[..|ops|] == ops;
    forall j | k <= j < |ops| ensures DownAt(b, ops, j) {
      assert ops[..|ops| - 1][..j] == ops[..j] && DownAt(b, ops[..|ops| - 1], j);
    }
  }

  /** Whatever happens while probes are under way, a deadline is never more than a
      minute after the answer to one of them; and if LAN was down when that answer came,
      it has been down ever since. */
  lemma {:induction false} SmallDeadlineIsBacked(b: Busy, ops: seq<Small>) returns (k: nat)
    requires b.gate.readyUntil.None? && SmallRun(b, ops).gate.readyUntil.Some?
    ensures k < |ops| && AnsweredAt(b, ops, k, SmallRun(b, ops).gate.readyUntil.value - READY_TTL)
    ensures DownAt(b, ops, k) ==> DownSince(b, ops, k)
  {
    var n := |ops| - 1;
    var before, after := SmallRun(b, ops[..n]), SmallRun(b, ops);
    assert ops[..n + 1] == ops;
    if ops[n].Whole? {
      StepKeepsDeadline(before.gate, ops[n].op);
    }
    var until := after.gate.readyUntil.value;
    if before.gate.readyUntil == Some(until) && !AnsweredAt(b, ops, n, until - READY_TTL) {
      k := SmallDeadlineIsBacked(b, ops[..n]);
      assert ops[..n][..k] == ops[..k];
      assert ops[..n][..n] == ops[..n];
      if DownAt(b, ops, k) {
        assert DownAt(b, ops[..n], n);
        DownOneMore(b, ops, k);
      }
    } else {
      k := n;
      if DownAt(b, ops, n) {
        assert DownSince(b, ops[..n], n) by { assert ops[..n][..n] == ops[..n]; }
        DownOneMore(b, ops, n);
      }
    }
  }

  /** The probe that the `k`-th step answers began with the `i`-th. */
  ghost predicate BeganAt(b: Busy, ops: seq<Small>, i: nat, k: nat)
    requires i <= k < |ops|
  {
    && CanProbe(SmallRun(b, ops[..i]).gate)
    && match ops[k]
       case Whole(_) => i == k
       case Begins(_) => false
       case Ends(id, _, _) => ops[i] == Begins(id) && id !in SmallRun(b, ops[..i]).probing
                              && forall j :: i < j <= k ==> id in SmallRun(b, ops[..j]).probing
  }

  /** Whoever is probing has begun. */
  lemma {:induction false} ProbingHasBegun(b: Busy, ops: seq<Small>, id: nat) returns (i: nat)
    requires id !in b.probing && id in SmallRun(b, ops).probing
    ensures i < |ops| && ops[i] == Begins(id) && id !in SmallRun(b, ops[..i]).probing
            && CanProbe(SmallRun(b, ops[..i]).gate)
    ensures forall j :: i < j <= |ops| ==> id in SmallRun(b, ops[..j]).probing
  {
    var n := |ops| - 1;
    assert ops[..n + 1] == ops;
    if id in SmallRun(b, ops[..n]).probing {
      i := ProbingHasBegun(b, ops[..n], id);
      assert forall j :: 0 <= j <= n ==> ops[..n][..j] == ops[..j];
    } else {
      i := n;
    }
  }

  /** The probe behind a deadline belongs to the present outage, from its beginning on,
      if and only if LAN did not recover while it was under way. */
  lemma ProbeIsOfPresentOutage(b: Busy, ops: seq<Small>) returns (i: nat, k: nat)
    requires b.gate.readyUntil.None? && b.probing == map[] && SmallRun(b, ops).gate.readyUntil.Some?
    ensures i <= k < |ops| && BeganAt(b, ops, i, k)
    ensures AnsweredAt(b, ops, k, SmallRun(b, ops).gate.readyUntil.value - READY_TTL)
    ensures DownSince(b, ops, i) <==> (forall j :: i <= j <= k ==> DownAt(b, ops, j))
  {
    k := SmallDeadlineIsBacked(b, ops);
    i := k;
    if ops[k].Ends? {
      i := ProbingHasBegun(b, ops[..k], ops[k].id);
      assert forall j :: 0 <= j <= k ==> ops[..k][..j] == ops[..j];
    }
    if forall j :: i <= j <= k ==> DownAt(b, ops, j) {
      assert DownAt(b, ops, k);
    }
  }

  // ------------------------------------------- when LAN does recover meanwhile

  /** A fresh client set up for the fallback, on which LAN has failed. */
  function ColdFailover(lan: Transport, wifi: Transport): (ops: seq<Small>) {
    [Whole(SetV1r(Some(lan))), Whole(SetFailover(true, true)), Whole(SetWiFi(Some(wifi))), Whole(Connect("", "din"))]
  }

  /** The probe is answered in a later outage, and opens that one's window. */
  lemma OldProbeMayOpenNewOutage(lan: Transport, wifi: Transport, host: string, now: int)
    requires wifi.host != "" && wifi.host != host
    ensures var during := [Begins(0), Whole(SetLANFailed(false)), Whole(SetLANFailed(true)), Ends(0, now, true)];
            var g := SmallRun(Busy(Fresh(host), map[]), ColdFailover(lan, wifi) + during).gate;
            WriteTransport(g, now, Probe(0, false)) == Some(wifi)
  {
    var b := Busy(Fresh(host), map[]);
    var c := ColdFailover(lan, wifi);
    ColdFailoverIsReady(lan, wifi, host);
    SmallRunFour(b, c, Begins(0), Whole(SetLANFailed(false)), Whole(SetLANFailed(true)), Ends(0, now, true));
  }

  /** The probe is answered while LAN is healthy, and the window is already open when
      the next outage begins. */
  lemma ProbeMayOpenNextOutage(lan: Transport, wifi: Transport, host: string, now: int)
    requires wifi.host != "" && wifi.host != host
    ensures var during := [Begins(0), Whole(SetLANFailed(false)), Ends(0, now, true), Whole(SetLANFailed(true))];
            var g := SmallRun(Busy(Fresh(host), map[]), ColdFailover(lan, wifi) + during).gate;
            WriteTransport(g, now, Probe(0, false)) == Some(wifi)
  {
    var b := Busy(Fresh(host), map[]);
    var c := ColdFailover(lan, wifi);
    ColdFailoverIsReady(lan, wifi, host);
    SmallRunFour(b, c, Begins(0), Whole(SetLANFailed(false)), Ends(0, now, true), Whole(SetLANFailed(true)));
  }

  lemma ColdFailoverIsReady(lan: Transport, wifi: Transport, host: string)
    requires wifi.host != "" && wifi.host != host
    ensures var b := SmallRun(Busy(Fresh(host), map[]), ColdFailover(lan, wifi));
            CanProbe(b.gate) && b.gate.wifi == Some(wifi) && b.probing == map[]
  {
    var b, none: seq<Small> := Busy(Fresh(host), map[]), [];
    SmallRunFour(b, none, Whole(SetV1r(Some(lan))), Whole(SetFailover(true, true)), Whole(SetWiFi(Some(wifi))),
                 Whole(Connect("", "din")));
    assert none + ColdFailover(lan, wifi) == ColdFailover(lan, wifi);
  }

  lemma SmallRunFour(b: Busy, ops: seq<Small>, o1: Small, o2: Small, o3: Small, o4: Small)
    ensures SmallRun(b, ops + [o1, o2, o3, o4])
            == SmallStep(SmallStep(SmallStep(SmallStep(SmallRun(b, ops), o1), o2), o3), o4)
  {
    SmallRunTwo(b, ops, o1, o2);
    SmallRunTwo(b, ops + [o1, o2], o3, o4);
    assert ops + [o1, o2] + [o3, o4] == ops + [o1, o2, o3, o4];
  }

  lemma SmallRunTwo(b: Busy, ops: seq<Small>, o1: Small, o2: Small)
    ensures SmallRun(b, ops + [o1, o2]) == SmallStep(SmallStep(SmallRun(b, ops), o1), o2)
  {
    var first := ops + [o1];
    assert ops + [o1, o2] == first + [o2];
    SmallRunOne(b, first, o2);
    SmallRunOne(b, ops, o1);
  }

  lemma SmallRunOne(b: Busy, ops: seq<Small>, op: Small)
    ensures SmallRun(b, ops + [op]) == SmallStep(SmallRun(b, ops), op)
  {
    assert (ops + [op])[..|ops|] == ops;
  }
}
