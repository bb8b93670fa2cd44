/** The proxy's counters: connection health with its degraded flag, and call
    statistics by endpoint. */
module Metrics {
  import opened Common

  datatype Health = Health(consecutiveFailures: nat, totalFailures: nat, totalSuccesses: nat, isDegraded: bool,
                           lastSuccess: int)

  datatype Stat = Stat(totalCalls: nat, successfulCalls: nat, failedCalls: nat, lastSuccess: Option<int>,
                       lastFailure: Option<int>)

  type Stats = map<string, Stat>

  const NO_CALLS := Stat(0, 0, 0, None, None)

  function AfterSuccess(h: Health, now: int): (h': Health) {
    h.(consecutiveFailures := 0, totalSuccesses := h.totalSuccesses + 1, isDegraded := false, lastSuccess := now)
  }

  function AfterFailure(h: Health, threshold: int): (h': Health) {
    h.(consecutiveFailures := h.consecutiveFailures + 1, totalFailures := h.totalFailures + 1,
       isDegraded := h.isDegraded || (threshold > 0 && h.consecutiveFailures + 1 >= threshold))
  }

  function StatOf(stats: Stats, endpoint: string): (st: Stat) {
    if endpoint in stats then stats[endpoint] else NO_CALLS
  }

  function Counted(st: Stat, success: bool, now: int): (st': Stat) {
    if success then
      st.(totalCalls := st.totalCalls + 1, successfulCalls := st.successfulCalls + 1, lastSuccess := Some(now))
    else st.(totalCalls := st.totalCalls + 1, failedCalls := st.failedCalls + 1, lastFailure := Some(now))
  }

  class ConnectionHealth {
    var consecutiveFailures: nat
    var totalFailures: nat
    var totalSuccesses: nat
    var isDegraded: bool
    var lastSuccess: int

    constructor (now: int)
      ensures View() == Health(0, 0, 0, false, now)
    {
      consecutiveFailures, totalFailures, totalSuccesses, isDegraded, lastSuccess := 0, 0, 0, false, now;
    }

    ghost function View(): Health
      reads this
    {
      Health(consecutiveFailures, totalFailures, totalSuccesses, isDegraded, lastSuccess)
    }

    method RecordSuccess(now: int)
      modifies this
      ensures View() == AfterSuccess(old(View()), now)
    {
      consecutiveFailures := 0;
      totalSuccesses := totalSuccesses + 1;
      isDegraded := false;
      lastSuccess := now;
    }

    method RecordFailure(threshold: int)
      modifies this
      ensures View() == AfterFailure(old(View()), threshold)
    {
      consecutiveFailures := consecutiveFailures + 1;
      totalFailures := totalFailures + 1;
      if threshold > 0 && consecutiveFailures >= threshold {
        isDegraded := true;
      }
    }

    method Reset(now: int)
      modifies this
      ensures View() == Health(0, 0, 0, false, now)
    {
      consecutiveFailures := 0;
      totalFailures := 0;
      totalSuccesses := 0;
      isDegraded := false;
      lastSuccess := now;
    }
  }

  class EndpointStatsTracker {
    var stats: Stats

    constructor ()
      ensures stats == map[]
    {
      stats := map[];
    }

    method Record(endpoint: string, success: bool, now: int)
      modifies this
      ensures stats == old(stats)[endpoint := Counted(StatOf(old(stats), endpoint), success, now)]
    {
      var st := NO_CALLS;
      if endpoint in stats {
        st := stats[endpoint];
      }
      st := st.(totalCalls := st.totalCalls + 1);
      if success {
        st := st.(successfulCalls := st.successfulCalls + 1, lastSuccess := Some(now));
      } else {
        st := st.(failedCalls := st.failedCalls + 1, lastFailure := Some(now));
      }
      stats := stats[endpoint := st];
    }

    method Reset() returns (count: nat)
      modifies this
      ensures stats == map[] && count == |old(stats)|
    {
      count := |stats|;
      stats := map[];
    }
  }

  // --------------------------------------------------------- sums over a table

  ghost function Sum(m: map<string, nat>): (total: nat)
    decreases |m|
  {
    if m == map[] then 0
    else
      var k :| k in m;
      assert |(m - {k}).Keys| < |m.Keys| by { assert (m - {k}).Keys == m.Keys - {k}; }
      m[k] + Sum(m - {k})
  }

  /** The order in which a table is summed does not matter. */
  lemma {:induction false} SumFrom(m: map<string, nat>, k: string)
    requires k in m
    ensures Sum(m) == m[k] + Sum(m - {k})
    decreases |m|
  {
    var k0 :| k0 in m && Sum(m) == m[k0] + Sum(m - {k0});
    if k0 != k {
      assert |(m - {k}).Keys| < |m.Keys| by { assert (m - {k}).Keys == m.Keys - {k}; }
      assert |(m - {k0}).Keys| < |m.Keys| by { assert (m - {k0}).Keys == m.Keys - {k0}; }
      SumFrom(m - {k0}, k);
      SumFrom(m - {k}, k0);
      assert m - {k0} - {k} == m - {k} - {k0};
    }
  }

  lemma SumUpdated(m: map<string, nat>, k: string, v: nat)
    ensures Sum(m[k := v]) == Sum(m) - (if k in m then m[k] else 0) + v
  {
    SumFrom(m[k := v], k);
    if k in m {
      SumFrom(m, k);
      assert m[k := v] - {k} == m - {k};
    } else {
      assert m[k := v] - {k} == m;
    }
  }
}
