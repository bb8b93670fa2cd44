/** The gateway start time that the TEDAPI driver derives from uptime samples.
    Each sample gives its own, slightly different start; the driver holds on to
    the one it reported unless the gateway restarted or the clocks moved apart. */
module Uptime {
  import opened Common

  const UPTIME_RESET_MS := 10_000.0
  const START_TIME_TOLERANCE := 600 * SECOND
  const NANOS_PER_MS := 1_000_000.0

  /** One reading of the controller: the SYNC uptime and the gateway clock. */
  datatype Sample = Sample(uptimeMs: real, gatewayTime: int)

  datatype Info = Info(uptimeMs: real, gatewayTime: int, startTime: int)

  function RawStart(uptimeMs: real, gatewayTime: int): (start: int) {
    gatewayTime - (uptimeMs * NANOS_PER_MS).Floor
  }

  function Distance(a: int, b: int): (d: nat) { if a < b then b - a else a - b }

  function StabilizeStartTime(last: Option<Info>, start: int, uptimeMs: real): (stable: int)
    ensures Distance(stable, start) <= START_TIME_TOLERANCE
  {
    if last.None? then start
    else if uptimeMs > last.value.uptimeMs - UPTIME_RESET_MS
      && Distance(start, last.value.startTime) <= START_TIME_TOLERANCE
    then last.value.startTime
    else start
  }

  /** A sample is used unless it lacks a usable uptime or its clock is behind. */
  predicate Accepts(last: Option<Info>, sample: Option<Sample>) {
    && sample.Some? && sample.value.uptimeMs >= 0.0
    && (last.Some? ==> last.value.gatewayTime <= sample.value.gatewayTime)
  }

  function Next(last: Option<Info>, sample: Option<Sample>): (next: Option<Info>) {
    if !Accepts(last, sample) then last
    else
      var Sample(up, now) := sample.value;
      Some(Info(up, now, StabilizeStartTime(last, RawStart(up, now), up)))
  }

  class Backend {
    var lastGatewayUptime: Option<Info>

    constructor ()
      ensures lastGatewayUptime == None
    {
      lastGatewayUptime := None;
    }

    /** `sample` is absent when the controller could not be read or parsed. */
    method GetGatewayUptime(sample: Option<Sample>) returns (r: Option<Info>)
      modifies this
      ensures lastGatewayUptime == Next(old(lastGatewayUptime), sample)
      ensures r == if sample.Some? && sample.value.uptimeMs >= 0.0 then lastGatewayUptime else None
    {
      if sample.None? || sample.value.uptimeMs < 0.0 {
        return None;
      }
      var now := sample.value.gatewayTime;
      var start := RawStart(sample.value.uptimeMs, now);
      var last := lastGatewayUptime;
      if last.Some? && now < last.value.gatewayTime {
        return last;
      }
      start := StabilizeStartTime(last, start, sample.value.uptimeMs);
      lastGatewayUptime := Some(Info(sample.value.uptimeMs, now, start));
      return lastGatewayUptime;
    }
  }

  // ------------------------------------------------------------------- runs

  /** The state after a whole sequence of samples. */
  function Run(samples: seq<Option<Sample>>): (last: Option<Info>) {
    if samples == [] then None else Next(Run(samples[..|samples| - 1]), samples[|samples| - 1])
  }

  /** Stored gateway time never moves back. */
  lemma {:induction false} GatewayTimeNeverDecreases(samples: seq<Option<Sample>>, i: nat)
    requires i <= |samples| && Run(samples[..i]).Some?
    ensures Run(samples).Some? && Run(samples[..i]).value.gatewayTime <= Run(samples).value.gatewayTime
  {
    if i == |samples| {
      assert samples[..i] == samples;
    } else {
      var shorter := samples[..|samples| - 1];
      assert shorter[..i] == samples[..i];
      GatewayTimeNeverDecreases(shorter, i);
    }
  }

  /** A sample that tells its uptime. */
  predicate Usable(sample: Option<Sample>) { sample.Some? && sample.value.uptimeMs >= 0.0 }

  /** The `k`-th sample has the latest clock of all usable ones, and of several the last. */
  predicate IsLatest(samples: seq<Option<Sample>>, k: nat) {
    && k < |samples| && Usable(samples[k])
    && (forall i :: 0 <= i < k && Usable(samples[i]) ==>
          samples[i].value.gatewayTime <= samples[k].value.gatewayTime)
    && (forall i :: k < i < |samples| && Usable(samples[i]) ==>
          samples[i].value.gatewayTime < samples[k].value.gatewayTime)
  }

  /** The store holds the latest of all usable samples, in whatever order they came. */
  lemma {:induction false} StoreHoldsLatest(samples: seq<Option<Sample>>, k: nat)
    requires IsLatest(samples, k)
    ensures Run(samples).Some? && Run(samples).value.gatewayTime == samples[k].value.gatewayTime
    ensures Run(samples).value.uptimeMs == samples[k].value.uptimeMs
  {
    var n := |samples| - 1;
    if k < n {
      StoreHoldsLatest(samples[..n], k);
    } else if Run(samples[..n]).Some? {
      var i := ReportedStartIsNearRaw(samples[..n]);
    }
  }

  lemma {:induction false} NothingUsableNothingStored(samples: seq<Option<Sample>>)
    requires forall k :: 0 <= k < |samples| ==> !Usable(samples[k])
    ensures Run(samples).None?
  {
    if samples != [] {
      NothingUsableNothingStored(samples[..|samples| - 1]);
    }
  }

  /** The start of a first usable sample lies the uptime before its clock, up to the
      nanosecond. */
  lemma FirstStartIsUptimeAgo(samples: seq<Option<Sample>>, s: Sample)
    requires Run(samples).None? && s.uptimeMs >= 0.0
    ensures var info := Run(samples + [Some(s)]);
            info.Some? && 0.0 <= info.value.startTime as real + s.uptimeMs * NANOS_PER_MS - s.gatewayTime as real < 1.0
  {
    assert (samples + [Some(s)])[..|samples|] == samples;
  }

  /** What is reported comes from one of the samples and is never further than
      the tolerance from that sample's own start, however long the run: small
      corrections cannot add up. */
  lemma {:induction false} ReportedStartIsNearRaw(samples: seq<Option<Sample>>) returns (k: nat)
    requires Run(samples).Some?
    ensures k < |samples| && Accepts(Run(samples[..k]), samples[k])
    ensures var info := Run(samples).value;
            && samples[k] == Some(Sample(info.uptimeMs, info.gatewayTime))
            && Distance(info.startTime, RawStart(info.uptimeMs, info.gatewayTime)) <= START_TIME_TOLERANCE
  {
    var n := |samples| - 1;
    if Accepts(Run(samples[..n]), samples[n]) {
      k := n;
    } else {
      k := ReportedStartIsNearRaw(samples[..n]);
      assert samples[..n][..k] == samples[..k];
    }
  }

  /** No accepted sample shows a restart, and all accepted raw starts lie in one
      window as wide as the tolerance. */
  ghost predicate Steady(samples: seq<Option<Sample>>, lo: int) {
    forall k :: 0 <= k < |samples| && Accepts(Run(samples[..k]), samples[k]) ==>
      var s, last := samples[k].value, Run(samples[..k]);
      && lo <= RawStart(s.uptimeMs, s.gatewayTime) <= lo + START_TIME_TOLERANCE
      && (last.Some? ==> s.uptimeMs > last.value.uptimeMs - UPTIME_RESET_MS)
  }

  /** While the gateway keeps running, the reported start never changes. */
  lemma {:induction false} SteadyStartNeverChanges(samples: seq<Option<Sample>>, lo: int, i: nat)
    requires Steady(samples, lo) && i <= |samples| && Run(samples[..i]).Some?
    ensures Run(samples).Some? && Run(samples).value.startTime == Run(samples[..i]).value.startTime
    ensures lo <= Run(samples).value.startTime <= lo + START_TIME_TOLERANCE
  {
    if i == |samples| {
      assert samples[..i] == samples;
      StartStaysInWindow(samples, lo);
    } else {
      var n := |samples| - 1;
      var shorter := samples[..n];
      SteadyPrefix(samples, lo);
      assert shorter[..i] == samples[..i];
      SteadyStartNeverChanges(shorter, lo, i);
    }
  }

  lemma SteadyPrefix(samples: seq<Option<Sample>>, lo: int)
    requires samples != [] && Steady(samples, lo)
    ensures Steady(samples[..|samples| - 1], lo)
  {
    var shorter := samples[..|samples| - 1];
    assert forall k :: 0 <= k < |shorter| ==> shorter[..k] == samples[..k];
  }

  lemma {:induction false} StartStaysInWindow(samples: seq<Option<Sample>>, lo: int)
    requires Steady(samples, lo) && Run(samples).Some?
    ensures lo <= Run(samples).value.startTime <= lo + START_TIME_TOLERANCE
  {
    var n := |samples| - 1;
    SteadyPrefix(samples, lo);
    if Run(samples[..n]).Some? {
      StartStaysInWindow(samples[..n], lo);
    }
    if Accepts(Run(samples[..n]), samples[n]) {
      assert samples[..n] == samples[..|samples| - 1];
    }
  }

  /** A restart is not smoothed over: when the uptime falls by the reset margin
      the sample's own start is reported. */
  lemma RestartIsReported(samples: seq<Option<Sample>>, s: Sample)
    requires Run(samples).Some? && Accepts(Run(samples), Some(s))
    requires s.uptimeMs <= Run(samples).value.uptimeMs - UPTIME_RESET_MS
    ensures Run(samples + [Some(s)]) == Some(Info(s.uptimeMs, s.gatewayTime, RawStart(s.uptimeMs, s.gatewayTime)))
  {
    assert (samples + [Some(s)])[..|samples|] == samples;
  }
}
