# Verified model of gopowerwall

gopowerwall talks to a Tesla Powerwall: to its gateway on the local network, over
the signed TEDAPI transport, or through the owner cloud and the FleetAPI. This
project models the parts of it that keep state over time, in Dafny, and proves
what they promise. Time is an integer clock in nanoseconds that callers pass in
or that waits move forward, and every reply of a network peer is an arbitrary
input. Objects whose methods update fields are classes; each method is proved
equal to a step function on values, and the claims about whole runs are lemmas
about these step functions.

| file | part of the system |
|---|---|
| `common.dfy` | shared value types and units |
| `fleet_api.dfy`, `flights.dfy` | FleetAPI reads: jittered cache and shared backoff window, and the same as small steps of many callers that interleave |
| `connect.dfy` | choice of a backend, failover, snapshot and restore |
| `pairing.dfy` | one-pass recognition of Powerwall 2 modules |
| `transport_gate.dfy` | LAN and WiFi transports of signed requests and the probe window between them |
| `uptime.dfy` | the start time derived from uptime samples |
| `response_cache.dfy`, `local_client.dfy` | cached client of the local gateway |
| `operations.dfy`, `local_writes.dfy` | writing reserve and mode to an endpoint that overwrites both, and the same through the cached client to a gateway with a state |
| `metrics.dfy`, `fallback_cache.dfy`, `proxy.dfy` | the proxy's counters, saved answers and fallbacks |
| `cloud.dfy` | owner-cloud reads and recovery from a site that is gone |
| `scan.dfy` | enumeration of the hosts of a network |
| `tlv.dfy` | the signed payload and its reader |
| `token.dfy` | tokens in auth files |

`dafny verify dfyconfig.toml` checks the whole project.

Library contracts that the model relies on: an expiring map holds an item until
its lifetime, which is positive, has passed; a singleflight group lets one caller
per key run while later ones wait for its result; `rand.Int` draws below its
bound.

Some claims of the code or its comments are false as they stand. Each has the
condition under which it holds, for all inputs, and runs in which it fails.

- A raw key cannot collide with a real one (`pkgs/cache/cache.go:30-34`): a poll
  for a name that itself starts with the prefix is served from the cache before
  the name is rejected. See `LocalClient.RefinesUnlessMisread`.
- A write goes over a WiFi transport that was probed
  (`powerwall/tedapi/tedapi.go:196-223`): it does if and only if no other one was
  set since. See `TransportGate.WriteIsGated`.
- The hybrid sub-mode tells whether a TEDAPI client is layered on the local one
  (`powerwall/connect.go:207-215`). See `Connect.HybridMayBeStale`.
- Setting one of reserve and mode leaves the other unchanged
  (`powerwall/operations.go:162-182`): in local mode it does exactly when the
  read-back held the other field. See `Operations.SetReserveKeepsMode` and
  `Operations.SetModeKeepsReserve`.
- A write leaves no stale representation behind (`pkgs/cache/cache.go:126-139`):
  one that the gateway carried out but whose reply was lost does, exactly when the
  cache still holds an answer. See `LocalWrites.ReadAfterWrite`.
- The next failover episode probes again before it writes
  (`powerwall/tedapi/tedapi.go:159-161`): with the lock free while a probe is under
  way, that probe belongs to the present episode exactly when LAN did not recover
  during it. See `TransportGate.ProbeIsOfPresentOutage`.

Where code and documentation disagree the code is followed: the comment on
`Connect` (`powerwall/connect.go:398-405`) promises at most three attempts and one
sleep before the last, while with retry the code goes round the cycle again after
every wait until its context is cancelled. In the model the number of waits that
pass before that is an input, so every call returns.

## Model

| member | source | states |
|---|---|---|
| `Flights.OneRequestPerKey` | powerwall/fleetapi/fleetapi.go:499-512 | In every interleaving of any number of callers, at most one GET per cache key is in flight on behalf of reads that are not forced. |
| `Flights.NoRequestWhileCovered` | powerwall/fleetapi/fleetapi.go:475-523 | In every interleaving, once a flight has stored an answer no flight asks for that key again until the answer has expired, was removed, or was overwritten by a forced read. |
| `Flights.UnforcedReadsAskOncePerLifetime` | powerwall/fleetapi/fleetapi.go:475-523 | Among callers that never force, a stored answer keeps every further GET for its key from starting until it has expired or was removed. |
| `Flights.SharersAgree` | powerwall/fleetapi/fleetapi.go:499-520 | Callers that share a flight end with the same answer. |
| `Flights.JoinerWaitsOrLeads` | powerwall/fleetapi/fleetapi.go:499-512 | In every reachable state, joining a key with a flight under way means waiting for that flight, and otherwise leading a new one with a number never used; nothing is asked by joining. |
| `Flights.WaiterGetsLeadersAnswer` | powerwall/fleetapi/fleetapi.go:499-520 | A caller that waits ends with the very answer that the leader of its flight lands with, whatever the others do in between and however long it takes to look. |
| `Flights.WaitersCanFinish` | powerwall/fleetapi/fleetapi.go:499-520 | No interleaving leaves a waiting caller stuck: from every reachable state there are steps that bring it its answer, even if the gateway never replies. |
| `Flights.NoRequestInsideBackoff` | powerwall/fleetapi/fleetapi.go:491-511 | Every GET, forced ones too, passed a gate of its own caller, key and role, and at that moment every rate limit received so far had run out. |
| `Flights.BackoffIsBounded` | powerwall/fleetapi/fleetapi.go:337-359 | In every interleaving the backoff window is exactly the furthest end of all rate limits, is never more than 60 s away, and ends at most 60 s after the last rate limit. |
| `Flights.ServedIsRecent` | powerwall/fleetapi/fleetapi.go:361-370 | What the cache serves was put there with an answer of the gateway for this key no longer ago than the lifetime, and is kept at least for the lifetime less the largest jitter. |
| `Flights.StoredWasReplied` | powerwall/fleetapi/fleetapi.go:525-568 | In every interleaving, whatever enters the cache is the document of a reply with a status below 400, received for that very key by a caller that had asked for it and in the same role; no error page gets in. |
| `Flights.ReplyDecidesAnswer` | powerwall/fleetapi/fleetapi.go:525-568 | When a reply takes effect, its caller is told a document if and only if the reply brings it, and then that key alone is cached with it; each kind of bad reply gives exactly its own error and leaves the cached answers as they were. |
| `Flights.StoredIsServed` | powerwall/fleetapi/fleetapi.go:361-370 | In every interleaving, from the moment any read stores an answer until its lifetime less the largest jitter has passed, the first look of every read that is not forced finds an answer, unless a write removed the key. |
| `Flights.AloneIsFetch` | powerwall/fleetapi/fleetapi.go:475-568 | The small steps of one caller with nobody in its way come to exactly what the one-call model `FleetApi.Fetch` computes, which the client method is proved against. |
| `Flights.StepKeepsMisses` | powerwall/fleetapi/fleetapi.go:501-511 | The second cache check inside the flight: at every moment, a leader that has gone past it leads for a key whose answer no earlier flight has left in the cache. |
| `Flights.StepIsLed` | powerwall/fleetapi/fleetapi.go:499-512 | Every step keeps flights numbered apart, each led by one caller that is still at work on that key. |
| `Flights.StepAccounts` | powerwall/fleetapi/fleetapi.go:361-370 | Every step keeps account of each answer a flight stored: it is in the cache with its own expiry, has expired, was removed, or was overwritten by a forced read. |
| `Flights.StepKeepsBackoff` | powerwall/fleetapi/fleetapi.go:337-359 | Every step keeps the window equal to the running maximum of the rate limits and no gate passed inside it. |
| `Flights.RunIsValid` | powerwall/fleetapi/fleetapi.go:475-568 | All the invariants above hold in every state that any interleaving of reads, forced reads, removals, rate-limited writes and time can reach. |
| `FleetApi.ParseRetryAfter` | powerwall/fleetapi/fleetapi.go:303-335 | The delay is the header if that gives a usable number or date, else the number in the body, else 10 s, capped at 60 s. |
| `FleetApi.RetryDelay` | powerwall/fleetapi/fleetapi.go:303-335 | Whatever header and body say, the delay lies between 0 and 60 s. |
| `FleetApi.HeaderComesFirst` | powerwall/fleetapi/fleetapi.go:303-335 | The header is followed if it asks for zero seconds or more, up to a minute; a negative, past or unreadable one gives way to the number in the body, and that to ten seconds; a number beyond the integers counts as the processor converts it. |
| `FleetApi.DateIsHonoured` | powerwall/fleetapi/fleetapi.go:310-313 | A date up to a minute ahead is waited for, and for less than a second longer (section 10.2.3 of RFC 9110). |
| `FleetApi.BothLimitsCoincide` | powerwall/fleetapi/fleetapi.go:361-370 | An entry fetched at t with lifetime T: back-dated time and shortened lifetime end service at the same instant, which lies after t, not after t+T, and not before t+T less the smaller of T/4 and 10 s. |
| `FleetApi.Client.ArmBackoff` | powerwall/fleetapi/fleetapi.go:337-345 | The window only ever moves forward: its end becomes the later of the old end and now plus the delay. |
| `FleetApi.Client.RateBackoffRemaining` | powerwall/fleetapi/fleetapi.go:349-359 | The rest of the window, or zero once it is over. |
| `FleetApi.Client.SetCacheWithJitter` | powerwall/fleetapi/fleetapi.go:361-370 | The answer is stored back-dated and shortened by the same random amount below the smaller of a quarter of the lifetime and 10 s. |
| `FleetApi.JitterTakesEveryValue` | powerwall/fleetapi/fleetapi.go:361-368 | Every jitter below a quarter of the lifetime and below ten seconds can come about, and none is used without a random number. |
| `FleetApi.Client.DoFetchSiteJSON` | powerwall/fleetapi/fleetapi.go:525-568 | Each kind of reply gives its own result; only a 429 moves the window and only a decoded success enters the cache. |
| `FleetApi.Client.FetchInFlight` | powerwall/fleetapi/fleetapi.go:501-511 | The leader looks at the cache and the window a second time before it asks. |
| `FleetApi.Client.FetchSiteJSON` | powerwall/fleetapi/fleetapi.go:475-523 | A read that is not forced serves the cache first; every read that goes out passes the window first. |
| `FleetApi.ReplyDecides` | powerwall/fleetapi/fleetapi.go:525-568 | A read that goes out returns a document if and only if the reply is there, its body was read, the status is below 400 and the body decodes to it; then exactly its key is cached, back-dated by no more than the jitter. Every other reply gives the error of its class and leaves the cache unchanged. |
| `FleetApi.HeldBackRead` | powerwall/fleetapi/fleetapi.go:475-497 | A read that does not go out changes nothing: it is served a live cached answer, or else is told of the rate limit, and that only inside the window. |
| `FleetApi.LimitMovesWindow` | powerwall/fleetapi/fleetapi.go:542-555 | Only a 429 whose body was read moves the window, to the later of its old end and the delay from now; the clock moves by the time of the request. |
| `Connect.Powerwall.Connect` | powerwall/connect.go:406-435 | From a valid state and with any answers of the backends, the new state is the first success of the attempts in order or the restored state from before, and the invariant of all fields holds again. |
| `Connect.RunIsValid` | powerwall/connect.go:93-289 | Over every sequence of Connect and Close: the poller belongs to the client, the mode names the field that holds the client, a TEDAPI client implies mode TEDAPI or V1r, and the TEDAPI flag says that the sub-mode is not Off. |
| `Connect.ConnectedIsValid` | powerwall/connect.go:406-435 | One Connect keeps the invariant whatever the backends answer, and a true result means that there is a client. |
| `Connect.InitialIsValid` | powerwall/powerwall.go:85-101 | Every choice of options that New accepts starts in a state that meets the invariant. |
| `Connect.ModeByOptions` | powerwall/powerwall.go:70-101 | Which options and files lead to which of the four starting modes, each if and only if, and the flags that go with it. |
| `Connect.FailureRestores` | powerwall/connect.go:46-70 | After a false result with a mode configured, all ten snapshot fields are what they were if there was a client and as New left them if not; every attempt up to the limit failed, and the error is the first reason that one of them gave. |
| `Connect.CycleCoversFamilies` | powerwall/connect.go:325-336 | Any three attempts in a row try the local, FleetAPI and cloud families exactly once each, starting from the configured one and repeating with period three. |
| `Connect.ModeAtIsInOrder` | powerwall/connect.go:325-336 | The n-th attempt is made n places after the configured family in the order local, FleetAPI, cloud, around and around, and always in the configured one without failover. |
| `Connect.FailsWhenAllRefuse` | powerwall/connect.go:338-396 | Connect fails if and only if every attempt is refused: three with failover and one without, and with retry as many again after every wait that is not cancelled. |
| `Connect.ConnectsIfOneGetsThrough` | powerwall/connect.go:102-323 | Connect succeeds if and only if, within its attempts, one gets through in its family of the cycle: FleetAPI, cloud and plain local ones need authentication to succeed; a signed one needs a password, or five characters of the gateway password, its signed transport, and the WiFi one where that is configured; a pure TEDAPI one always does. |
| `Connect.FirstThroughOpensClient` | powerwall/connect.go:102-281 | The first attempt that gets through opens the client: a new FleetAPI, cloud, TEDAPI or local backend by family and configuration, layered exactly when the probe of a default gateway connected; poller and client are the same and no error remains. |
| `Connect.ErrorIsFirstComplaint` | powerwall/connect.go:65-70 | When none gets through, the error names the family and the reason of the first attempt that gave a reason, and there is none if no attempt gave one. |
| `Connect.NoModeFailsAtOnce` | powerwall/connect.go:406-421 | With no mode to start from Connect fails at once, and only the error changes. |
| `Connect.PresentModeIsAdopted` | powerwall/connect.go:406-421 | With nothing configured, Connect does what it would do with the present mode and flags configured. |
| `Connect.SuccessIsValid` | powerwall/connect.go:174-281 | A successful attempt in any mode, from any state in the middle of a walk, meets the full invariant. |
| `Connect.TriedIsCoherent` | powerwall/connect.go:174-281 | Failed attempts change nothing of the connection but the mode under trial and the TEDAPI sub-mode. |
| `Connect.FirstReasonIsKept` | powerwall/connect.go:65-70 | Of the reasons given along a failing walk exactly the first non-empty one is kept. |
| `Connect.HybridMayBeStale` | powerwall/connect.go:174-233 | A Connect that ends with a local client reports the hybrid sub-mode truthfully if and only if the sub-mode was Off before it, the probe of the successful login connected, or an earlier local login in the same Connect was refused. |
| `Connect.StaleHybridIsReached` | powerwall/connect.go:207-215 | Two Connects from New reach the false report: a default gateway with both passwords, probed at the first and not at the second. |
| `Connect.Powerwall.ConnectWithFailover` | powerwall/connect.go:366-396 | The retry loop walks the cycle of modes and ends in the state of the first success or the restored one. |
| `Connect.Powerwall.ConnectStrict` | powerwall/connect.go:338-364 | Without failover only the configured mode is tried, again after every wait when retrying. |
| `Connect.Powerwall.TryMode` | powerwall/connect.go:291-323 | One attempt in a mode changes the fields as the answer of the backend says. |
| `Connect.Powerwall.ConnectLocal` | powerwall/connect.go:174-233 | The three ways to the local gateway. |
| `Connect.Powerwall.LoginLocal` | powerwall/connect.go:183-232 | The local login with the hybrid probe before it, and what a refused login undoes. |
| `Connect.Powerwall.ConnectV1r` | powerwall/connect.go:102-149 | The signed transport needs the customer password or five characters of the gateway password, and every transport it is configured for. |
| `Connect.Powerwall.ConnectPureTEDAPI` | powerwall/connect.go:151-172 | The pure TEDAPI client always connects and names its mode. |
| `Connect.Powerwall.ConnectFleetAPI` | powerwall/connect.go:235-257 | A FleetAPI success drops the TEDAPI client and its flags; a failure changes only the noted reason. |
| `Connect.Powerwall.ConnectCloud` | powerwall/connect.go:259-281 | A cloud success drops the TEDAPI client and its flags; a failure changes only the noted reason. |
| `Connect.Powerwall.NoteConnectError` | powerwall/connect.go:65-70 | Only the first non-empty reason is noted. |
| `Connect.Powerwall.SetClient` | powerwall/connect.go:93-100 | The poller always goes with the client. |
| `Connect.Powerwall.RestoreFailedConnectState` | powerwall/connect.go:46-63 | The snapshot comes back if it held a client, else the configured mode and flags. |
| `Connect.Powerwall.RestoreConfiguredState` | powerwall/connect.go:283-289 | The configured mode and flags come back, without TEDAPI. |
| `Connect.Powerwall.WaitForNextRound` | powerwall/connect.go:376-391 | A wait that passes starts the next round in the configured mode; a cancelled one restores the state. |
| `Connect.Powerwall.Close` | powerwall/connect.go:443-469 | All backends and the poller are gone, and nothing else has changed. |
| `Connect.CloseLeavesNothing` | powerwall/connect.go:443-469 | After a Close at any time of any run no backend and no poller is left, and mode, flags and configuration are as before. |
| `Connect.Powerwall.constructor` | powerwall/powerwall.go:54-98 | The mode and the flags that the options and the files found select. |
| `Pairing.Pw2MsaModulePairing` | powerwall/tedapi/tedapi.go:1900-1924 | Sound and complete: a result exactly when the components with a serial split into lone others and adjacent THC-PINV pairs, both told by the names of their signals, with distinct serials whose THC serials are the known package serials; it then maps exactly the non-empty package serials, each to the PINV right after its THC, with distinct PINV serials. |
| `Pairing.PairNextComponent` | powerwall/tedapi/tedapi.go:1864-1898 | One step of the recogniser extends what the prefix has established, or proves the prefix beyond repair. |
| `Pairing.MsaFamily` | powerwall/tedapi/tedapi.go:1833-1862 | The one prefix that all named signals share, or the empty string when there is none or more than one. |
| `Pairing.PrefixEndsAtFirstUnderscore` | powerwall/tedapi/tedapi.go:1837-1842 | The prefix of a name ends at its first underscore, unless there is none or it comes first; then it is the whole name. |
| `Pairing.FamilyIsByNames` | powerwall/tedapi/tedapi.go:1833-1862 | A component has the family f exactly when it has a named signal and each named one is called f or starts with f and an underscore; this is what makes a THC and a PINV in the layout that is recognised. |
| `Pairing.HopelessPrefix` | powerwall/tedapi/tedapi.go:1900-1924 | Giving up early is right: a prefix that breaks the layout cannot be completed to a well-paired list. |
| `Pairing.Verdict` | powerwall/tedapi/tedapi.go:1900-1924 | At the end of the list, no THC waiting and as many pairs as known serials is exactly the layout asked for. |
| `TransportGate.WriteIsGated` | powerwall/tedapi/tedapi.go:196-223 | In every sequence of calls a write gets the LAN transport only while LAN is healthy, and the WiFi transport only when LAN has failed, failover and fallback are on, and a signed probe was answered less than 60 s ago and since LAN was last healthy; it is the probed transport if and only if that is still the last one set. |
| `TransportGate.WriteGetsLastSet` | powerwall/tedapi/tedapi.go:196-223 | What every write gets, told from the calls made so far on a fresh client: with LAN healthy the LAN transport last set; with LAN down the WiFi transport last set, if and only if a LAN transport is set, failover and fallback are on, and the last probe was answered less than a minute ago or one made now is possible and answered; otherwise none. |
| `TransportGate.DeadlineIsLastProbe` | powerwall/tedapi/tedapi.go:244-268 | In every run the deadline has a value if and only if the last call that tried a probe got an answer a minute before it and LAN has been down ever since. |
| `TransportGate.DeadlineIsBacked` | powerwall/tedapi/tedapi.go:244-268 | A deadline that is set comes from an answered probe a minute before it, made in the present outage, and the transport in place is the last one set since then or the probed one. |
| `TransportGate.SmallDeadlineIsBacked` | powerwall/tedapi/tedapi.go:244-268 | With the lock free while probes are under way, and any calls in between, a deadline is still never more than a minute after the answer to a probe; if LAN was down when the answer came it has been down ever since. |
| `TransportGate.ProbeIsOfPresentOutage` | powerwall/tedapi/tedapi.go:244-268 | LAN has been down from the beginning of that probe until now if and only if it was down from the beginning of the probe to its answer. |
| `TransportGate.OldProbeMayOpenNewOutage` | powerwall/tedapi/tedapi.go:245-258 | From a fresh client: when LAN recovers and fails again during a probe, its answer opens the window of the new outage. |
| `TransportGate.ProbeMayOpenNextOutage` | powerwall/tedapi/tedapi.go:245-258 | From a fresh client: when LAN recovers during a probe and the answer comes while it is healthy, the next outage begins with the window open. |
| `TransportGate.SwappedTransportIsNotProbed` | powerwall/tedapi/tedapi.go:145-149 | From a fresh client and by its own calls: whatever transport replaces a probed one is handed out for writes within the minute without having been probed. |
| `TransportGate.Client.V1rWriteTransport` | powerwall/tedapi/tedapi.go:196-223 | Which transport a write gets, and when it probes first. |
| `TransportGate.Client.WiFiV1rReady` | powerwall/tedapi/tedapi.go:244-268 | A probe sets the deadline a minute after its answer; anything else clears it. |
| `TransportGate.Client.V1rReadTransport` | powerwall/tedapi/tedapi.go:183-194 | Reads get WiFi without a probe, on the same flags. |
| `TransportGate.Client.SetLANFailed` | powerwall/tedapi/tedapi.go:162-169 | Only a recovery of LAN clears the deadline. |
| `TransportGate.Client.SetV1rTransport` | powerwall/tedapi/tedapi.go:137-142 | The LAN transport changes and the gateway counts as a Powerwall 3; nothing else moves. |
| `TransportGate.Client.SetWiFiV1rTransport` | powerwall/tedapi/tedapi.go:145-149 | Only the WiFi transport changes; the deadline stays. |
| `TransportGate.Client.SetFailover` | powerwall/tedapi/tedapi.go:152-157 | Only the two switches change. |
| `TransportGate.Client.ConnectV1r` | powerwall/tedapi/tedapi.go:270-312 | A LAN login makes LAN healthy and clears the deadline; a WiFi login marks LAN as failed. |
| `Uptime.GatewayTimeNeverDecreases` | powerwall/tedapi/tedapi.go:1120-1137 | Over any sequence of samples the stored gateway time never moves back. |
| `Uptime.StoreHoldsLatest` | powerwall/tedapi/tedapi.go:1120-1137 | Over any sequence of samples the store holds uptime and clock of the usable sample with the latest clock, of several the last. |
| `Uptime.NothingUsableNothingStored` | powerwall/tedapi/tedapi.go:1096-1118 | Without a usable sample nothing is stored. |
| `Uptime.FirstStartIsUptimeAgo` | powerwall/tedapi/tedapi.go:1112-1118 | The first start stored lies the uptime before the clock of its sample, up to a nanosecond. |
| `Uptime.ReportedStartIsNearRaw` | powerwall/tedapi/tedapi.go:1079-1094 | However long the run, the reported start is within 600 s of the start that the accepted sample itself gives. |
| `Uptime.SteadyStartNeverChanges` | powerwall/tedapi/tedapi.go:1079-1137 | While accepted uptimes never fall by 10 s and all raw starts lie in one interval of 600 s, the reported start never changes. |
| `Uptime.RestartIsReported` | powerwall/tedapi/tedapi.go:1079-1094 | An uptime that falls by 10 s or more makes the start of that sample the reported one. |
| `Uptime.Backend.GetGatewayUptime` | powerwall/tedapi/tedapi.go:1096-1138 | One sample: refused, answered with the stored reading when its clock is behind, or stabilised and stored. |
| `Uptime.StabilizeStartTime` | powerwall/tedapi/tedapi.go:1079-1094 | The stabilised start is within the tolerance of the raw one. |
| `LocalClient.CachedPollRefinesGateway` | powerwall/local/local.go:393-537 | In every sequence of polls, posts and waits, a value from a poll is a reading of that very endpoint in the representation asked for, no older than the lifetime and not overtaken by an error-free post to it; for every name not itself spelled like the raw key of an endpoint that can be asked. |
| `LocalClient.RefinesUnlessMisread` | powerwall/local/local.go:393-474 | The condition on the name is exact, whatever names the URL parser accepts: polls of a name are faithful in all runs if and only if it is not spelled like the raw key of an accepted name. |
| `LocalClient.MisreadGetsBytes` | pkgs/cache/cache.go:30-47 | For every name so spelled there is a run in which the bytes of another endpoint come back as its decoded answer. |
| `LocalClient.ForcedPollIsFresh` | powerwall/local/local.go:393-474 | A forced poll answers with what the gateway said during the call. |
| `LocalClient.KeyspacesHoldTheirRepresentation` | pkgs/cache/cache.go:35-47 | In every run, positive entries under raw keys are bytes and positive entries under bare keys are not. |
| `LocalClient.PollEffort` | powerwall/local/local.go:322-474 | However the gateway answers, a poll makes at most two requests and one login. |
| `LocalClient.NoRequestWhileCooling` | powerwall/local/local.go:322-474 | In every run, after a 429 or a 503 on any request of a poll, the repeated one included, no GET of any endpoint, forced or not, is made for 300 s, whatever polls, posts and waits follow. |
| `LocalClient.ClosedEndpointIsRemembered` | powerwall/local/local.go:322-385 | When the last reply of a poll, before or after a new login, is a 404, 401 or 403, then for 600 s, and after a 503 for 300 s, in every run of polls, posts and waits that has no forced poll of the endpoint and no error-free post that makes it stale, the endpoint is not asked and unforced polls of it in either representation find nothing. |
| `LocalClient.CooldownStopsEveryEndpoint` | powerwall/local/local.go:340-424 | In every run, a poll made in these 300 s changes nothing at all. |
| `LocalClient.PollsResumeAfterCooldown` | powerwall/local/local.go:417-440 | In every run, a forced poll of a name that a URL can be made of, or an unforced one with nothing live under its key, makes a request if and only if no 429 or 503 was received in the last 300 s and it is not for vitals that were once found missing; without a request it changes nothing. |
| `LocalClient.HeldBackPoll` | powerwall/local/local.go:401-434 | What a poll without a request returns: the live cached answer, not found for a live negative entry, then the rate limit, the missing vitals, or the bad name. |
| `LocalClient.LastReplyDecides` | powerwall/local/local.go:322-474 | A poll that makes a request returns a content if and only if the reply it ends with, the one after a new login if there was one, has a status below 400 and a whole body, represented as asked; every other reply gives the error of its class. |
| `LocalClient.LastReplyDecidesPost` | powerwall/local/local.go:477-537 | A post returns its last reply if and only if the body was read to the end, whatever the status; exactly then the stale keys are dropped and the write is on record. |
| `LocalClient.RepresentIsLossless` | powerwall/local/local.go:460-472 | Two bodies with the same representation have the same bytes if it is raw or no JSON, and the same document otherwise. |
| `LocalClient.AnswerIsReused` | powerwall/local/local.go:393-474 | An answer is served again without a request for as long as it lives. |
| `LocalClient.RunKeepsValid` | powerwall/local/local.go:322-537 | The invariants behind these: every positive entry is a current reading under the key of its representation, and the cooldown covers 300 s after every rate limit. |
| `LocalClient.Client.Poll` | powerwall/local/local.go:393-474 | One poll: cache, cooldown, request. |
| `LocalClient.Client.Request` | powerwall/local/local.go:429-474 | The part over the wire: reply, recursion after a login, and what is kept under which key. |
| `LocalClient.Client.HandleHTTPStatus` | powerwall/local/local.go:322-372 | What each status from 400 up leaves behind in cache, cooldown and session. |
| `LocalClient.Client.SetEndpointNegative` | powerwall/local/local.go:382-385 | A negative answer is kept in both keyspaces. |
| `LocalClient.Client.Post` | powerwall/local/local.go:477-537 | An error-free post removes every entry that it makes stale, after at most one login. |
| `ResponseCache.Cache.Get` | pkgs/cache/cache.go:80-97 | A hit needs an item that has not expired and is within the reader's own age limit. |
| `ResponseCache.Cache.Set` | pkgs/cache/cache.go:100-106 | The item lives for the default lifetime. |
| `ResponseCache.Cache.SetWithTimestamp` | pkgs/cache/cache.go:109-115 | The item carries the given time and lives for the given lifetime. |
| `ResponseCache.Cache.SetNegative` | pkgs/cache/cache.go:118-124 | A negative item with its own lifetime. |
| `ResponseCache.Cache.Invalidate` | pkgs/cache/cache.go:130-139 | Exactly the read keys mapped to the write are gone, in both keyspaces. |
| `ResponseCache.WriteForgets` | pkgs/cache/cache.go:126-139 | Exactly the endpoint written to goes, in both representations, and with the operation endpoint the site configuration; everything else stays as it is. |
| `ResponseCache.Cache.Delete` | pkgs/cache/cache.go:142-145 | Exactly the key and its raw form are gone. |
| `ResponseCache.Cache.Clear` | pkgs/cache/cache.go:148-150 | Nothing is left. |
| `ResponseCache.Cache.SetCooldown` | pkgs/cache/cache.go:153-157 | The cooldown ends the given time from now. |
| `ResponseCache.Cache.InCooldown` | pkgs/cache/cache.go:160-165 | Cooling means strictly before that end. |
| `ResponseCache.RawKeyIsInjective` | pkgs/cache/cache.go:45-47 | Different endpoints have different raw keys. |
| `Operations.SetReserveKeepsMode` | powerwall/operations.go:133-160 | On an overwriting gateway, setting the reserve keeps the mode whatever the gateway's defaults are, if and only if the read-back held the mode. |
| `Operations.SetModeKeepsReserve` | powerwall/operations.go:133-160 | Setting the mode keeps the reserve if and only if the read-back held the reserve. |
| `Operations.OneFieldWriteIsLocal` | powerwall/operations.go:113-217 | Given a read that returns the fields of the gateway, a write of one field never changes the other, and a failed read or a level out of range sends nothing. |
| `LocalWrites.SetLeavesOtherField` | powerwall/operations.go:113-217 | With the forced read, the poll for the identity and the post made by the cached client, in any state of it, against a gateway whose served answers are true: setting one field never changes the other one of the gateway, however the exchanges end, and the supplied field is taken exactly when the write is carried out. |
| `LocalWrites.SetGoesOutWhenRead` | powerwall/operations.go:133-217 | A write of one field goes out if and only if its level is in range and the read-back was asked for and answered; it then carries the supplied field and the gateway's own other one. |
| `LocalWrites.WholeWriteReadsNothing` | powerwall/operations.go:133-217 | A write of both fields or of none does not depend on any read-back, goes out exactly when the level is in range, and polls for the identity of the gateway first. |
| `LocalWrites.WritesOfOneFieldKeepTheOther` | powerwall/operations.go:113-217 | In every run, however many reserves are set and whatever is lost or refused on the way, the mode of the gateway stays as it was; and the other way round. |
| `LocalWrites.LaterReadsTellState` | powerwall/local/local.go:393-537 | In every run, once a write has ended without error, every later poll of the endpoint, cached or forced, raw or decoded, answers with the state the gateway then has, as long as no later write is lost. |
| `LocalWrites.ReadAfterWrite` | powerwall/local/local.go:393-537 | From a state whose cache tells the state of the gateway, after any write of one field, both or none, and any wait, an unforced poll in either representation tells the state of the gateway if and only if not both the write was lost (carried out but reported as an error) and the cache still holds an answer in that representation. |
| `LocalWrites.LostWriteIsNotSeen` | powerwall/local/local.go:477-526 | When a lost write of one field had to read the other one back, that answer is cached and tells the old state while it lives, whatever was cached before. |
| `LocalWrites.OneContentTellsOneState` | powerwall/operations.go:26-41 | No content, raw or decoded, reports two different states of the gateway. |
| `LocalWrites.ReadBackIsTrue` | powerwall/operations.go:26-41 | A forced read-back finds the state of the gateway or nothing, whatever the cache holds. |
| `Operations.OtherBackendsGetOnlyWhatWasSupplied` | powerwall/operations.go:133-160 | In the other modes the payload carries exactly the supplied fields, whatever a read would give. |
| `Operations.BothFieldsReachGateway` | powerwall/operations.go:183-217 | With both fields supplied in local mode the gateway ends with exactly these, whatever it had, whatever its defaults are and whatever a read would give; a level out of range leaves it alone. |
| `Operations.EmptyWriteResetsGateway` | powerwall/operations.go:183-217 | With neither field supplied an empty payload goes out all the same, and an overwriting gateway falls back to its defaults. |
| `Operations.BackfillLocalOperation` | powerwall/operations.go:133-160 | Reads back exactly when one field is missing in local mode, and fails exactly when that read does. |
| `Operations.SetOperation` | powerwall/operations.go:183-217 | What is sent, and the result in terms of it; on any refusal before the post nothing is sent. |
| `Proxy.CountsSumToTotals` | proxy/server.go:274-313 | Over every sequence of calls and resets, the calls of all endpoints sum to total successes plus total failures, and the successful ones to total successes. |
| `Proxy.DegradedExactlyAtThreshold` | proxy/metrics.go:26-53 | In every run the connection is degraded exactly when the threshold is positive and the failures since the last success or reset have reached it. |
| `Proxy.CallIsServed` | proxy/server.go:274-313 | What every call is handed, told from the attempts since the last reset alone: the fresh value, the form of the endpoint's last success when the call fails or is spared, or nothing; exactly when it is spared; and the same for a call that joins the request of another. |
| `Proxy.AnswerSurvivesOutage` | proxy/server.go:259-313 | With the fallback on, a failed call gets the last good answer of its endpoint: a text or bytes unchanged, another value in its JSON form, or printed where it has none. |
| `Proxy.LastSuccessIsTold` | proxy/metrics.go:26-53 | In every run the time of the last success is that of the last good answer of any endpoint, or of the start or reset after which there was none. |
| `Proxy.FailFastFreezes` | proxy/server.go:279-283 | While failing fast and asked only for endpoints with a saved answer, no call reaches the gateway and the connection stays degraded, for any number of calls and whatever the gateway would answer. |
| `Proxy.RouteIsFaithful` | proxy/server.go:315-364 | What every route request is answered with, told from the history alone: the body made last for the route while it is recent; else what its generator makes, or what the flight that it joins came to; else the form of the last success; and nothing exactly when that is missing too or empty. |
| `Proxy.RunAgrees` | proxy/server.go:274-364 | The invariant behind these, over all calls, calls that share a request, routes and resets: statistics, health, saved texts and kept bodies all agree with the history of attempts. |
| `Proxy.UriTableIsAPrefixTally` | proxy/server.go:240-257 | Since the last clearing, the table by address counts exactly the requests up to the one that brought the hundredth address, and none after it, known addresses included. |
| `Proxy.EveryRequestCountsOnce` | proxy/server.go:240-257 | Over any log of requests each is counted once, as served, failed or timed out; a clearing forgets all but the timeouts. |
| `Proxy.Server.ClearStats` | proxy/system.go:94-100 | Everything but the timeouts starts over. |
| `Proxy.Server.SafePWCall` | proxy/server.go:274-313 | One call: fail-fast path, counting, health, saving, fallback. |
| `Proxy.Server.ResetHealth` | proxy/system.go:110-113 | Health, statistics and saved texts start over, with the numbers of entries removed. |
| `Proxy.Server.FetchRoute` | proxy/server.go:315-342 | Kept body, generator, fallback, in this order. |
| `Proxy.Server.CachedRouteHandler` | proxy/server.go:344-364 | Kept body, then the flight of the route, its own or one it joins; an empty text is no answer. |
| `Proxy.Server.RecordStats` | proxy/server.go:240-257 | Timeouts, errors and served requests are counted apart; the table by address is frozen at 100 entries. |
| `Metrics.ConnectionHealth.RecordSuccess` | proxy/metrics.go:26-33 | A success ends the degraded state and the count of failures in a row. |
| `Metrics.ConnectionHealth.RecordFailure` | proxy/metrics.go:35-43 | A failure may set the degraded state, never clear it. |
| `Metrics.ConnectionHealth.Reset` | proxy/metrics.go:45-53 | All counters and the flag start over. |
| `Metrics.EndpointStatsTracker.Record` | proxy/metrics.go:98-115 | Only the statistics of this endpoint change, by one call. |
| `Metrics.EndpointStatsTracker.Reset` | proxy/metrics.go:117-124 | The table is empty and its old size is returned. |
| `Metrics.SumUpdated` | proxy/metrics.go:98-115 | A change of one entry changes the sum over the table by the difference, in whatever order the table is summed. |
| `FallbackCache.DegradationCache.Get` | pkgs/cache/cache.go:245-254 | A saved answer is handed out however old it is, with a mark when it has expired. |
| `FallbackCache.DegradationCache.Set` | pkgs/cache/cache.go:257-262 | The last answer of the endpoint replaces the one before. |
| `FallbackCache.DegradationCache.Clear` | pkgs/cache/cache.go:265-270 | Nothing is left, and the old number of entries is returned. |
| `FallbackCache.PerformanceCache.Get` | pkgs/cache/cache.go:195-202 | A body is there until its lifetime has passed. |
| `FallbackCache.PerformanceCache.Set` | pkgs/cache/cache.go:205-207 | A body lives for the configured lifetime. |
| `Cloud.CachedEntriesAreOfCurrentSite` | powerwall/cloud/cloud.go:450-492 | In every run after authentication, every cached entry is an answer of the site in use, given since the last switch, under the key of its read. |
| `Cloud.ReadIsFaithful` | powerwall/cloud/cloud.go:450-492 | A read answers with what the site in use said to this very read, no longer ago than both lifetimes allow, and during the call when forced. |
| `Cloud.LastReplyDecides` | powerwall/cloud/cloud.go:450-505 | A read that is not served from the cache returns a document if and only if its last reply, the repeated one after a switch, has a status below 400 and decodes to it; that is cached under its key, and every other reply gives the error of its class and caches nothing. |
| `Cloud.AnswerIsReused` | powerwall/cloud/cloud.go:450-461 | A good answer is served again without a request for the configured lifetime, and the site configuration for no more than 59 s. |
| `Cloud.SiteChangesOnlyWhenGone` | powerwall/cloud/cloud.go:542-590 | The site changes if and only if a request got a 404, the last attempt is at least 60 s old and the account lists exactly one product, another one with an identifier; it then changes to that one. |
| `Cloud.RecoveryAttemptsAreSpaced` | powerwall/cloud/cloud.go:560-568 | Any two recovery attempts of one run are at least 60 s apart, failed ones included. |
| `Cloud.RecoveryIsTriedAgain` | powerwall/cloud/cloud.go:560-568 | In every run, a read that the cache cannot serve and that is answered with 404 tries to recover if and only if no attempt of the last minute is on record. |
| `Cloud.SwitchEmptiesCache` | powerwall/cloud/cloud.go:472-490 | After a switch the cache holds at most the answer of the repeated request, and holds it exactly when that succeeded. |
| `Cloud.FindReplacementSite` | powerwall/cloud/cloud.go:542-558 | There is a replacement exactly when one product is listed, and its identifier is neither empty nor the current one. |
| `Cloud.ReplacementIsIdentified` | powerwall/cloud/cloud.go:531-558 | The one listed product replaces the site under its energy site if it has one, else under its own identifier, unless that is the current site. |
| `Cloud.Client.RecoverStaleSite` | powerwall/cloud/cloud.go:560-590 | One recovery: the attempt is dated even if it fails, and only a replacement switches and clears. |
| `Cloud.Client.FetchSiteJSON` | powerwall/cloud/cloud.go:450-505 | Cache, request, recovery and one repeated request at the new site; a repeated request without a reply leaves the 404. |
| `Scan.IncIP` | powerwall/scan/scan.go:152-159 | The in-place step adds one modulo 2^(8n) to the number the bytes stand for, wrap-around included. |
| `Scan.Hosts` | powerwall/scan/scan.go:166-188 | For every prefix of 1 to 32 bits the loop ends with the addresses of the network counted up one by one, without the first and last when the prefix is below 31 (section 3.1 of RFC 4632). |
| `Scan.Enumerate` | powerwall/scan/scan.go:173-182 | The loop itself: every address of the network once, in ascending order. |
| `Scan.CountsUpIsExact` | powerwall/scan/scan.go:166-188 | The list holds an address exactly when the network does (and it is not the first or last, where these are left out). |
| `Scan.NetworkIsBlock` | powerwall/scan/scan.go:173-177 | Sharing a prefix is lying in one aligned block of addresses that ends inside the address space. |
| `Scan.ZeroPrefixNeverLeaves` | powerwall/scan/scan.go:176-177 | With a prefix of zero bits the loop condition holds of every address, so the loop has no end. |
| `Tlv.BuildTLVPayload` | powerwall/tedapi/v1r.go:266-303 | Refused exactly when the DIN exceeds 255 bytes; otherwise 15 bytes longer than DIN and inner bytes, and a reader that walks tags up to 0xFF recovers the four signed fields and the inner bytes. |
| `Tlv.WalkEncoded` | powerwall/tedapi/v1r.go:266-303 | The reader undoes the encoding of every list of fields that does not use the end tag. |
| `Tlv.PayloadDeterminesRequest` | powerwall/tedapi/v1r.go:266-303 | One payload cannot stand for two different requests. |
| `Tlv.BackupDuration` | powerwall/tedapi/v1r.go:507-542 | Durations are refused exactly outside 0 to 2^32-1 seconds; a sent one is at least 60 s and survives the narrowing to 32 bits. |
| `Token.MergedStringsReadBack` | pkgs/oauthclient/oauthclient.go:126-256 | Reading a merged token back gives the new access token, and the new refresh token and type where they were set, else what was readable before, for any mix of top-level, sso and token objects (section 6 of RFC 6749). |
| `Token.MergedExpiryReadsBack` | pkgs/oauthclient/oauthclient.go:126-256 | The expiry reads back as its whole second when that is after the epoch; unset, as before; set but unreadable, it hides an earlier absolute expiry. |
| `Token.MergeToken` | pkgs/oauthclient/oauthclient.go:214-256 | The token keys are written at the top level and into both nested objects that exist, and no other key at any level changes. |
| `Token.TokenFromFields` | pkgs/oauthclient/oauthclient.go:126-168 | The preference of nested over top-level fields, and the error when no refresh token is there. |
| `Token.StringsAreNestedOrTop` | pkgs/oauthclient/oauthclient.go:126-156 | A file reads as a token exactly when the object it prefers, sso before token before the top level, or the top level has a refresh token; every string is the one of the preferred object, else the one on top. |
| `Token.ExpiryIsAbsoluteFirst` | pkgs/oauthclient/oauthclient.go:158-207 | The expiry is the absolute one if either level has a positive number of seconds for it, else the relative one counted from now, the preferred object first each time, else none. |
| `Token.Draft.SetAbsoluteExpiry` | pkgs/oauthclient/oauthclient.go:170-188 | Only a positive number of seconds sets the expiry. |
| `Token.Draft.SetRelativeExpiry` | pkgs/oauthclient/oauthclient.go:190-207 | Only a positive number of seconds sets the expiry, counted from now. |

## Left out

- Scan.Hosts: requires a prefix of at least one bit, because with zero bits the loop of the original has no end (`Scan.ZeroPrefixNeverLeaves`); IPv4-mapped IPv6 networks and the text form of addresses are not modelled.
- Scan.Enumerate: requires a prefix of at least one bit, for the same reason.
- Operations.SetOperation: a level that is not a number is not modelled; it passes the range check of the original.
- Uptime.Backend.GetGatewayUptime: does not model uptimes beyond 292 years, where the duration of the original overflows.
- FleetApi.Client.FetchSiteJSON: is the call of one caller with nobody else about; concurrent callers are the machine in `flights.dfy`.
- Flights.RunIsValid: a reply that takes effect changes the cache or the window in one step; the lifetime counts from that step, as in the original, not from the reply. No claim about reading one's own writes across a request in flight is made.
- FleetApi.Client.DoFetchSiteJSON: POSTs appear only as a source of rate limits; they do not check the window in the original either.
- TransportGate.Client.WiFiV1rReady: is one step in the class, although the original drops its lock while it probes; the smaller steps are those of `TransportGate.SmallRun`.
- Token.MergeToken: the file is written in place, but its nested objects are values in it, so that two keys sharing one nested map are not modelled.
- Pairing.PairNextComponent: returns the new set and map that the original changes in place.
- Proxy.Server.SafePWCall: saved answers have no age limit, because the original discards the expired mark; completing a call is one step, where the original takes one lock after another.
- Proxy.Server.CachedRouteHandler: the result of a flight that a request joins is an input.
- Cloud.Client.FetchSiteJSON: addresses are a site and a read, not text; replies are whole exchanges.
- LocalClient.Client.Post: does not look at the status of the reply, as the original does not; a refused write is reported like an accepted one.
- LocalClient.Client.Poll: which names the URL parser accepts is an arbitrary set, of which only those without control characters are used.
- LocalWrites.LaterReadsTellState: only this client writes to the gateway, and it writes to the operation endpoint only by setting reserve or mode.
- Integers are unbounded: counters, durations and clock readings do not wrap around, apart from the conversion of a retry number and the 32-bit fields of the signed payload.
- HTTP, TLS, RSA, protobuf and JSON coding, file access and logging are arbitrary outcomes; session cookies and bearer tokens of the local client are a login that succeeds or fails.
- The degraded `/aggregates` route marshals a saved text again, so the last good answer is claimed at the call, not for that route's body.
- Rate-limited logging, snapshots for `/health`, views, the command line, Prometheus and Influx output, calculations, versions, validation and lookups.
- `notifyingSource` in `pkgs/oauthclient/oauthclient.go` and the persistence of refreshed tokens are not part of this model.
