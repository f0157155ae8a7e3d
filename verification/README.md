# Vanguard Sentinel: the admission core

A Dafny model of the guards that decide, over an unbounded run of requests, who gets through the gateway,
and proofs of what these guards guarantee over whole runs. `dafny verify dfyconfig.toml` checks it all.

## What is modelled

**The shared store** (`TimedStore`, `Keys`). A map from key to value and optional expiry. Every Redis
command, and the whole Lua script, is one atomic step at a reading of the store's clock. A key is live
through its set time plus its TTL, inclusive. Dead entries are treated as absent by every command.

**The guards**, each a class whose methods run those commands and are proved against a specification
function: the token bucket (`TokenBucket`, `BucketExpiry`, `BucketEnvelope`, `RateLimiter`), the blacklist
(`Blacklist`, `BanHistory`, `CleanSlate`, `BanProtocol`), the replay guard (`ReplayGuard`,
`ReplayProtocol`), the UDP flood heuristic (`SynFlood`), the alert manager (`Alerting`), the feature
extractor (`AnomalyFeatures`), the cheat detector (`CheatDetector`), the rule engine (`RuleEngine`,
`RuleProtocol`) and the event log (`Reports`).
`SlidingWindow`, `PerClient`, `Rings`, `Variance` and `Distance` hold what these share.

**The gateways.** `SharedStore` puts all guards on one store. `Pipeline` and `Gateway` are the HTTP
request, and `Outcomes` says which outcome it comes to. `PipelineRun`, `Forwarding`, `SameClock`,
`PipelineBans` and `Accounting` are its runs, mixed with admin actions and packets. `Interleaving` drops
the assumption that a request is atomic: any number of handlers alternate guard call by guard call, and
`Uninterrupted` ties it back to `Pipeline`. `Overlap`, `OverlapReached` and `InterleavedAccounting` are
about the violation counter and the request counters of such runs. `SteadyRuns` says in which runs of both
kinds the expiry of a bucket cannot be seen. `PacketGateways`, `PacketRuns`, `PacketHistory` and
`SpeedInRuns` are the UDP and WebSocket gateways on the same guards.

**The session token** (`Bytes`, `Padding`, `BlockChaining`, `Base64Url`, `TokenAuth`), layer by layer.

The lemmas called `...WrittenOut`, and `Outcomes.EndsAtFirst`, `SameClock.LimitGrants`,
`PacketHistory.EventIsHistory`, `BlockChaining.CipherBlock` and `TokenAuth.TokenLayout`, say what the
specification functions come to in plain numbers, key names and statuses, without these functions.

What the model does not compute is an input of a request or a packet: the GeoIP answer, the anomaly
verdict, the pattern match of a rule, the upstream reply, and every clock reading. Times and tokens are
real numbers. `reading(k)` is the clock reading that a request's k-th limiter call passes to the script;
it is not tied to the store's clock unless a lemma says so.

## Where the code and its promises part

- **A ban does not always last as long as its counter.** With INCR, EXPIRE and SET as separate steps, a
  handler that counted below the threshold may run its EXPIRE after another handler's ban, and renew the
  counter past it. `BanProtocol.AlwaysSafeIff` gives the exact condition: with EXPIRE at most `lag` after
  its INCR, a counter at the threshold can outlive its ban by `lag` and no more, unless one violation
  already bans. So the statement without any slack holds iff `lag` is 0 or the threshold is at most 1.
  `BanProtocol.LagIsReached` builds the run, for any lag. When requests are atomic the statement holds:
  `PipelineBans.BansCoverCounters`.
- **The nonce TTL has no room for delay.** The configured 60 = 2 * 30 seconds is exactly enough when the
  clock read and the SET NX coincide; any delay between them needs that much more TTL
  (`ReplayProtocol.AtMostOnceIff`).
- **Limits of matched rules share one bucket.** A request matched by m limiting rules takes m + 1 tokens.
  When its calls read one clock, it can only go upstream if the q-th limit (from 0) is at least m + 1 - q,
  with the default capacity in place of a limit 0; a rule with `max_requests_per_sec` 1 then stops every
  request that it matches (`SameClock.ForwardedIsRoomy`, and `SameClock.FreshForwardedIff` for the exact condition).
- **An override of 0 means the default capacity**, as the `or` in the code has it; a negative one grants
  nothing (`SameClock.LimitGrants`), and `BucketExpiry.ExpiryInvisibleIff` covers both.
- **Alerts compare with a last alert at clock zero**, so no alert goes out at clock readings below 300;
  `Alerting.AlertSchedule` says so and needs no lower bound on the clock.
- **Nonce keys join client and nonce with a colon**, so two pairs can share a key;
  `Keys.NonceKeyCollisions` says exactly when. It only causes refusals: a fresh pair is refused iff a
  colliding one was accepted within the TTL (`ReplayProtocol.FreshIsRefusedIff`, and
  `ReplayProtocol.CollisionRefuses` for a run in which it is).
- **An expired bucket is a full one.** If an hour does not refill a capacity in use, a bucket that is
  drained, idle until its key expires and drained again goes past the interval bound; otherwise the bound
  holds through every expiry (`BucketEnvelope.RespectsIff`, `BucketEnvelope.Overrun`).
- **The cheat detector runs on the clients' timestamps.** Its 15 units per second are per second of these;
  in the gateway's time it holds with exactly two replay windows on top (`SpeedInRuns.SpeedHoldsIff`).
- **A count can pass the threshold when requests overlap.** Handlers that passed their ban check before the
  ban still record their violations after it: K at once bring the count to threshold - 1 + K, and no
  further (`OverlapReached.OverlapBoundIff`).
- **A deletion can be undone by a toggle** that read the rule before it and writes after it, and by nothing
  else (`RuleProtocol.ComesBackIff`).
- **Session ids with a colon print a token that is never accepted** (`TokenAuth.RoundTrip`).

## Model

| member | source | states |
|---|---|---|
| Keys.FamiliesDisjoint | backend/app/security/blacklist.py:12-16 | no limiter, ban, violation or nonce key equals a key of another family, for arbitrary ids |
| Keys.NonceKeyCollisions | backend/app/security/replay_guard.py:13-14 | two different (client, nonce) pairs have one key iff a colon moved between the two parts |
| Keys.NonceKeyInjective | backend/app/security/replay_guard.py:13-14 | nonce keys are injective over colon-free clients, and over colon-free nonces |
| TimedStore.Redis.RunSetNxEx | backend/app/security/replay_guard.py:24-26 | SET NX EX succeeds iff the key is not live, and writes nothing otherwise |
| TimedStore.Redis.RunIncr | backend/app/security/blacklist.py:20 | INCR counts on from a live counter, from zero otherwise, and keeps a live expiry |
| TimedStore.Redis.RunExpire | backend/app/security/blacklist.py:21 | EXPIRE renews a live key and ignores a dead one |
| TimedStore.Redis.RunKeys | backend/app/security/blacklist.py:52 | KEYS lists the live keys of a family, each once |
| TokenBucket.ClosedForm | backend/app/security/rate_limiter.py:13-31 | on every run and for every call: since the last call that found no live bucket, the refilled count is the minimum over the intervals ending here of bound minus admitted, and the call is allowed iff admitting it keeps every such interval within its bound |
| TokenBucket.RefillUpper | backend/app/security/rate_limiter.py:13-31 | the refilled count is at most the bound of any unexpired interval less what it admitted, for any clock order and any mix of capacities |
| TokenBucket.RefillAttained | backend/app/security/rate_limiter.py:17-23 | some earlier call pins the refilled count exactly |
| TokenBucket.Envelope | backend/app/security/rate_limiter.py:22-31 | an interval in which the key does not expire, and which ends in an admitted call, admits at most its first capacity plus the refill between its clock readings, even if clocks go backwards inside |
| TokenBucket.ScriptRespects | backend/app/security/rate_limiter.py:22-31 | on a run in which the key does not expire, the script keeps every interval within its bound, for any clock order |
| BucketEnvelope.RespectsIff | backend/app/security/rate_limiter.py:17-32 | with agreeing clocks and through any number of expiries, the script keeps every interval within its bound on all runs iff an idle TTL refills every capacity in use (or no capacity is worth a token) |
| BucketEnvelope.EnvelopeHolds | backend/app/security/rate_limiter.py:17-32 | the envelope of any interval in which the key does not expire, or whose expiries cannot be seen |
| BucketEnvelope.Overrun | backend/app/security/rate_limiter.py:31-32 | otherwise, a run that empties the bucket, lets the key expire, empties it again, and so exceeds a bound |
| TokenBucket.GreedyMaximal | backend/app/security/rate_limiter.py:17-31 | on every run, for any clocks, capacities and number of expiries, any other choice that keeps all bounds accepts, in every prefix, no more calls than the script |
| BucketExpiry.ExpiryInvisibleIff | backend/app/security/rate_limiter.py:31-32 | EXPIRE changes no token count on any run with agreeing clocks iff TTL times refill rate covers every capacity in use and every difference of two of them, zero and negative overrides included |
| BucketExpiry.SeenExpiry | backend/app/security/rate_limiter.py:31-32 | otherwise a drained or a differently limited bucket, left idle, shows the expiry |
| RateLimiter.TokenBucketRateLimiter.Allow | backend/app/security/rate_limiter.py:48-55 | one call is the script on the ip's key with the capacity in force; answer, remaining tokens and new store. What that capacity is, `RateLimiter.ScriptWrittenOut` and `SameClock.LimitGrants` say |
| RateLimiter.ScriptWrittenOut | backend/app/security/rate_limiter.py:13-53 | the script in numbers: a live bucket gains rate times elapsed time up to the limit - the default capacity for no limit and for 0 -, pays one token if it has one, and is kept for 3600 seconds |
| RateLimiter.TokenBucketRateLimiter.CurrentRate | backend/app/security/rate_limiter.py:57-62 | capacity minus stored tokens, 0 when there is no live bucket |
| Blacklist.IPBlacklistManager.RecordViolation | backend/app/security/blacklist.py:18-26 | counts, renews the TTL, and bans with the count iff it reaches the threshold |
| Blacklist.ViolationWrittenOut | backend/app/security/blacklist.py:18-41 | the whole store after a violation: the count one up, with a fresh TTL, and from the threshold on a ban entry with ip, reason, time, time plus TTL and that count |
| Blacklist.IPBlacklistManager.BanIp | backend/app/security/blacklist.py:28-41 | stores the entry under the ban key with the TTL |
| Blacklist.IPBlacklistManager.IsBanned | backend/app/security/blacklist.py:43-45 | true iff the ban key is live |
| Blacklist.IPBlacklistManager.Unban | backend/app/security/blacklist.py:47-49 | deletes the ban and the counter |
| Blacklist.IPBlacklistManager.ListActive | backend/app/security/blacklist.py:51-58 | lists an ip, once, iff it is banned when the keys are listed and when its entry is read |
| BanHistory.CountIsHistory | backend/app/security/blacklist.py:18-21 | the live count is the length of the longest suffix of the violations since the last unban whose gaps, up to now, are within the TTL |
| BanHistory.BansExactlyAtThreshold | backend/app/security/blacklist.py:23-26 | record_violation answers true iff the streak that it completes has reached the threshold |
| BanHistory.CounterAlways | backend/app/security/blacklist.py:18-49 | the counter key is absent before the first violation since an unban, and otherwise holds the streak of the last one with one more TTL |
| CleanSlate.BanCoversCounter | backend/app/security/blacklist.py:18-49 | with gated violations: counts stay within the threshold, a full count has a live ban, and no live ban expires before its counter |
| CleanSlate.FullThresholdAgain | backend/app/security/blacklist.py:18-49 | after a ban lapses, or an unban, the next automatic ban takes a full threshold of new violations |
| BanProtocol.SafeWithinLag | backend/app/security/blacklist.py:18-49 | in every interleaving of all commands: a live counter at the threshold has a ban that ends at most the lag earlier, or a handler about to ban, or an unban half done |
| BanProtocol.AlwaysSafeIff | backend/app/security/blacklist.py:18-49 | that holds for a given slack iff the slack covers the lag or the threshold is at most 1 |
| BanProtocol.LagIsReached | backend/app/security/blacklist.py:20-24 | a run in which late EXPIREs keep renewing the counter until the whole lag is used |
| BanProtocol.UninterruptedViolation | backend/app/security/blacklist.py:18-41 | the single commands of a violation, with nothing in between, are the whole violation of the blacklist |
| BanProtocol.UninterruptedUnban | backend/app/security/blacklist.py:47-49 | and so are the two of an unban |
| ReplayGuard.ReplayAttackGuard.Validate | backend/app/security/replay_guard.py:16-29 | out of window, reused or accepted; only an acceptance writes, and only its nonce key |
| ReplayProtocol.AtMostOnceIff | backend/app/security/replay_guard.py:16-29 | over all interleaved runs of HTTP, WebSocket and UDP no stamp is accepted twice, iff the TTL is at least two windows plus the longest delay |
| ReplayProtocol.BelowTheBound | backend/app/config.py:35-36 | below that TTL, a run that accepts one stamp over HTTP and again over UDP |
| ReplayProtocol.VerdictIsHistory | backend/app/security/replay_guard.py:16-29 | for all ids, a request in its window is accepted iff its nonce key was not accepted within the last TTL |
| ReplayProtocol.FreshIsRefusedIff | backend/app/security/replay_guard.py:13-29 | a request in its window whose own pair was never accepted is refused iff a pair with a moved colon was accepted within the last TTL |
| ReplayProtocol.CollisionRefuses | backend/app/security/replay_guard.py:13-29 | after one acceptance of client "a:b" with nonce "c", client "a" with nonce "b:c" is refused although that pair was never accepted |
| ReplayProtocol.ColonFreeVerdict | backend/app/security/replay_guard.py:13-29 | with colon-free clients, or colon-free nonces, it is accepted iff its own pair was not accepted within the last TTL |
| SharedStore.CellsApart | backend/app/security/rate_limiter.py:50 | two guard calls touch the same keys or no common key |
| SharedStore.ApplyWrittenOut | backend/app/security/blacklist.py:12-49 | what a replay check, a violation, an admin ban (which counts 1) and an unban each leave in the store, entry by entry |
| SharedStore.AllowWrittenOut | backend/app/security/rate_limiter.py:13-55 | the limiter's answer and the bucket it leaves, in numbers, with the caller's reading and the store's clock told apart |
| SharedStore.Isolation | backend/app/security/blacklist.py:12-16 | after any mixed run, a guard's keys are as its own calls alone would have left them |
| SharedStore.AnswersAreIsolated | backend/app/security/blacklist.py:12-16 | every answer in a mixed run is the answer the guard would have given alone |
| SharedStore.AllowIsBucketDecision | backend/app/security/rate_limiter.py:48-55 | in any mixed run the limiter's answer is the bucket theory's decision on that ip's own calls |
| SharedStore.BlacklistIsHistory | backend/app/security/blacklist.py:18-49 | in any mixed run both blacklist keys of an ip are what its own history made them |
| SharedStore.RunsStayTyped | backend/app/security/blacklist.py:18-58 | no run makes a command meet a value of another type |
| SlidingWindow.DequeIsRecent | backend/app/protocols/udp_gateway.py:24-28 | with ordered arrivals the evicted deque is the full history filtered to the window |
| SlidingWindow.PopsBounded | backend/app/protocols/udp_gateway.py:25-28 | total pops never exceed total appends |
| SynFlood.SynFloodHeuristic.RegisterAndCheck | backend/app/protocols/udp_gateway.py:22-31 | appends and evicts on the ip's own deque, and compares its distinct sessions with the maximum |
| SynFlood.FloodIsNaive | backend/app/protocols/udp_gateway.py:22-31 | the sessions in the deque are the distinct sessions of the ip in the window, over everything that ever arrived |
| Alerting.AlertManager.RecordBlock | backend/app/observability/alerting.py:19-26 | appends, evicts, and tries an alert at the threshold |
| Alerting.AlertManager.MaybeSendAlert | backend/app/observability/alerting.py:28-33 | sends and restarts the cooldown iff 300 seconds have passed |
| Alerting.AlertSchedule | backend/app/observability/alerting.py:19-33 | a block sends an alert iff at least the threshold number of blocks of the full history are in the last minute and no alert was sent in the last 300 seconds |
| Alerting.AlertsBounded | backend/app/observability/alerting.py:28-33 | any span of D seconds holds at most D / 300 + 1 alerts |
| AnomalyFeatures.AnomalyDetector.ExtractFeatures | backend/app/ai/anomaly_detector.py:35-49 | pushes onto the client's ring of 50 and computes the four features from it; their values are those of `WindowWrittenOut` and `GapsWrittenOut` |
| AnomalyFeatures.WindowWrittenOut | backend/app/ai/anomaly_detector.py:36-44 | in every run, of the client's last 50 events those of the last second: requests_per_sec is their number, times the average size it is the sum of their sizes, and unique_endpoints is the number of their different endpoints |
| AnomalyFeatures.GapsWrittenOut | backend/app/ai/anomaly_detector.py:46-47 | in every run the interval variance times the number of gaps between the client's last ten events is the sum of the squared differences of these gaps from their average; 0.2 for at most two events |
| AnomalyFeatures.RequestsPerSecIsCapped | backend/app/ai/anomaly_detector.py:39-42 | requests_per_sec is the client's true count in the last second, capped at 50 |
| AnomalyFeatures.WindowFeaturesBounded | backend/app/ai/anomaly_detector.py:40-44 | the window is never empty, 1 <= unique endpoints <= requests per second, and the average lies between the smallest and the largest size |
| AnomalyFeatures.VarianceBounded | backend/app/ai/anomaly_detector.py:46-47 | over whole runs, the interval variance of the last ten events of the client's history is at least 0, is 0 iff they are evenly spaced, and at most a quarter of the squared span; 0.2 for at most two events |
| CheatDetector.CheatDetector.Evaluate | backend/app/ai/cheat_detector.py:18-30 | verdict and new state: speed check first, and the payload is remembered unless that check flagged it; the verdict over runs is that of `CheatDetector.SaidWrittenOut` |
| CheatDetector.CheatDetector.CheckSpeed | backend/app/ai/cheat_detector.py:32-57 | flags a step that is long enough to judge and faster than 15 units per second; the move always becomes the last position |
| CheatDetector.CheatDetector.CheckRepeatPayload | backend/app/ai/cheat_detector.py:59-75 | whether some remembered payload of the client repeats, and the ring of five with the new signature; when that is, `CheatDetector.SaidWrittenOut` says |
| CheatDetector.PositionIsLatest | backend/app/ai/cheat_detector.py:35-56 | in every run the stored position is the client's latest move, however it was judged |
| CheatDetector.VerdictIsHistory | backend/app/ai/cheat_detector.py:18-75 | a verdict depends on the client's previous move and its last five remembered payloads only |
| CheatDetector.SaidWrittenOut | backend/app/ai/cheat_detector.py:18-75 | in every run: speed hack iff the client moved before, at least 0.02 seconds passed and the squared distance exceeds (15 * elapsed) squared; macro iff not that and one of its last five remembered signatures is equal and less than 0.05 seconds older |
| CheatDetector.DisplacementWithinBudget | backend/app/ai/cheat_detector.py:32-57 | in every run of all clients, the displacement between two moves of a client is at most 15 times the time of its checked, unflagged steps in between, measured from the stored position, plus the lengths of the others |
| CheatDetector.SpeedLimit | backend/app/ai/cheat_detector.py:32-57 | in every run of all clients, with each of a client's steps in between checked and none flagged, at most 15 times the elapsed time between any two of its moves |
| SpeedInRuns.GatewaySpeedLimit | backend/app/protocols/ws_gateway.py:37-42 | in every run of the gateways, between two such moves at most 15 times the gateway time elapsed plus two replay windows |
| SpeedInRuns.SpeedHoldsIff | backend/app/protocols/ws_gateway.py:37-42 | in the gateway's time the limit holds on all ordered runs with a given slack iff the slack covers two replay windows |
| SpeedInRuns.TooLittleSlack | backend/app/ai/cheat_detector.py:19-45 | two moves stamped at the far ends of their windows, which the detector passes, exceed any smaller slack |
| RuleEngine.RuleEngine.CreateRule | backend/app/admin/rule_engine.py:17-31 | stores an enabled rule under its fresh id |
| RuleEngine.RuleEngine.DeleteRule | backend/app/admin/rule_engine.py:37-38 | removes the id from the hash |
| RuleEngine.RuleEngine.ToggleRule | backend/app/admin/rule_engine.py:40-46 | changes only the enabled flag, and nothing for an unknown id |
| RuleEngine.RuleEngine.MatchRules | backend/app/admin/rule_engine.py:48-61 | the enabled, matching rules of the listing that block the country or carry a limit, in listing order |
| RuleEngine.MatchedMembers | backend/app/admin/rule_engine.py:48-61 | a rule is matched iff it is listed, enabled, its pattern matches, and it has a limit or lists the non-empty country |
| RuleEngine.MatchedInOrder | backend/app/admin/rule_engine.py:48-61 | matching goes rule by rule and keeps the order of the listing |
| RuleEngine.LimitsInOrder | backend/app/proxy.py:50-52 | the limits that a request meets are those of the limiting rules, in rule order |
| RuleEngine.CostIsOrderFree | backend/app/admin/rule_engine.py:33-61 | the number of limiting rules that match does not depend on the order in which the hash is listed |
| RuleEngine.ToggleOffAndOn | backend/app/admin/rule_engine.py:40-53 | a rule switched off matches nothing; off and on again restores the hash |
| RuleProtocol.ComesBackIff | backend/app/admin/rule_engine.py:37-46 | with HGET, HSET and HDEL as separate steps, a deleted rule that is not created again is back iff a toggle that had read it before the deletion wrote after it |
| RuleProtocol.DeletionUndone | backend/app/admin/rule_engine.py:37-46 | read, delete, write leaves the deleted rule in the hash |
| RuleProtocol.UninterruptedToggle | backend/app/admin/rule_engine.py:40-46 | the read and the write of a toggle, with nothing in between, are the rule engine's toggle |
| Reports.ReportGenerator.RecordEvent | backend/app/admin/reports.py:16-18 | pushes in front and cuts at 50000 |
| Reports.ReportGenerator.LoadEvents | backend/app/admin/reports.py:20-28 | the events of the log that are not older than the cutoff, in order |
| Reports.LogIsNewest | backend/app/admin/reports.py:16-18 | the log is the newest 50000 of all events ever recorded, newest first |
| Reports.LogEntry | backend/app/admin/reports.py:16-18 | entry k of the log is the k-th last of all events ever recorded, for k below 50000 |
| Reports.SinceKeeps | backend/app/admin/reports.py:20-28 | loading keeps exactly the events whose timestamp is at least the cutoff, in log order |
| Reports.CountsAddUp | backend/app/admin/reports.py:33-35 | a counter holds the multiplicities, and they add up to the number of keys |
| Reports.SummaryAddsUp | backend/app/admin/reports.py:30-47 | action counts add up to the total, endpoint counts to the total less the allowed, and the block rate is between 0 and 100 |
| Reports.ActionCounts | backend/app/admin/reports.py:33-40 | the count of an action is the number of events with it; no other action is a key |
| Reports.TargetCounts | backend/app/admin/reports.py:34-41 | the count of an endpoint is the number of its events that were not allowed |
| Reports.CountryCounts | backend/app/admin/reports.py:35-42 | the count of a country is the number of its events; an empty or missing country is not counted |
| Reports.BlockRate | backend/app/admin/reports.py:43-46 | the block rate times the number of events is 100 times the number of events not allowed; 0 for no events |
| Gateway.GatewayProxy.RunRules | backend/app/proxy.py:49-60 | the rule loop: its limiter calls, its early returns and the store it leaves; where it ends, `Outcomes.EndsAtFirst` says |
| Gateway.GatewayProxy.CheckAndForward | backend/app/proxy.py:62-115 | replay check, default limit, anomaly verdict and upstream call, with the violation calls of a refusal |
| Gateway.GatewayProxy.Reject | backend/app/proxy.py:117-122 | one event, one blocked count and one record_block |
| Gateway.GatewayProxy.EmitEvent | backend/app/proxy.py:124-144 | one request count and one log entry, with the current rate read off the store |
| Gateway.GatewayProxy.HandleRequest | backend/app/proxy.py:31-115 | the whole request: store, counters, log, alert state and status (502 for a failed upstream); when which outcome comes about, `Outcomes.EndsAtFirst` says |
| Outcomes.EndsAtFirst | backend/app/proxy.py:40-115 | for every store, request and list of rules: the request ends at the first of live ban, refused country, first rule that refuses its limit or lists the country, stamp out of window or live nonce key of header client or ip, refused default limit, anomaly, upstream reply; with which status; and with exactly which guard calls, one violation in the two cases that record one (403 iff it reaches the threshold, else 429) |
| Outcomes.UpstreamMeans | backend/app/proxy.py:40-105 | whatever goes upstream has no live ban, an allowed country on no matched rule's list, every limit granted, no anomaly, and its nonce, if stamped, past the replay guard under the header's client id or else the ip |
| Outcomes.GeoBlockedIff | backend/app/proxy.py:43-60 | a request is refused for its country, with 403, iff its ip is not banned and the country is refused outright or is on the list of the first matched rule that has it, with every limit up to that rule's own granted |
| PipelineRun.RulesAllGranted | backend/app/proxy.py:49-60 | a rule loop that runs through made one granted call per limiting rule, in order |
| PipelineRun.ForwardedCost | backend/app/proxy.py:49-78 | a request that goes upstream and matched m limiting rules takes exactly m + 1 tokens of its ip's bucket |
| Forwarding.GrantsAreAccepted | backend/app/security/rate_limiter.py:48-55 | the limiter calls granted in a stretch of a mixed trace are the bucket theory's accepted calls |
| Forwarding.ForwardingBound | backend/app/proxy.py:49-78 | the tokens of all requests of an ip that went upstream fit into the envelope of the limiter calls around them, if the bucket key does not expire among these or its expiry cannot be seen |
| Forwarding.UniformBound | backend/app/proxy.py:49-78 | under the same condition, F such requests with m limiting rules each satisfy F * (m + 1) <= bound |
| SteadyRuns.TraceIsSteady | backend/app/proxy.py:49-72 | when requests read the store's clock, in any order, every limiter call of the run does, with a capacity that is the default or a matched rule's limit |
| SteadyRuns.SteadyForwarding | backend/app/proxy.py:49-78 | if requests read the store's clock and an hour refills every capacity in use, the forwarding bound holds over every stretch, expiries included |
| SameClock.OnlyDrains | backend/app/proxy.py:50-56 | calls at one clock reading find at most an earlier call's capacity less one token per call since |
| SameClock.LimitGrants | backend/app/security/rate_limiter.py:48-55 | of calls at one clock reading on a fresh bucket, exactly the first k are granted under a limit k above 0, none under a negative one, and exactly the first `capacity` under none or 0 |
| SameClock.ForwardedIsRoomy | backend/app/proxy.py:49-78 | with one clock reading, going upstream through m limits needs the q-th limit (from 0) to be at least m + 1 - q, or the default capacity to be if that limit is 0, and a default capacity of at least 1 |
| SameClock.FreshForwardedIff | backend/app/proxy.py:49-78 | with a fresh bucket and nothing else in the way, these inequalities are also enough |
| PipelineBans.DecideIsShaped | backend/app/proxy.py:40-98 | a request makes limiter and replay calls, then at most one violation of its own ip, and none if it found the ip banned |
| PipelineBans.RunsAreGated | backend/app/proxy.py:40-98 | every run of the gateway is, for every ip, an ordered history in which violations find no live ban |
| PipelineBans.BansCoverCounters | backend/app/proxy.py:72-98 | in every reachable state: no count above the threshold, a full count has a live ban, no live ban expires before its counter, with admin bans and unbans anywhere |
| PipelineBans.FullThresholdInRuns | backend/app/proxy.py:72-98 | after a lapse or an unban the gateway bans again only after a full threshold of new violations |
| Accounting.BooksBalance | backend/app/proxy.py:117-144 | in every reachable state the counters count the events, the log is theirs, and the alert state saw exactly the rejections |
| Accounting.EventWrittenOut | backend/app/proxy.py:124-144 | what each request adds to the events of a run, field by field: time, ip, endpoint, size, action, tokens in use after its guard calls, country; nothing for a failed upstream |
| Accounting.Conservation | backend/app/proxy.py:100-144 | handled = allowed + blocked + failed upstream, request and blocked counters agree for every other action, and blocks equal record_block calls |
| Accounting.LogAndAlerts | backend/app/proxy.py:117-144 | the log is the newest 50000 events of the run, and the alert state is that of the rejections |
| Accounting.AlertsOfRun | backend/app/proxy.py:117-122 | in every run a rejected request sends an alert iff the threshold of rejections of the whole run is reached within its last minute and none sent one in the last 300 seconds |
| Accounting.StoreIsBefore | backend/app/proxy.py:31-115 | the store of the accounted gateway is the store of the trace of its guard calls |
| Interleaving.ForwardedJobPaid | backend/app/proxy.py:40-115 | a request that goes upstream was granted a token per limiting rule and one more, whatever ran between its calls |
| Interleaving.PaidWasGranted | backend/app/proxy.py:31-115 | in every interleaving the tokens paid by the requests of a stretch were granted in it, each to one request |
| Interleaving.InterleavedBound | backend/app/proxy.py:31-115 | the forwarding bound over every interleaving of any number of handlers, if the bucket key does not expire in the stretch or its expiry cannot be seen |
| SteadyRuns.SteadyInterleavedBound | backend/app/proxy.py:31-115 | the same over every stretch of every interleaving whose calls read the store's clock and whose capacities an hour refills |
| Overlap.OverlapBound | backend/app/proxy.py:40-98 | in every interleaving with at most K handlers of an ip past their ban check at once, its live count is at most threshold - 1 + K, and below the threshold while it is not banned |
| OverlapReached.OverlapBoundIff | backend/app/proxy.py:40-98 | a bound on that count holds for all such interleavings iff it is at least threshold - 1 + K |
| InterleavedAccounting.InterleavedConservation | backend/app/proxy.py:100-144 | in every interleaving: arrived = allowed + blocked + failed upstream + still running, and the two counters agree |
| Uninterrupted.DecideIsUninterrupted | backend/app/proxy.py:31-115 | an uninterrupted handler makes exactly the calls of the atomic request and comes to its outcome |
| PacketGateways.Gateways.HandlePacket | backend/app/protocols/udp_gateway.py:48-71 | one UDP packet: decode, flood, replay, anomaly, acknowledgement, in this order |
| PacketGateways.Gateways.ProcessMessage | backend/app/protocols/ws_gateway.py:31-49 | one WebSocket message: decode, replay, cheat, anomaly, in this order |
| PacketGateways.OneEventEach | backend/app/protocols/udp_gateway.py:48-99 | exactly one event per packet, and acknowledgements exactly for the allowed UDP packets, in order |
| PacketGateways.FloodVerdict | backend/app/protocols/udp_gateway.py:22-58 | in any mixed run a readable UDP packet is rate limited iff its ip opened too many distinct sessions in the window, over the full history |
| PacketRuns.AcceptedOnce | backend/app/security/replay_guard.py:16-29 | no two guard calls accept one stamp, with limiter and blacklist calls in between |
| PacketRuns.OnceAcrossTransports | backend/app/protocols/udp_gateway.py:60 | across HTTP, WebSocket and UDP no two steps get one stamp past the guard |
| PacketHistory.MemoryIsHistory | backend/app/security/replay_guard.py:23-29 | in every mixed run a nonce key is live iff some earlier step was accepted under it at most one TTL ago |
| PacketHistory.EventIsHistory | backend/app/protocols/udp_gateway.py:48-99 | in every mixed run each UDP packet and WebSocket message adds one event, with its transport, ip, own action as endpoint and size (both fixed for a malformed one), and the action that its history calls for: distinct sessions over all UDP packets, window and earlier acceptances of its nonce key, cheat detector on the accepted messages, model on the last 50 scored events of its ip |
| PacketHistory.HistoryIsScored | backend/app/protocols/ws_gateway.py:42-47 | the feature history holds the accepted packets that the cheat detector let pass, the HTTP requests that came to the detector, and nothing else |
| PacketRuns.ReplayIsRefused | backend/app/protocols/ws_gateway.py:37-40 | after a packet got past the guard, a packet with its stamp is rate limited or blocked as a replay on either transport |
| PacketRuns.CheatsSeeAcceptedOnly | backend/app/protocols/ws_gateway.py:37-42 | the cheat detector's memory is made of accepted WebSocket messages only |
| Padding.UnpadIff | backend/app/security/token_auth.py:21-37 | unpadding accepts exactly the padded strings and returns what was padded |
| Padding.PaddedBytes | backend/app/security/token_auth.py:21 | a padded string is the string and k bytes k, with k from 1 to 16 up to the next multiple of 16 |
| BlockChaining.DecryptOfEncrypt | backend/app/security/token_auth.py:19-37 | chained decryption undoes chained encryption, for any block permutation; that the blocks are chained, `CipherBlock` and `PlainBlock` say |
| BlockChaining.EncryptOfDecrypt | backend/app/security/token_auth.py:36-37 | and the other way round |
| BlockChaining.CipherBlock | backend/app/security/token_auth.py:19-21 | cipher block i is the permutation of data block i combined with cipher block i - 1, or with the initialisation vector for i = 0 |
| BlockChaining.PlainBlock | backend/app/security/token_auth.py:35-37 | plain block i is the inverse permutation of block i combined with the same predecessor |
| Bytes.XorOfBytes | backend/app/security/token_auth.py:19-21 | combining is exclusive or, bit by bit |
| Base64Url.DecodeOfEncode | backend/app/security/token_auth.py:24-30 | the lenient decoder reads every encoding back |
| Base64Url.EncodedLetters | backend/app/security/token_auth.py:24 | every three bytes are four letters of the URL-safe alphabet, six bits each, highest first, filled up with `=` |
| Base64Url.ForeignIsSkipped | backend/app/security/token_auth.py:30 | an ASCII character of neither alphabet changes nothing, wherever it stands |
| Base64Url.StandardLetters | backend/app/security/token_auth.py:30 | `+` and `/` are read like `-` and `_` |
| Base64Url.CutIsRefused | backend/app/security/token_auth.py:30 | an encoding without its last one to three characters is refused |
| TokenAuth.DecryptedIff | backend/app/security/token_auth.py:35-37 | a payload decrypts to a text iff it is that text's payload under its own first 16 bytes |
| TokenAuth.FieldsOfRaw | backend/app/security/token_auth.py:20-39 | a printed text splits into its three fields iff neither id has a colon |
| TokenAuth.TokenLayout | backend/app/security/token_auth.py:18-25 | a printed token byte by byte: the letters of vector and chained blocks of `client:session:time` with its padding, a dot, and the signature of that payload |
| TokenAuth.RoundTrip | backend/app/security/token_auth.py:18-47 | a fresh token is read back exactly iff neither id contains a colon, and refused otherwise |
| TokenAuth.AcceptedIsPrinted | backend/app/security/token_auth.py:27-47 | any accepted token carries its payload's own signature, and a payload the printer makes from the returned ids and time |

## Left out

- Floating-point rounding and Redis number-to-string precision: times, tokens, features and coordinates are reals, and non-finite floats do not occur.
- CheatDetector.CheatDetector.CheckSpeed: compares squares instead of `hypot(dx, dy) / elapsed`, because the reals here have no square root; the comparison is the same since elapsed is positive.
- Reports.SummaryAddsUp: is about the block rate before it is rounded to two digits and the endpoint counts before the cut to the ten most common.
- Gateway.GatewayProxy.HandleRequest: runs a request at one instant of the store's clock; `Interleaving` models requests that alternate guard call by guard call, and `BanProtocol` and `ReplayProtocol` the single commands inside a guard call.
- Accounting.Conservation: is proved for atomic requests; `InterleavedAccounting` has the counters of overlapping ones, but not their log and alerts. The broadcaster, the event stream and the metric gauges are not counted.
- Blacklist.IPBlacklistManager.ListActive: keeps the store fixed from its KEYS to its last GET; a ban or unban in between is not modelled, only the passing of time.
- RuleEngine.RuleEngine.MatchRules: takes the reply to HGETALL as a listing in any order, and `fnmatch` as an arbitrary predicate.
- Base64Url.DecodeOfEncode: follows the decoder of the Python standard library, which skips characters outside the alphabet; that library is not part of the repository.
- TokenAuth.RoundTrip: takes AES, HMAC, the printing of a float and the UTF-8 check as parameters, and says nothing about cryptographic strength.
- Header and payload parsing errors, such as a non-numeric timestamp or coordinate, and Redis or HTTP connection failures.
- Model training, retraining and the ensemble vote: the anomaly verdict is an input of a request, and a function of the features for packets.
- GeoIP lookup, mTLS, Kafka, tracing, Slack and mail: only "event emitted", "counter increased", "alert sent" remain.
- The client feature store and the retrainer's list of clients, which no guard reads.
- WebSocket connection handling and the acknowledgement's contents: a message is handled on its own, an acknowledgement is its address.
- The admin API, roles, audit log, dashboard and deployment files.
