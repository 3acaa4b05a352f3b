# WinMTR's probe engine, verified

WinMTR traces a route by sending probes with every hop limit ("TTL") of a range, over and over. This project
models the engine that decides when to send which probe and what each answer means, the table of hops that the
user sees, and the text formats in which results are read and written, and proves what they are relied on for.

- **Scheduler** (`SchedulerModel`, `ProbeScheduler`, `SchedulerCensus`, `SchedulerReserve`, `SchedulerRuns`,
  `SchedulerStarts`, `SchedulerAccounts`, `SchedulerFairness`, `SchedulerPacing`, `SchedulerWake`,
  `SchedulerBackpressure`, `SchedulerLateness`, `SchedulerTimeouts`, `SchedulerExamples`): a state machine over a table
  of records (reserved, issued, timed out, cancelled, disowned by an epoch change, gone) with many numbers kept
  incrementally. The class is proved against functions on its state; the lemmas speak of all runs: any calls, in any
  order, with any times and arguments.
- **Route policy** (`RoutePolicy`, `RouteHistories`): how far along the path to probe. Its hysteresis and the ceilings
  it announces are proved against an account of the whole history.
- **Hops** (`HopModel`, `NetHost`, `HopHistories`, `HopPooling`): running statistics against batch definitions, and
  the list of responders against an abstract least-recently-used list.
- **Trace loop** (`NetTable`, `HopLedger`, `HopNews`, `TraceLoop`, `TraceMirror`, `TraceRuns`, `TraceCalls`,
  `TraceCycles`, `TraceDestinations`, `TracePasses`, `TraceResults`, `TraceEndings`):
  the trace thread's steps and its locked commits to the table, interleaved at any point with resets by the user and
  with what lookups fill in.
- **Metadata queue** (`MetadataQueue`, `MetadataOrder`): lookups of who answered, with a bounded queue, four workers,
  cancellation and a cache.
- **Text** (`Unicode`, `JsonGrammar`, `JsonLexicon`, `JsonCorrectness`, `JsonParser`, `ProviderJson`,
  `Serialization`, `EscapeRoundTrip`, `CsvExport`, `CsvReading`, `CsvColumns`): a bounded JSON reader against a
  grammar of exact spellings
  (sections 2 to 7 of RFC 8259, with the wider white space of C), and writers that a reader undoes.
- `Basics`, `Sizes` and `Decimals` hold small definitions and facts the others share.

Code that changes things step by step is modelled by classes and loops, each proved against a function on values;
what is promised about it is proved of that function. Numbers are unbounded, so that "never negative" is a theorem
and not an assumption; means are exact reals. A hash map is visited in an arbitrary order. A probe's outcome is an
arbitrary input.

Findings worth knowing:

- `start` resets the sequence number while the record table's insertion does not overwrite. Every start keeps the
  numbers true (`StartKeepsCensus`), and with nothing outstanding they stay so (`CleanStartIsSafe`). Otherwise they
  stay so exactly until a slot is granted on a key that is still in the table (`RestartedCensusIff`), which the very
  first grant does exactly if key 1 is still owed (`FirstGrantAfterStartIff`); it does happen
  (`SecondStartCollides`). A trace starts each scheduler once, so it is safe there.
- A local error of an issued probe counts in `sent` and in `local_errors`, so it spends two units of the quota. A TTL
  at its quota has taken as many slots as the quota says exactly if no such error came while it had taken fewer
  (`QuotaIsSpentIff`); with a quota of two, one probe can spend it (`ErrorSpendsTwo`).
- An expiry and a completion race only if the completion was in time (`ExpireCompleteCommuteIff`, `RaceHappens`); a
  late completion leads to the same numbers in either order (`LateCommitsAreTheSame`).
- The guards on the hop's and the transport's decrements never act, and the second session and epoch check of a
  finished lookup decides nothing (`GuardsNeverAct`, `TransportGuardsNeverAct`, `RecheckIsRedundant`).
- Replies from past the destination are not noted with the policy; noting them would make no difference, as long as
  the destination is known (`TraceFollows`, `IgnoringAgrees`).
- A lookup that finds nothing about an address already known renews what was known, for the long lifetime
  (`PublishedLasts`).
- The caps on logical probes never make a TTL of a trace wait that is on time: whatever the options, only a full
  transport does (`TraceIsNotHeldBack`), and that can happen (`TransportMakesWait`).
- A document whose escaped text is longer than 4096 bytes after decoding is rejected by the program's own reader
  although its own writer produced it (`LongTextIsLost`; `WrittenIsReadBack` gives the exact condition).

## Model

| member | source | states |
|---|---|---|
| `ProbeSchedulers.ProbeScheduler.constructor` | WinMTRProbeScheduler.h:91-94 | a new scheduler has the normalized configuration, no records, all counters zero, and is inactive |
| `ProbeSchedulers.ProbeScheduler.Start` | WinMTRProbeScheduler.h:96-103 | starts a session: the sequence returns to zero, then a restart |
| `ProbeSchedulers.ProbeScheduler.Restart` | WinMTRProbeScheduler.h:105-119 | every held slot is dropped, every other record disowned, counters zeroed except what the transport still owes, and the first sends spread over one interval |
| `ProbeSchedulers.ProbeScheduler.RetireLogicalState` | WinMTRProbeScheduler.h:465-483 | the pass over the table, in whatever order the map yields it, leaves the state in which each record has met its fate |
| `ProbeSchedulers.ProbeScheduler.Stop` | WinMTRProbeScheduler.h:121-125 | inactive, with every record disowned |
| `ProbeSchedulers.ProbeScheduler.BeginDrain` | WinMTRProbeScheduler.h:127-140 | inactive, with exactly the held slots gone |
| `ProbeSchedulers.ProbeScheduler.CancelPending` | WinMTRProbeScheduler.h:142-163 | drains, marks every issued probe cancelled, and returns each of their tokens exactly once |
| `ProbeSchedulers.ProbeScheduler.SetLastTtl` | WinMTRProbeScheduler.h:165-178 | the active range ends at the clamped TTL, and only TTLs newly added get new deadlines |
| `ProbeSchedulers.ProbeScheduler.ReserveDue` | WinMTRProbeScheduler.h:180-240 | the object and its batch are what the loop as a function gives; the loop ends |
| `ProbeSchedulers.ProbeScheduler.StepPast` | WinMTRProbeScheduler.h:208-210 | stepping by intervals until past `now` lands on the first later point of the grid |
| `ProbeSchedulers.ProbeScheduler.MarkIssued` | WinMTRProbeScheduler.h:242-260 | a held slot becomes a probe in flight with its deadline; anything else is refused and changes nothing |
| `ProbeSchedulers.ProbeScheduler.MarkIssueFailed` | WinMTRProbeScheduler.h:262-274 | a held slot is given up as a local error; anything else is refused |
| `ProbeSchedulers.ProbeScheduler.MarkCached` | WinMTRProbeScheduler.h:276-288 | a held slot is given up as cached; anything else is refused |
| `ProbeSchedulers.ProbeScheduler.Expire` | WinMTRProbeScheduler.h:290-305 | exactly the issued probes at or past their deadline time out, and the returned list names each of them once |
| `ProbeSchedulers.ProbeScheduler.Complete` | WinMTRProbeScheduler.h:307-368 | the disposition and the new state, branch by branch |
| `ProbeSchedulers.ProbeScheduler.AllQuotasReached` | WinMTRProbeScheduler.h:386-393 | true exactly if there is a quota and every active TTL has reached it |
| `ProbeSchedulers.ProbeScheduler.NextWakeAt` | WinMTRProbeScheduler.h:395-410 | the least of the next possible send and the deadlines of the probes in flight; none if there is neither |
| `SchedulerCensus.CountSwept` | WinMTRProbeScheduler.h:290-305 | a pass changes the census of each class by exactly the records that leave it, and never what the transport is counted as owing |
| `SchedulerCensus.SweepOneMore` | WinMTRProbeScheduler.h:290-304 | visiting one more record commutes with the rest of the pass, so the map's order does not matter |
| `SchedulerCensus.StartKeepsCensus` | WinMTRProbeScheduler.h:96-103 | `start` itself keeps the census, whatever the transport still owes |
| `SchedulerCensus.StartValidIff` | WinMTRProbeScheduler.h:96-103 | after `start` every key in the table is at most the sequence exactly if the transport owes nothing |
| `SchedulerCensus.GrantKeepsCensusIff` | WinMTRProbeScheduler.h:224-235 | granting keeps the census exactly if the new key is not in the table, because the insertion does not overwrite |
| `SchedulerCensus.TransportGuardsNeverAct` | WinMTRProbeScheduler.h:500-504 | whenever a completion is recognised, the counters it decrements are positive: the guards are dead |
| `SchedulerRuns.CensusAlwaysHolds` | WinMTRProbeScheduler.h:96-368 | in every state of every run, per-TTL and global reserved, in-flight and transport totals equal the number of records in those states; live records carry the current session and epoch; keys never exceed the sequence |
| `SchedulerRuns.ReserveLoopHolds` | WinMTRProbeScheduler.h:185-239 | a call holds nothing and leaves the records alone, or holds exactly one fresh slot on the next key |
| `SchedulerRuns.StepMovesForward` | WinMTRProbeScheduler.h:96-368 | a probe never returns to an earlier stage, and leaves flight exactly when a call judges it |
| `SchedulerRuns.OneVerdict` | WinMTRProbeScheduler.h:142-368 | over any run each probe is judged at most once, and exactly once if it was in flight and no longer is |
| `SchedulerRuns.SecondCompletionIsUnknown` | WinMTRProbeScheduler.h:307-334 | after a recognised completion, every later one for that token is unknown and changes nothing, whatever happened between |
| `SchedulerStarts.CleanStartIsSafe` | WinMTRProbeScheduler.h:96-103 | started with nothing outstanding, the census holds in every state of every run |
| `SchedulerStarts.RestartedCensusIff` | WinMTRProbeScheduler.h:96-368 | after any start the census holds throughout a run exactly if no call of it grants a slot on a key still in the table |
| `SchedulerStarts.FirstGrantAfterStartIff` | WinMTRProbeScheduler.h:224-235 | the first grant after a start breaks the census exactly if key 1 is still owed by the transport |
| `SchedulerExamples.SecondStartCollides` | WinMTRProbeScheduler.h:96-235 | start, reserve, issue, start, reserve: one slot is counted as held and no record holds it |
| `SchedulerAccounts.AccountsAlwaysBalance` | WinMTRProbeScheduler.h:142-368 | in every run: sent = completed + cancelled + in flight + local errors of issued probes (+ flights a stop disowned); completed = received + timed out; timed out = late completions + late completions still owed + timeouts the transport reported itself; and no TTL takes more slots than its quota |
| `SchedulerAccounts.QuotaIsSpentIff` | WinMTRProbeScheduler.h:485-491 | in every run a TTL at its quota has used at most the quota and at least the quota less the local errors of its issued probes; it has taken exactly as many slots as the quota says if and only if none of those errors came while it had taken fewer |
| `SchedulerExamples.ErrorSpendsTwo` | WinMTRProbeScheduler.h:307-368 | with a quota of two, one probe sent that ends in a local error leaves its TTL at the quota |
| `SchedulerAccounts.CapsAlwaysHold` | WinMTRProbeScheduler.h:212-222 | all four caps, on logical probes and on transport requests, per TTL and global, hold in every state of every run |
| `SchedulerAccounts.OwnCapDecides` | WinMTRProbeScheduler.h:212-214 | with a global cap covering all TTLs' own caps, a TTL is logically full exactly if its own cap is reached |
| `SchedulerFairness.LeastDueIsLeast` | WinMTRProbeScheduler.h:186-195 | the scan finds the due TTL least by deadline, then by number, or none if none is due |
| `SchedulerFairness.ReserveChooses` | WinMTRProbeScheduler.h:185-239 | the skipped TTLs are due and blocked, in order and without repetition; the granted one is the first due TTL not blocked; if nothing is granted, every due TTL was skipped |
| `SchedulerFairness.LoopSettles` | WinMTRProbeScheduler.h:198-210 | a TTL handled gets the first grid point past `now` as its deadline; every other TTL is untouched |
| `SchedulerFairness.BypassedAtMostOnce` | WinMTRProbeScheduler.h:185-239 | while a TTL is due, open and unserved, every other TTL is served at most once, and only if it was ahead of it |
| `SchedulerFairness.TurnsAreBounded` | WinMTRProbeScheduler.h:185-239 | such a TTL is passed over in fewer turns than there are active TTLs: no starvation |
| `SchedulerPacing.SpacingFits` | WinMTRProbeScheduler.h:458-463 | the spacing is the least whole number of milliseconds that fits the rate |
| `SchedulerPacing.GrantsAreSpaced` | WinMTRProbeScheduler.h:180-183 | within an epoch consecutive grants are at least one spacing apart |
| `SchedulerPacing.PacingHolds` | WinMTRProbeScheduler.h:180-183 | no window of 1000 ms within an epoch holds more than `max_global_pps` grants, for every rate |
| `SchedulerPacing.DrainedGrantsNothing` | WinMTRProbeScheduler.h:127-140 | after draining or stopping, nothing is granted in any run without a restart |
| `SchedulerPacing.VisitsStayOnGrid` | WinMTRProbeScheduler.h:198-210 | scheduled times stay on the grid of the first one, and each grid cell yields at most one slot or skip, however late the caller |
| `SchedulerPacing.CadenceHolds` | WinMTRProbeScheduler.h:198-210 | a window of width W serves an active TTL at most ceil(W / interval) + 1 times |
| `SchedulerPacing.FirstSweepIsStaggered` | WinMTRProbeScheduler.h:446-456 | first sends lie within one interval, consecutive ones floor or ceil of interval / count apart, and nothing else holds them back |
| `SchedulerPacing.AddedAreStaggered` | WinMTRProbeScheduler.h:165-178 | a higher ceiling sends the lowest TTL it adds at once and the others within one interval, floor or ceil of interval / count apart; every other TTL keeps its time, and all keep their counters |
| `SchedulerPacing.NothingIsOverdueWhenAdded` | WinMTRProbeScheduler.h:165-178 | over every run, whatever the clock does, a TTL not served since it last became active is due no earlier than that instant |
| `SchedulerPacing.ServedSinceActive` | WinMTRProbeScheduler.h:165-178 | so in every run from a start the first slot of a newly active TTL is scheduled no earlier than it became active |
| `SchedulerLateness.LatenessIsCounted` | WinMTRProbeScheduler.h:198-207 | over every run of an epoch a TTL's lateness account grows by exactly the number, the sum and the greatest of the delays with which it was served |
| `SchedulerTimeouts.TimeoutIsExact` | WinMTRProbeScheduler.h:242-368 | over every run a probe sent at t and not expired, cancelled or disowned meanwhile is accepted as what it is up to t + timeout, and late after it; one that was gets the answer that goes with what happened to it first |
| `SchedulerTimeouts.NothingIsLeft` | WinMTRProbeScheduler.h:105-163 | after draining no slot is held, after cancelling nothing is in flight either, and after stopping or restarting every record is disowned; none of the first three grants more |
| `SchedulerModel.NormalizeIsLeast` | WinMTRProbeScheduler.h:430-444 | a configuration is raised to the least normal one that covers it |
| `SchedulerWake.NothingBeforeWake` | WinMTRProbeScheduler.h:395-410 | before the wake-up instant expiring and reserving change and return nothing |
| `SchedulerWake.SomethingAtWake` | WinMTRProbeScheduler.h:395-410 | at that instant a probe expires or a TTL is served |
| `SchedulerWake.NoWakeIff` | WinMTRProbeScheduler.h:395-410 | there is no wake-up exactly if nothing is in flight and the scheduler is inactive or all quotas are reached |
| `SchedulerWake.AwaitsWake` | WinMTRProbeScheduler.h:395-410 | that nothing is to be done up to an instant is the same as that the wake-up lies after it |
| `SchedulerWake.PassMovesWakeOn` | WinMTRNet-Tracing.cpp:783-803 | after expiring and reserving at `now`, every wake-up is strictly later |
| `SchedulerWake.SettlingKeepsAwaiting` | WinMTRNet-Tracing.cpp:808-871 | settling the granted slot does not bring the wake-up back |
| `SchedulerWake.ExpireCompleteCommuteIff` | WinMTRProbeScheduler.h:290-344 | expiring and completing commute exactly unless the completion was in time and the expiry is due |
| `SchedulerWake.RaceCounts` | WinMTRProbeScheduler.h:290-344 | when they do not commute, the late completion is counted in one order and not in the other |
| `SchedulerExamples.RaceHappens` | WinMTRProbeScheduler.h:290-344 | a reachable state in which the race is on, and the two orders lead to different states |
| `SchedulerBackpressure.NoFalseBackpressure` | WinMTRProbeScheduler.h:208-222 | in every run that keeps a TTL active and on time, a cap of at least ceil(timeout / interval) leaves it room under its own cap whenever it is due |
| `SchedulerBackpressure.TraceHasRoom` | WinMTRNet-Tracing.cpp:619-622 | that is the cap of its own a trace asks for, so in its runs a TTL on time always has that room |
| `SchedulerBackpressure.LogicalCapsNeverAct` | WinMTRProbeScheduler.h:208-222 | if besides the global cap covers all TTLs, or is no tighter than the one on transport requests, a TTL on time is passed over only for a full transport |
| `SchedulerBackpressure.TraceIsNotHeldBack` | WinMTRNet-Tracing.cpp:619-639 | so it is in every trace, whatever its options: where one global cap is clamped at 4096, so is the other |
| `SchedulerExamples.TransportMakesWait` | WinMTRProbeScheduler.h:212-222 | and a full transport does make it wait: with the caps of a trace, two probes that never complete, and every turn on time, the third turn passes over the TTL |
| `RoutePolicies.RoutePolicy.constructor` | WinMTRRoutePolicy.h:19-25 | a policy starts with its normalized configuration, exploring, in initial discovery |
| `RoutePolicies.RoutePolicy.Reset` | WinMTRRoutePolicy.h:27-36 | back to initial discovery up to the last hop |
| `RoutePolicies.RoutePolicy.NoteReply` | WinMTRRoutePolicy.h:38-48 | highest and destination TTL are updated for TTLs in range |
| `RoutePolicies.RoutePolicy.CompleteCycle` | WinMTRRoutePolicy.h:50-90 | the automaton's new state and the ceiling it announces |
| `RouteModel.Normalize` | WinMTRRoutePolicy.h:97-105 | the result is a normal configuration, and a normal one is kept |
| `RouteModel.NormalizeIsLeast` | WinMTRRoutePolicy.h:97-105 | it is the least normal configuration that covers the one given, the minimum lowered to the last hop if it lies beyond |
| `RouteHistories.WindowIsRemembered` | WinMTRRoutePolicy.h:38-48 | highest and destination are the greatest TTL and the least destination heard in the current window, by an account of the calls that knows nothing of the automaton |
| `RouteHistories.StableIsAdopted` | WinMTRRoutePolicy.h:50-90 | over every history the stable ceiling is the one the closed exploration windows call for: the first at once, growth at once, a smaller one when the last k agree |
| `RouteHistories.ShrinksIff` | WinMTRRoutePolicy.h:60-76 | after discovery the ceiling falls exactly on the cycle that closes the k-th window in a row with the same smaller result |
| `RouteHistories.GrowsAtOnce` | WinMTRRoutePolicy.h:72-76 | in every history the ceiling rises exactly on a cycle that closes a window with a greater result, and to that result |
| `RouteHistories.WindowOpensIff` | WinMTRRoutePolicy.h:80-88 | over every history a cycle leaves a window open exactly on a multiple of the period at which the adopted ceiling is short of the last hop |
| `RouteHistories.CeilingIsAnnounced` | WinMTRRoutePolicy.h:50-90 | over every history a cycle that opens a window announces the adopted ceiling and the frontier TTLs, short of the last hop; one that only closes a window, the adopted ceiling; any other, nothing |
| `RouteHistories.StepInBounds` | WinMTRRoutePolicy.h:112-122 | every announced ceiling lies between the mandatory TTL and the last hop |
| `RouteHistories.AlwaysInBounds` | WinMTRRoutePolicy.h:107-122 | so does the stable ceiling, in every history |
| `NetHosts.NetHost.Reset` | WinMTRSNetHost.ixx:216-220 | a blank hop with its number |
| `NetHosts.NetHost.NoteIssued` | WinMTRSNetHost.ixx:222-234 | counts an issued probe and its lateness |
| `NetHosts.NetHost.NoteTimeout` | WinMTRSNetHost.ixx:236-243 | counts a timeout and ends a flight if there is one |
| `NetHosts.NetHost.NoteReply` | WinMTRSNetHost.ixx:245-279 | counts a reply and updates the running statistics |
| `NetHosts.NetHost.AddSample` | WinMTRSNetHost.ixx:99-123 | one assignment after another, the new statistics |
| `NetHosts.NetHost.NoteLocalError` | WinMTRSNetHost.ixx:281-287 | counts a local error, ending a flight if the probe was issued |
| `NetHosts.NetHost.NoteCancelled` | WinMTRSNetHost.ixx:289-295 | counts a cancellation |
| `NetHosts.NetHost.NoteSchedulerSkipped` | WinMTRSNetHost.ixx:297-302 | counts a slot the scheduler turned away |
| `NetHosts.NetHost.NoteCacheSkipped` | WinMTRSNetHost.ixx:304-309 | counts a slot answered from the cache |
| `NetHosts.NetHost.NoteLateCompletion` | WinMTRSNetHost.ixx:311-315 | counts a late completion |
| `NetHosts.NetHost.NotePostDestination` | WinMTRSNetHost.ixx:317-323 | counts a completion beyond the destination |
| `NetHosts.NetHost.ObserveResponder` | WinMTRSNetHost.ixx:325-365 | the responder is brought to the front, or inserted there after the oldest was evicted, and the hop shows it |
| `NetHosts.NetHost.UpdateResponder` | WinMTRSNetHost.ixx:394-435 | what is newly known is filled in, and shown if it is the front responder |
| `HopStatistics.OnlineIsBatch` | WinMTRSNetHost.ixx:257-267 | for every sequence of samples: mean times count is the sum, M2 is the sum of squared distances from the mean, and is not negative |
| `HopStatistics.ExtremesAreExact` | WinMTRSNetHost.ixx:253-258 | best and worst are the least and greatest sample, and the mean lies between |
| `HopStatistics.JitterIsExact` | WinMTRSNetHost.ixx:269-277 | for every sequence of samples the jitter is the sum over all consecutive differences of |d| / 16 decayed by 15/16 for each difference since; recent jitter is the last difference, and last the last sample |
| `HopStatistics.JitterIsBounded` | WinMTRSNetHost.ixx:269-274 | jitter and recent jitter lie between zero and worst - best |
| `ResponderRecency.EvictionDropsLast` | WinMTRSNetHost.ixx:336-343 | in a list in order of recency the minimum-sequence eviction removes the last element |
| `ResponderRecency.ListIsRecency` | WinMTRSNetHost.ixx:325-365 | over every reply history with increasing numbers the list is the most recently seen distinct addresses, at most 128, in order, each with the number of its last reply |
| `ResponderRecency.StepKeepsMirror` | WinMTRSNetHost.ixx:355-363 | the hop's address and metadata are always those of the front responder |
| `ResponderRecency.HopPoolsResponders` | WinMTRSNetHost.ixx:99-123 | while no more than 128 addresses have answered, count, total, best and worst of the hop are the pooled ones of its responders |
| `ResponderRecency.StatsAreOfTheirReplies` | WinMTRSNetHost.ixx:99-123 | in every history the hop's statistics are those of all its replies, and each listed responder's those of exactly its own replies since it last entered the list; while no more than 128 addresses have answered, that is all its replies |
| `ResponderPooling.MeanAndSpreadPool` | WinMTRSNetHost.ixx:99-123 | under the same condition as the pooled counts, the hop's mean is the weighted mean of its responders, and its M2 is the sum of theirs and of the weighted squares of their means' distances from it |
| `NetTables.NetTable.constructor` | WinMTRNet-ClassDef.ixx:90-98 | a table of different hop objects, each blank with its number |
| `NetTables.NetTable.ResetHops` | WinMTRNet-Tracing.cpp:941-960 | the next epoch, with every hop blank and the table's numbers zero |
| `NetTables.NetTable.CommitIssued` | WinMTRNet-Tracing.cpp:1027-1037 | effective only for a hop of the table in the expected epoch |
| `NetTables.NetTable.CommitTimeout` | WinMTRNet-Tracing.cpp:1009-1025 | likewise, for a timeout |
| `NetTables.NetTable.CommitLocalError` | WinMTRNet-Tracing.cpp:1039-1047 | likewise, for a local error |
| `NetTables.NetTable.CommitCancelled` | WinMTRNet-Tracing.cpp:1049-1056 | likewise, for a cancellation |
| `NetTables.NetTable.CommitSchedulerSkipped` | WinMTRNet-Tracing.cpp:1058-1066 | likewise, for a skipped slot |
| `NetTables.NetTable.CommitCacheSkipped` | WinMTRNet-Tracing.cpp:1068-1076 | likewise, for a cached slot |
| `NetTables.NetTable.CommitLateCompletion` | WinMTRNet-Tracing.cpp:1078-1086 | likewise, for a late completion |
| `NetTables.NetTable.CommitPostDestinationCompletion` | WinMTRNet-Tracing.cpp:1088-1096 | likewise, for a completion beyond the destination |
| `NetTables.NetTable.CommitReply` | WinMTRNet-Tracing.cpp:1098-1155 | a reply is recorded for a real address in the expected session and epoch, under the next reply number |
| `NetTables.NetTable.SetCompletedCycles` | WinMTRNet-Tracing.cpp:973-983 | the count of completed cycles only grows, within its epoch |
| `NetTables.NetTable.ReplyIsCached` | WinMTRNet-Tracing.cpp:985-1007 | whether the hop, and the destination at it, answered recently enough |
| `NetTables.NetTable.Inform` | WinMTRNet-Tracing.cpp:1202-1205 | each hop takes over what is known about an address; it says whether any hop lists it |
| `NetTables.NetTable.Learn` | WinMTRNet-Tracing.cpp:1334-1349 | likewise, in the expected session and epoch only; a finished lookup that a hop shows counts as a revision |
| `TableInvariants.CommitKeepsTable` | WinMTRNet-Tracing.cpp:1009-1155 | every commit keeps: completions are replies and timeouts; each responder list has distinct real addresses in order of the table's reply numbers |
| `TableInvariants.LearnKeepsTable` | WinMTRNet-Tracing.cpp:1318-1324 | so does filling in what a lookup has learned |
| `HopLedger.HopIsKept` | WinMTRNet-Tracing.cpp:1009-1155 | over every list of commits and lookups since a reset, each hop's counters and lateness are the counts, sums and extremes of the commits for it in time, its statistics and times those of its replies, and its outcome and code what the last of them says |
| `HopLedger.CachedByHistory` | WinMTRNet-Tracing.cpp:985-1007 | a hop counts as answered lately exactly if its last reply since the reset came no more than so many seconds before, and as the destination exactly if its last reply from there did |
| `HopLedger.TotalsAreKept` | WinMTRNet-Tracing.cpp:962-1155 | over every such list: the reply number counts the replies, the destination is the least TTL that answered as such, the table shows as far as a probe was sent, timed out or answered, and the greatest number of cycles published |
| `HopLedger.RevisionTells` | WinMTRNet-Tracing.cpp:962-1155 | the revision grows by one with everything a commit changes, or a finished lookup shows, and with nothing else |
| `HopNews.ReplyIsShown` | WinMTRNet-Tracing.cpp:1098-1155 | a reply committed in time puts its address in front, seen last by it under the next reply number, with each field of what the reply brought replacing what was known unless it is empty; the hop shows the same |
| `HopNews.OneIsDropped` | WinMTRSNetHost.ixx:328-349 | an address brought to the front drops another only if it is new and 128 are listed: then one not seen for longest |
| `HopNews.LearnedIsShown` | WinMTRNet-Tracing.cpp:1318-1349 | what is learned in time fills in every responder with that address on every hop, field by field, and changes nothing else of any |
| `HopNews.ResetBlanks` | WinMTRNet-Tracing.cpp:941-960 | a reset leaves every hop blank and numbered and the table's numbers zero, in the next epoch of the same session |
| `TraceMirror.ResetKeepsMirror` | WinMTRNet-Tracing.cpp:941-960 | a reset at any moment keeps mirror-or-blank |
| `TraceMirror.LearnKeepsMirror` | WinMTRNet-Tracing.cpp:1318-1324 | so does what a lookup fills in |
| `TraceMirror.CommitKeepsMirror` | WinMTRNet-Tracing.cpp:1009-1126 | so does making the next pending commit |
| `TraceMirror.FinishKeepsMirror` | WinMTRNet-Tracing.cpp:711-776 | a completion and the commits its disposition leads to balance |
| `TraceMirror.ExpireKeepsMirror` | WinMTRNet-Tracing.cpp:783-792 | so do an expiry and its commits, whichever of them lie beyond the destination |
| `TraceMirror.CancelKeepsMirror` | WinMTRNet-Tracing.cpp:794-800 | so do a cancellation and its commits |
| `TraceMirror.ReserveKeepsMirror` | WinMTRNet-Tracing.cpp:803-807 | so do a reservation and the skips it reports |
| `TraceMirror.SettleKeepsMirror` | WinMTRNet-Tracing.cpp:808-871 | so does each way of settling a slot |
| `TraceMirror.FlightToEnd` | WinMTRSNetHost.ixx:236-323 | when a commit that ends a flight is made in the scheduler's epoch, the hop has a flight to end |
| `TraceTallies.LateCommitsAreTheSame` | WinMTRNet-Tracing.cpp:761-792 | a late probe leads to the same commits whether its expiry or its completion comes first |
| `TraceRuns.MirrorOrBlank` | WinMTRNet-Tracing.cpp:698-894 | in every state of every interleaving of the trace thread with resets and lookups, either the epochs agree and each hop equals the scheduler's counters once the pending commits are booked, or they differ and every hop is blank |
| `TraceRuns.SettledHopsAgree` | WinMTRNet-Tracing.cpp:698-894 | with nothing pending and equal epochs the hop's numbers are the scheduler's |
| `TraceRuns.GuardsNeverAct` | WinMTRSNetHost.ixx:236-323 | hence the `in_flight != 0` guards never take effect in the scheduler's epoch |
| `TraceRuns.RequestsAreKnown` | WinMTRNet-Tracing.cpp:852-853 | in every state of every interleaving the request map holds exactly the records the transport owes, and whatever completes next is known |
| `TraceRuns.RequestsAreOwed` | WinMTRNet-Tracing.cpp:881 | so the two conditions for leaving the loop are one |
| `TraceRuns.ExitIsClean` | WinMTRNet-Tracing.cpp:881 | the loop is left only with every request completed, no record left and no hop in flight |
| `TraceRuns.StoppingSendsNothing` | WinMTRNet-Tracing.cpp:778-803 | from a stopping state on, over every rest of a run, the loop stays stopping, holds no slot, and sends nothing more |
| `TraceRuns.DrainCountsDown` | WinMTRNet-Tracing.cpp:711-881 | from a stopping state on requests are only taken away, one by each completion, and the loop may be left exactly when as many have completed as there were |
| `TraceEndings.EndIsReachable` | WinMTRNet-Tracing.cpp:698-894 | in every state of every interleaving there is a continuation that leaves the loop: it never gets stuck |
| `TraceRuns.MandatoryStaysActive` | WinMTRNet-Tracing.cpp:655-694 | in every state of every interleaving the mandatory TTLs of the options are active |
| `TraceCalls.TraceIsRun` | WinMTRNet-Tracing.cpp:631-894 | in every interleaving the scheduler is where one run of it from its start leads, so all that is proved of runs holds of traces |
| `TraceCalls.TraceKeepsCaps` | WinMTRNet-Tracing.cpp:631-894 | hence all four caps hold and the accounts balance in every state of every interleaving |
| `TraceCalls.TraceIsPaced` | WinMTRNet-Tracing.cpp:803-807 | and between two epochs taken over no window of a second holds more than `max_global_pps` slots granted to the loop |
| `TraceTables.TableAlwaysOk` | WinMTRNet-Tracing.cpp:941-1332 | in every state of every interleaving of commits, resets and lookups each hop's completions are its replies and timeouts, and its responders are distinct, in order of their reply numbers, and mirrored by the hop |
| `TraceCycles.CyclesAreShown` | WinMTRNet-Tracing.cpp:681-694 | in every state of every interleaving, once the pending commits are made the table shows the loop's number of completed cycles if it is in the scheduler's epoch, and otherwise zero; so with nothing pending and equal epochs the two are equal |
| `TracePasses.CyclesAreCompleted` | WinMTRNet-Tracing.cpp:681-697 | after a refresh the loop has counted n cycles exactly if it had, or every active TTL has settled n probes |
| `TracePasses.StagesAreInOrder` | WinMTRNet-Tracing.cpp:698-881 | in every interleaving each stage of a pass is followed by the next one, none left out: while the loop is not stopping every pass completes, expires, reserves, settles and refreshes |
| `TracePasses.StopsIff` | WinMTRNet-Tracing.cpp:778-782 | the loop starts to stop exactly when it is asked to or, after a refresh, when every active TTL has spent its probes |
| `TracePasses.GraceIsExact` | WinMTRNet-Tracing.cpp:778-800 | in every interleaving all probes in flight are cancelled at the first look a grace after the loop began to stop, and none before |
| `TracePasses.SettleFiles` | WinMTRNet-Tracing.cpp:808-871 | a slot is filed as cached, as a failure without a flight, or as issued, late by what it was late |
| `TraceDestinations.TraceFollows` | WinMTRNet-Tracing.cpp:711-776 | in every interleaving the policy is where all replies accepted in the epoch, past the destination or not, would have it |
| `TraceDestinations.FiledByHistory` | WinMTRNet-Tracing.cpp:716-768 | in every interleaving a completion that ends a flight is discarded exactly if its TTL lies past the mandatory TTLs and past one where the destination has answered in the current window; any other is filed as what it is |
| `TraceDestinations.ExpiredByHistory` | WinMTRNet-Tracing.cpp:783-792 | and so is each probe that expires: any other is a timeout of its hop |
| `TraceDestinations.LowRepliesCount` | WinMTRNet-Tracing.cpp:734-742 | in every interleaving a reply accepted from a hop not past the destination, committed in its epoch, adds one to that hop's replies and to no other's |
| `TraceDestinations.CeilingIsProbed` | WinMTRNet-Tracing.cpp:681-697 | in every interleaving, right after a cycle as many TTLs are active as the replies heard call for: frontier TTLs past the adopted ceiling where a window opens, the adopted ceiling where one closes |
| `TraceDestinations.DestinationBounds` | WinMTRNet-Tracing.cpp:743-747 | in every interleaving an answer of the destination, from the cache or from a hop not past it, ends the active range there or at the last mandatory TTL |
| `TraceResults.ResultIsByHistory` | WinMTRNet-Tracing.cpp:895-897 | in every interleaving the trace reports the destination exactly if one of the epoch's replies was from there, some reply if there was any, and none otherwise |
| `MetadataQueue.LookupsAreAccounted` | WinMTRNet-Tracing.cpp:1163-1332 | in every interleaving of asking, queueing, four workers and resets, each lookup in flight has exactly one job of the current generation; queue and cache keep to their bounds |
| `MetadataQueue.QuietMeansNoneInFlight` | WinMTRNet-Tracing.cpp:541-561 | when the queue is empty and every thread free, no lookup is marked in flight |
| `MetadataQueue.NoTwoHandsShare` | WinMTRNet-Tracing.cpp:1206-1208 | no two threads hold the same live lookup |
| `MetadataQueue.RecheckIsRedundant` | WinMTRNet-Tracing.cpp:1273-1277 | a job is cancelled exactly if its session or epoch has passed, so the second check decides nothing |
| `MetadataQueue.PublishedIfCurrent` | WinMTRNet-Tracing.cpp:1271-1308 | a finished lookup is cached, merged with what was known, exactly if it is for the current session and epoch; nothing else changes but the eviction of one of the oldest entries |
| `MetadataQueue.PublishedLasts` | WinMTRNet-Tracing.cpp:563-585 | what was asked for is fresh for exactly the lifetime of what is known then, found now or before, names and networks alike; what was not asked for stays as fresh as it was |
| `MetadataQueue.NotAskedAgain` | WinMTRNet-Tracing.cpp:1181-1210 | while even a failure lasts, and its entry is still cached, what a lookup was for does not start another one |
| `MetadataQueue.NamesAreDistinct` | WinMTRNet-Tracing.cpp:1171-1172 | different lookups have different names, whatever the address text |
| `MetadataOrder.StartedIff` | WinMTRNet-Tracing.cpp:1163-1220 | a lookup is started exactly if it is for a real address in the present session and epoch, asks for something not in the cache or no longer good, and is not under way |
| `MetadataOrder.FirstComeFirstServed` | WinMTRNet-Tracing.cpp:541-553 | in every interleaving the jobs taken and those still queued are the jobs entered, in order, since the last reset |
| `MetadataOrder.EntersIff` | WinMTRNet-Tracing.cpp:1212-1233 | a job enters the queue exactly if fewer than 1024 are waiting, and is dropped otherwise |
| `MetadataOrder.ExecutedIff` | WinMTRNet-Tracing.cpp:554-560 | a worker looks up what it has taken exactly if that is for the present session and epoch |
| `MetadataOrder.ResetCancelsAll` | WinMTRNet-Tracing.cpp:941-960 | a reset empties the queue and leaves nothing under way: whatever a thread still holds is for an epoch gone by |
| `JsonLexicon.DigitsAreRead` | WinMTRJson.h:45-51 | each hexadecimal digit, in either case, is read as its value, and nothing else is read as a digit |
| `JsonLexicon.UnitIsRead` | WinMTRJson.h:53-63 | every spelling of a unit, in any mixture of cases, is a character exactly if the unit is no surrogate, and means its UTF-8 form |
| `JsonLexicon.PairIsRead` | WinMTRJson.h:111-122 | the spellings of a surrogate pair, in any mixture of cases, mean the UTF-8 form of its code point |
| `JsonLexicon.FourDigitsAreSpelled` | WinMTRJson.h:53-63 | whatever is taken for four digits is such a spelling of its value |
| `JsonLexicon.ShortIsRead` | WinMTRJson.h:101-110 | each short escape means its character |
| `JsonLexicon.OnlyShortsAreRead` | WinMTRJson.h:101-110 | and there are no others |
| `JsonLexicon.SpacesAreRead` | WinMTRJson.h:29-35 | white space is the six characters, digits the ten |
| `JsonLexicon.NestedIff` | WinMTRJson.h:138-185 | values may lie 64 deep and no deeper |
| `JsonParsers.StringFieldParser.UnicodeEscape` | WinMTRJson.h:53-63 | four hexadecimal digits are read, or it fails, exactly as the grammar says, with their value |
| `JsonParsers.StringFieldParser.AppendUtf8` | WinMTRJson.h:65-85 | the bytes appended are the UTF-8 form of section 3 of RFC 3629 |
| `JsonParsers.StringFieldParser.ParseString` | WinMTRJson.h:87-136 | it succeeds exactly where the grammar has a string of at most 4096 bytes, with its meaning, and stops after it |
| `JsonParsers.StringFieldParser.ParseNumber` | WinMTRJson.h:187-215 | it succeeds exactly where the grammar has a number, and stops after it |
| `JsonParsers.StringFieldParser.ParseValue` | WinMTRJson.h:224-238 | likewise for any value, within the depth; the result is not touched |
| `JsonParsers.StringFieldParser.ParseObject` | WinMTRJson.h:138-166 | likewise for an object with distinct keys; the outermost leaves the string its wanted member carries |
| `JsonParsers.StringFieldParser.ParseArray` | WinMTRJson.h:168-185 | likewise for an array |
| `JsonParsers.StringFieldParser.Parse` | WinMTRJson.h:17-22 | the whole input: size, trailing text, and the field |
| `JsonParsers.GetString` | WinMTRJson.h:246-250 | the reader returns what the reading function defines, for every input; it ends because the cursor moves |
| `JsonParsers.AnswerKept` | WinMTRJson.h:147-165 | one round of the member loop keeps what the object will answer |
| `JsonCorrectness.DocumentSound` | WinMTRJson.h:17-22 | what is accepted is a document of the grammar, spelled exactly so |
| `JsonCorrectness.DocumentComplete` | WinMTRJson.h:17-22 | every document within the bounds is accepted, with the very tree it was printed from |
| `JsonCorrectness.GetStringExact` | WinMTRJson.h:246-250 | `get_string` yields v exactly if the text spells a document whose root member has that key and is the string v |
| `JsonCorrectness.LookupExact` | WinMTRJson.h:149-158 | keys being distinct, the member looked up is the only one that carries the key |
| `JsonCorrectness.OneReading` | WinMTRJson.h:138-238 | the grammar is unambiguous |
| `ProviderJson.ParseIpinfo` | WinMTRProviderJson.h:22-32 | all fields are those of one document, or the text is none and there are no fields |
| `ProviderJson.ParseIpapi` | WinMTRProviderJson.h:34-45 | likewise, under the second provider's names |
| `Unicode.Utf8RoundTrip` | WinMTRJson.h:65-85 | decoding undoes the encoding of each code point, whatever follows |
| `Unicode.Utf8AllRoundTrip` | WinMTRJson.h:65-85 | and of a text |
| `Unicode.Utf16AllRoundTrip` | WinMTRSerialization.h:36-44 | well-formed UTF-16 reads back as its code points |
| `Serialization.JsonEscape` | WinMTRSerialization.h:31-64 | the loop writes the escaped text |
| `Serialization.EscapedIff` | WinMTRSerialization.h:47-61 | exactly quotes, backslashes and control characters are escaped |
| `Serialization.CsvCell` | WinMTRSerialization.h:10-29 | the loop writes the cell |
| `EscapeRoundTrip.WrittenIsReadBack` | WinMTRSerialization.h:31-64 | escaped, quoted, encoded as UTF-8 and read anywhere in a document, every wide text comes back as its UTF-8 form, unpaired surrogates as U+FFFD, exactly if that is at most 4096 bytes |
| `EscapeRoundTrip.LongTextIsLost` | WinMTRSerialization.h:31-64 | 4097 plain letters are written and not read back |
| `EscapeRoundTrip.ReadBackIsExact` | WinMTRSerialization.h:31-64 | what is read back decodes to the code points of the text |
| `EscapeRoundTrip.WellFormedSurvives` | WinMTRSerialization.h:31-64 | well-formed text comes back as its own code points |
| `EscapeRoundTrip.WriteAndRead` | WinMTRJson.h:87-136 | writer and reader run one after the other give that result |
| `CsvDocuments.MakeRows` | WinMTRDialog-exporter.cpp:122-168 | a row per hop, then one per responder after the first |
| `CsvDocuments.SerializeCsv` | WinMTRDialog-exporter.cpp:249-274 | the loops write the document, cell by cell |
| `CsvReading.FieldReadBack` | WinMTRSerialization.h:10-29 | a cell reads back as its value, quotes, commas and line breaks included |
| `CsvReading.RecordReadBack` | WinMTRDialog-exporter.cpp:260-271 | a line reads back as its values |
| `CsvReading.DocumentReadBack` | WinMTRDialog-exporter.cpp:249-274 | reading the document by section 2 of RFC 4180 gives the header record and one record per row, for all contents |
| `CsvReading.RecordIsFull` | WinMTRDialog-exporter.cpp:260-270 | a record has 21 fields, the last 14 the row's cells with formulas made harmless |
| `CsvReading.RowsCount` | WinMTRDialog-exporter.cpp:146-165 | there is a row per hop and one per responder but the first |
| `CsvReading.ProtectedIsHarmless` | WinMTRSerialization.h:14-20 | no protected cell starts as a formula does; exactly those that would get an apostrophe |
| `CsvReading.QuotedIff` | WinMTRSerialization.h:21-28 | a cell is quoted exactly if it has a comma, a quote or a line break |
| `CsvColumns.FileReadBack` | WinMTRDialog-exporter.cpp:122-168 | from the exported file every hop, and every further responder, is read back under each column: its numbers as numbers, its texts as texts, at the record where it stands in the trace |
| `CsvReading.ExportAndRead` | WinMTRDialog-exporter.cpp:249-274 | writer and reader run one after the other give those records |

## Left out

- Machine integers: counters, times and sequence numbers are unbounded here, so wrap-around after 2^32 or 2^64 steps, and a deadline equal to the greatest 64-bit time, which the scan for the oldest deadline passes over, are not modelled. Configuration values are clamped by the options provider.
- Floating point: means and jitter are exact reals, and the square root that turns M2 into a deviation is not taken.
- The operating system: sending and parsing ICMP, the thread pool, WinHTTP, name resolution, registry, clipboard and files. What a probe or a lookup yields is an arbitrary input.
- TraceLoop.Enabled: a completion of kind reply carries a real address, which the callback makes sure of (WinMTRNet-Tracing.cpp:436-438); anything else about it is arbitrary.
- Blocking: condition variables, stop tokens as wake-ups, and the waits of the trace loop. The model has the steps between waits, in any number.
- Exceptions and allocation failure: only a failed issue is modelled, with any error code.
- TraceLoop.Do: one action per scheduler call and one per locked commit, as functions on values; the C++ loop that performs them, with its locks and shared requests, is not modelled as an object.
- MetadataQueue.Do: critical sections as functions on values. A reset is one step, which is what the surrounding lock makes of it.
- MetadataQueue.PublishedIfCurrent: what a lookup finds is an arbitrary input, public and private addresses alike.
- NetHosts.NetHost.NoteReply: the deviation, a square root of the spread, is not kept.
- NetHosts.NetHost.AddSample: likewise.
- NetTables.NetTable.CommitReply: what the lookup cache has to show for the address is an input, and so is whether a lookup is then asked for; the cache and its freshness are part of `MetadataQueue`.
- TraceRuns.MirrorOrBlank: lateness counters are not part of the agreement, because the scheduler counts skipped and cached slots in them and hops only issued ones.
- TraceRuns.GuardsNeverAct: speaks of commits in the scheduler's epoch; a commit decided for an older epoch does not reach the hop at all.
- SchedulerBackpressure.NoFalseBackpressure: speaks of a TTL's own cap; `LogicalCapsNeverAct` covers the global one.
- SchedulerBackpressure.TraceIsNotHeldBack: speaks of turns that find the TTL on time; that the loop's waits end in time is not modelled.
- ResponderRecency.HopPoolsResponders: stops at the first eviction, because an evicted responder takes its samples along; the same goes for `MeanAndSpreadPool`.
- JsonGrammar.IsSpace: white space is that of the "C" locale.
- JsonParsers.StringFieldParser.Literal: a helper for the three words, part of what `ParseValue` states.
- CsvDocuments.MakeRows: percentages, means, deviations and times arrive as formatted text, and names as the text shown for them; numbers are written without digit grouping.
- The JSON export document around the escaped texts, HTML and plain-text exports: the former is a fixed frame, the latter are not read back by anything.
- Provider fallback, back-off timers, address-prefix tables, command-line numbers, payload generation, the responder hash and time stamps: little depends on them here.
- The user interface.
