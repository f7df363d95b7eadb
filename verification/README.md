# Verified model of the control plane

A Dafny model of the parts of the control plane whose behaviour is a protocol, a codec or a
machine with history, with proofs of what they promise. `dafny verify dfyconfig.toml` checks
everything.

Times are integers in the unit the program uses (milliseconds, or seconds for the webhook
back-off). The database, the agents, Stripe and the network are steps with any outcome they can
have: a success, a refusal, an error. Clocks, host lists, plan caps, query answers among ties and
the outcomes of remote calls are parameters.

## How it is built

**Environment scheduler.** `EnvironmentProtocol` is a transition system with one event for each SQL
statement, transaction or agent call of `tryAssign`, `releaseEnvironment` and
`reclaimStaleAssignments`; any interleaving of any number of calls is a sequence of events.
`EnvironmentSafety` has the inductive invariants, `EnvironmentTheorems` what follows for every run,
`EnvironmentRuns` the runs that reach the states where a promise fails.
`Scheduler` has the calls as they are written, as methods over mutable tables with other calls
running at every await, each proved to continue the run by its own statements and the others'
events only; `WholeCalls` says what each does from end to end when undisturbed. `HostLedger` and
`HostConservation` are the host accounting, over all interleavings and over whole calls.
`Placement` is host ranking.

**Status history.** `StatusLog` (the transition log), `StatusHistory` (its decoding into spans),
`Intervals` (the union measure), `StatusBars` (day bars and uptime), `StatusUptime` (the page from
its polls and posts to its bars and uptime), `StatusGroups` (grouping), `StatusLevels`.

**Codecs and classifiers.** `Bits` (32-bit operators on unsigned words), `Base32Text` (the
cleaning of its input) and `Base32`, `Ipv4Guard`,
`Ipv6Text`, `Ipv6Guard`, `AuditCsv`.

**Machines over whole runs.** `TunnelSpec` and `TunnelRelay`, `WebhookSpec`, `WebhookTheorems` and
`WebhookDelivery`, `AlertThrottle` and `ErrorTracking`, `RateLimiter`, `SeatSpec`, `SeatSync` and
`SeatConvergence`. Each has a machine with its history, theorems about every run, and a class that
carries out the statements in the program's own form.

## Where the code and its words differ

The model follows the code.

- The retry ladder is documented as about nine hours. Six attempts have five waits, which add up to
  9370 s; the sixth entry of the table is never used (`BackoffIndexInRange`, `LadderSpans`).
- The sweep of `unionLength` starts from a cursor at -1, so it counts exactly only when no non-empty
  interval starts earlier than -1 (`MeasureIsExact` gives the exact condition).
- `start_failed` is documented as recorded exactly once. It stays exact along a run if and only if
  every guarded UPDATE to 'failed' hits its row and no process dies, or gets a database error,
  between that UPDATE and the INSERT (`FailuresExactIff`, `FailuresStayExact`). Both other sides are
  reached: an event for a released row (`StartFailedCanMiscount`), and a failed row whose event
  never comes (`StartFailedCanBeLost`).
- A VM is nobody's if and only if a step forgot it and none deleted it. The forgetting steps are the
  death of the process that holds it between createVm and its UPDATE (`CrashOrphansVm`), a database
  error on that UPDATE (`AssignErrorOrphansVm`, reached by `AssignErrorCanHappen`), and a lost host.
- A release that dies between its deleteVm and its transaction leaves an assigned row without a VM
  (`HalfReleasedIff`, reached by `HalfReleaseCanHappen`).
- Host accounting is exact along a run of whole calls if and only if no accounting transaction rolls
  back behind the assignment of a non-empty environment on an existing host (`HostsConservedIff`).
  Such a rollback is caught with the host's other errors and leaves the row assigned and its host
  uncharged: one undisturbed request reaches that state (`RollbackDrifts`). Over interleavings a
  host's reservations stay equal to its assigned rows whose start is on record if and only if no
  step moves them in one of three ways (`BalancedIff`, `DriftingSteps`): an accounting that a release
  overtook (reached by `BooksCanDrift`), the release of an assigned row whose start is not on record
  (reached by `UnaccountedReleaseDrifts`), and a second release of one row.
- The 64:ff9b test is documented as the /96 of NAT64; the code refuses the whole /32.
- "::" may stand for no group at all: eight groups around it are accepted.
- A strike count is documented as consecutive failures. It is that number if and only if the
  strikes lost, because a tick broke off before booking them, are as many as those kept past an
  answer and those booked across a re-enabling (`StrikesAreTrailingRun`); each of the three is
  reached (`StrikeCanBeLost`, `ClearCanBeLost`, `LateStrikeCanHappen`).
- An endpoint is meant to be switched off at ten strikes. One that is enabled between ticks has ten
  if and only if a tick broke off between the tenth strike and the switch-off
  (`EnabledWithTenStrikesIff`, reached by `SwitchOffCanBeLost`).
- The hourly alert ceiling is documented as twelve alerts in any hour. When checks lag their claims
  by at most `lag`, the windows that never hold more than twelve alerts are exactly those no wider
  than an hour less `lag`, by the time of the claims and by the time of sending
  (`TwelvePerWindowIff`): twelve in any rolling hour is promised only if no check lags at all
  (`TwelvePerRollingHourIff`), and at a lag of an hour there is no bound (`LateChecksExceed`). A
  failing count query loses the alert although its claim stands (`LostAlertStaysLost`).
- Two fixed windows of sixty admit at most 119, not 120, requests in sixty seconds, because the
  request that opens a window cannot share them with the next window (`AtMost119PerMinute`,
  `AtMost119IsTight`).
- The reconcile query compares with -1 where the drift is computed with 0, and does not look at the
  Stripe id, so two kinds of rows are candidates for ever (`CandidatesAreTheDrifted`,
  `ExtraCandidatesStay`); fifty never-synced ones starve every other team (`FiftyStuckStarve`).

## Model

| member | source | states |
|---|---|---|
| EnvironmentSafety.StatusEdges | src/scheduler/allocator.ts:107-308 | every statement moves every row along an edge of the status graph only, keeping its team, its recorded VM and its refusal stamp |
| EnvironmentSafety.PlacementsStay | src/scheduler/allocator.ts:233-240 | a recorded VM is never overwritten, whatever runs alongside |
| EnvironmentSafety.HeldApartKept | src/scheduler/allocator.ts:228-250 | no step lets two live calls, or a call and a row, have one VM |
| EnvironmentSafety.NoneForgottenKept | src/scheduler/allocator.ts:228-250 | every step leaves each created VM held, on an assigned row, or gone |
| EnvironmentSafety.TornOnlyByReleaseKept | src/scheduler/allocator.ts:366-393 | an assigned row has a deleted VM only while some release is between its deleteVm and its transaction, or after one died there |
| EnvironmentSafety.InvKept | src/scheduler/allocator.ts:195-410 | shape, VM ledger, start and notice invariants are kept by every event of every call |
| EnvironmentSafety.ReachableInv | src/scheduler/allocator.ts:195-410 | they hold in every state reached by any interleaving, crashes included |
| EnvironmentTheorems.CountRisesOnlyWithinCap | src/scheduler/allocator.ts:68-112 | whatever cap each call was given, a step that raises the number of a team's rows that are assigning or assigned leaves it at or below that cap |
| EnvironmentTheorems.CapNeverExceeded | src/scheduler/allocator.ts:56-60 | in every interleaving a team never has more rows that are assigning or assigned than its cap |
| EnvironmentTheorems.ReserveClaimsIff | src/scheduler/allocator.ts:68-112 | the locked transaction claims a queued row exactly when the team has fewer such rows than its cap, stamps a first refusal exactly when it is full with a cap above zero, and otherwise changes nothing |
| EnvironmentTheorems.VmLedger | src/scheduler/allocator.ts:228-250 | in every reachable state each created VM is exactly one of held by a live call, stranded with a dead one, running on a row, or gone, with one holder and one row at most |
| EnvironmentTheorems.NoVmIsOrphaned | src/scheduler/allocator.ts:204-210 | without crashes, database errors and lost hosts, each VM is exactly one of held by a live call, on an assigned row, or handed to deleteVm, and an assigned row whose VM is deleted has a live release |
| EnvironmentTheorems.OrphansAreTheForgotten | src/scheduler/allocator.ts:228-286 | after any run, a created VM is in no live call's hands, not running on a row and never deleted if and only if a step of the run forgot it (the death of the call holding it, an errored assign UPDATE, a lost host) and none deleted it |
| EnvironmentRuns.CrashOrphansVm | src/scheduler/allocator.ts:231-241 | a process that dies right after createVm, on the very first request, leaves such a VM |
| EnvironmentTheorems.HalfReleasedIff | src/scheduler/allocator.ts:366-393 | an assigned row that no live release is tearing down has a VM that is gone if and only if some release of it died between its deleteVm and its transaction |
| EnvironmentRuns.HalfReleaseCanHappen | src/scheduler/allocator.ts:366-393 | one request and one dying release reach such a row |
| EnvironmentTheorems.AssignErrorOrphansVm | src/scheduler/allocator.ts:270-286 | when the assign UPDATE errors, its running VM is held by nobody and never deleted |
| EnvironmentRuns.AssignErrorCanHappen | src/scheduler/allocator.ts:231-240 | the very first request can reach that state |
| EnvironmentTheorems.TerminalRowsStay | src/scheduler/allocator.ts:297-308 | along every run failed and released rows never change status, and an assigned row only becomes released |
| EnvironmentTheorems.OneStartPerRequest | src/scheduler/allocator.ts:251-256 | at most one start event per request, and only for one that got a VM |
| EnvironmentTheorems.OneLimitNoticePerRequest | src/scheduler/allocator.ts:95-120 | the limit webhook fires at most once per request, never for a cap of zero |
| EnvironmentTheorems.ReclaimIsExact | src/scheduler/allocator.ts:320-326 | the sweep re-queues exactly the claims older than the cutoff, and every claim has a time to compare; the claim time goes with it |
| EnvironmentTheorems.NoRequestStuck | src/scheduler/allocator.ts:312-326 | however many processes died, one late enough sweep leaves no row in 'assigning' |
| EnvironmentTheorems.GivesUpAtFive | src/scheduler/allocator.ts:291-308 | a round without a VM is given up exactly at the fifth counted attempt |
| EnvironmentTheorems.FailuresExactIff | src/scheduler/allocator.ts:295-306 | failed requests and start_failed events stay one to one across a step if and only if it is neither a guarded UPDATE that misses its row nor the death of a call between that UPDATE and its INSERT |
| EnvironmentTheorems.FailuresStayExact | src/scheduler/allocator.ts:295-306 | all along an interleaving each failed request has one failure event, recorded or about to be by a live call, and no other request has any, if and only if no step is of those two kinds |
| EnvironmentTheorems.SettledFailures | src/scheduler/allocator.ts:295-306 | when no live call is left, that is exactly one event for each failed request |
| EnvironmentTheorems.LostEventStaysLost | src/scheduler/allocator.ts:295-306 | a failed request whose recorder died never gets its event, whatever runs afterwards |
| EnvironmentRuns.StartFailedCanBeLost | src/scheduler/allocator.ts:297-301 | five failing rounds and a death before the INSERT reach that state |
| EnvironmentRuns.StartFailedCanMiscount | src/scheduler/allocator.ts:297-304 | a request released while its fifth attempt fails is reported as failed and is released |
| Scheduler.Allocator.ReserveSlot | src/scheduler/allocator.ts:61-122 | the locked transaction grants exactly when the rows of the team that are assigning or assigned are below the cap and the row is queued, and reports a first refusal exactly once per row |
| Scheduler.Allocator.CommitAssignment | src/scheduler/allocator.ts:233-241 | the guarded UPDATE records the VM exactly when the row is still claimed |
| Scheduler.Allocator.MarkRowFailed | src/scheduler/allocator.ts:297-300 | the row fails only if it is still claimed |
| Scheduler.Allocator.GiveBack | src/scheduler/allocator.ts:307-308 | the claim is given back only if the row is still claimed |
| Scheduler.Allocator.TryAssign | src/scheduler/allocator.ts:195-310 | under any interference it continues the run by its own statements and the schedule's events, with an answer true of the tables; undisturbed it is AssignsAlone for every answer of the agents and the database, accounting rollbacks included |
| Scheduler.Allocator.RequestEnvironment | src/scheduler/allocator.ts:330-347 | it continues the run by the insert, its own call and the schedule's events; the row exists whatever becomes of the try, which starts from a queued row |
| Scheduler.Allocator.ReleaseEnvironment | src/scheduler/allocator.ts:349-410 | it continues the run by its own statements and the schedule's events; undisturbed, it releases exactly the team's live row, gives back what assignment added and deletes its VM |
| Scheduler.Allocator.ReclaimStaleAssignments | src/scheduler/allocator.ts:320-326 | exactly the stale claims become queued |
| Scheduler.Allocator.ProcessQueue | src/scheduler/queueWorker.ts:10-42 | a tick is the sweep, any events of others, and one tryAssign for each of the then oldest queued rows, in order, each continuing the run by its own statements and its schedule |
| WholeCalls.SelectQueued | src/scheduler/queueWorker.ts:13-23 | the batch is at most twenty queued rows, oldest first, none left out for a later one |
| WholeCalls.BatchIsOldest | src/scheduler/queueWorker.ts:13-23 | the tick's batch is of at most twenty rows, all queued, each requested no later than any queued row left out |
| WholeCalls.EarlyRowsAreTried | src/scheduler/queueWorker.ts:13-23 | a queued row with fewer than twenty others ahead of it is in the tick's batch |
| HostLedger.BalancedIff | src/scheduler/allocator.ts:257-263 | over all interleavings, reservations stay equal to the assigned rows whose start is on record at a step if and only if the step keeps the books |
| HostLedger.DriftingSteps | src/scheduler/allocator.ts:257-404 | the steps that do not are exactly those that move a size for an accounting a release overtook, for a release of an assigned row whose start is not on record, or for a second release of a row |
| HostLedger.BooksStayBalanced | src/scheduler/allocator.ts:251-264 | all along an interleaving every host's reservations are the sum over its assigned rows whose start is on record, if and only if every step keeps the books |
| EnvironmentRuns.BooksCanDrift | src/scheduler/allocator.ts:257-263 | a release between the assign UPDATE and the accounting transaction leaves the host charged for a released row |
| EnvironmentRuns.UnaccountedReleaseDrifts | src/scheduler/allocator.ts:389-404 | the only release of a row whose call died before its accounting takes away the reservation of another row |
| HostLedger.ClampNeverActs | src/scheduler/allocator.ts:399-404 | releasing an accounted row, GREATEST(0, ...) never acts and the release undoes the assignment |
| HostLedger.AccountAdds | src/scheduler/allocator.ts:260-263 | the accounting transaction adds exactly its own row to its host's account, if the row is still assigned |
| HostLedger.ReleaseTakes | src/scheduler/allocator.ts:389-404 | the release transaction takes exactly its own row off its host's account, if it was on it |
| HostLedger.ColumnsMove | src/scheduler/allocator.ts:260-263 | accounting adds the plan's CPU and RAM to its own host only, a release takes the stored ones off its own host only, never below zero |
| HostConservation.WholeCallConservesIff | src/scheduler/allocator.ts:251-286 | a whole call keeps each host's reservations equal to the sizes stored on its assigned rows if and only if it is not a try whose accounting transaction rolls back behind a non-empty assignment |
| HostConservation.HostsConservedIff | src/scheduler/allocator.ts:251-286 | they are equal all along a run of whole calls if and only if none of its calls is such a try |
| HostConservation.HostsConserved | src/scheduler/allocator.ts:399-404 | so they are equal after any run of whole calls without an accounting rollback, whatever the plans were |
| EnvironmentRuns.RollbackDrifts | src/scheduler/allocator.ts:251-286 | one undisturbed request whose accounting rolls back ends assigned on a host that is not charged |
| Placement.ByLoadOrders | src/scheduler/placement.ts:107-110 | bucket, reserved CPU and name order hosts totally, strictly when names are unique |
| Placement.RankedAreTheFitting | src/scheduler/placement.ts:100-112 | the ranking is sorted and holds exactly the fitting hosts, each as often as given |
| Placement.RankedEmptiestFirst | src/scheduler/placement.ts:78-112 | of two ranked hosts the first is in a lower five-point step of load, or in the same with more free CPU, or equal in both with its name first |
| Placement.ScoreIsLoad | src/scheduler/placement.ts:39-77 | a host's load is its measurement if that is at most two minutes old, else its reserved share, kept within 0 to 100, and 100 when neither is a number |
| Placement.RankingIgnoresInputOrder | src/scheduler/placement.ts:94-99 | with unique names every permutation of the hosts ranks the same |
| Placement.AnySortGivesTheRanking | src/scheduler/placement.ts:107-111 | any sorted arrangement of the fitting hosts is the ranking |
| Placement.StaleMeasurementsNeverMatter | src/scheduler/placement.ts:44-77 | replacing stale or missing measurements by any others that are not fresh leaves every host in its place |
| StatusLevels.WorstIsLeastBound | src/lib/status.ts:23-25 | the worst of a list bounds every level in it and is one of them, or operational |
| StatusLevels.WorstInOrder | src/lib/status.ts:7-25 | a list's worst is a level exactly when it holds it and none after it in the order operational, maintenance, degraded, partial outage, major outage |
| StatusLog.Recorder.RecordComponentStatuses | src/lib/status.ts:65-88 | a poll appends one row, with its own time stamp, for each component whose status changed, and none for an unlogged operational one |
| StatusLog.LogIsChangesInOrder | src/lib/status.ts:76-86 | over any polls that do not overlap, adjacent events of a component differ, the first is an impairment, and rows are in time order |
| StatusLog.LastIsNewest | src/lib/status.ts:72-75 | the row with the newest time is the one appended last |
| StatusLog.LogRoundTrip | src/lib/status.ts:51-88 | for every component at every instant, the log read back gives what the polls until then last observed |
| StatusHistory.FromPostPointwise | src/lib/status.ts:223-229 | a post's clamped span covers an instant exactly when the post is active then |
| StatusHistory.SpansOfEvents | src/lib/status.ts:238-247 | the loop builds one clamped span for each impaired event, until the next event or now |
| StatusHistory.SpansPointwise | src/lib/status.ts:230-247 | inside the window and before now, a component's spans carry a level exactly when its last event at or before that instant is that level |
| StatusHistory.BuildImpairments | src/lib/status.ts:220-247 | both sources, flattened in order |
| StatusHistory.ImpairmentsAreExact | src/lib/status.ts:220-247 | at every instant of the window before now, for every component and level, the flat list says so exactly when an active post or the log does |
| Intervals.UnionLength | src/lib/status.ts:165-181 | for every list, the sweep counts the instants from -1 on that some interval covers |
| Intervals.MeasureIsExact | src/lib/status.ts:161-169 | that is all covered instants if and only if no non-empty interval starts before -1 |
| Intervals.MeasureIgnoresOrder | src/lib/status.ts:166 | the result is the same for every order of the input |
| Intervals.MeasureGrows | src/lib/status.ts:161-164 | adding intervals never shrinks it |
| Intervals.MeasureAtMostSum | src/lib/status.ts:161-164 | it is at most the sum of the lengths |
| StatusBars.ComponentHistory | src/lib/status.ts:252-278 | each day's bar is the worst overlapping impairment, today's with the live status, and uptime is the share of the instants passed that the union of downtime leaves |
| StatusBars.GroupBarIsWorst | src/lib/status.ts:353-360 | on every day a group's bar is the worst of its members' bars, today included |
| StatusBars.GroupDownWhenAnyMemberIs | src/lib/status.ts:184-187 | a group is down at an instant exactly when some member is |
| StatusBars.GroupUptime | src/lib/status.ts:271-277 | a group's uptime is at most each member's, and its loss at most the sum of theirs |
| StatusBars.UptimeNeedsNoClamp | src/lib/status.ts:275-276 | with no timestamp in the future, uptime lies in 0 to 100 without the clamp acting |
| StatusBars.UptimeIsShare | src/lib/status.ts:271-277 | uptime is the share, in percent, of the instants of the window already passed that were not down; 100 before any has passed, 0 when more are down than have passed |
| StatusBars.BuiltImpairmentsAreBounded | src/lib/status.ts:223-247 | impairments built from such timestamps lie in the window and not in the future |
| StatusBars.LostUptimeShows | src/lib/status.ts:257-276 | an uptime below 100 shows as a day that is at least a partial outage |
| StatusUptime.DowntimeIsOutageTime | src/lib/status.ts:165-274 | a component's or group's downtime is the number of instants from -1 on, in the window and before now, at which a poll or an active post has one of its components in a partial or major outage |
| StatusUptime.BarIsWorstOfDay | src/lib/status.ts:250-269 | each day's bar is the worst level observed or posted at some instant of that day, or live today |
| StatusUptime.ComponentHistories | src/lib/status.ts:183-281 | from the rows of the two queries, every entry gets those bars, and as uptime the share in percent of the instants passed that were not in outage |
| StatusUptime.AlwaysDownIsZero | src/lib/status.ts:271-277 | a component in outage at every instant that has passed has uptime 0 |
| StatusUptime.PostSaysLevel | src/lib/status.ts:134-142 | maintenance posts say maintenance, incidents degraded, partial or major outage by their impact, announcements nothing |
| StatusGroups.AssembleNodes | src/lib/status.ts:324-342 | grouping shows every leaf exactly once, each group with the worst of its members, and the same overall worst; nodes stand in the order of the leaves that open them |
| StatusGroups.SameWorst | src/lib/status.ts:374-396 | any such arrangement has the overall worst of the leaves |
| Base32.Encode | src/lib/totp.ts:18-32 | the text spells the bytes' bit string, zero-padded to five bits, with ceil(8n/5) characters, although the accumulator wraps |
| Base32.Decode | src/lib/totp.ts:34-50 | in Unicode upper case, unpadded and stripped of spaces, the input gives its bits cut to whole bytes, or the error when a character is foreign |
| Base32.IndicesAre | src/lib/totp.ts:15 | capital letters stand for 0 to 25, the digits 2 to 7 for 26 to 31, and no other character counts |
| Base32Text.CaseIsIgnored | src/lib/totp.ts:35 | the case of a letter makes no difference |
| Base32Text.PaddingIsIgnored | src/lib/totp.ts:35 | nor does padding at the end |
| Base32Text.SpaceIsIgnored | src/lib/totp.ts:35 | nor does white space before the last character that is no padding |
| Base32.EncodingIsUnique | src/lib/totp.ts:18-32 | that relation determines the text |
| Base32.DecodeInvertsEncode | src/lib/totp.ts:34-50 | decoding an encoding gives back the bytes, for every byte sequence |
| Base32.EncodeInvertsDecodeIff | src/lib/totp.ts:34-50 | encoding a decoding gives back the text if and only if the text is canonical and unpadded |
| Bits.AppendLow | src/lib/totp.ts:23 | shifting in new bits appends them to the pending ones, whatever has left the word |
| Bits.TakeHigh | src/lib/totp.ts:26 | shift and mask take the bits above the pending ones that stay |
| Ipv4Guard.Ipv4ToInt | src/lib/ssrfGuard.ts:43-54 | exactly four parts of one to three digits up to 255 give their base-256 number, anything else nothing |
| Ipv4Guard.ReadsQuadsExactly | src/lib/ssrfGuard.ts:43-54 | the parser accepts exactly four decimal octets between dots, leading zeros included, and gives their base-256 number |
| Ipv4Guard.DottedReads | src/lib/ssrfGuard.ts:145 | printing four bytes in decimal and parsing the text gives their number |
| Ipv4Guard.MaskIsHigh | src/lib/ssrfGuard.ts:84 | the shifted mask keeps all but the low bits |
| Ipv4Guard.TableParses | src/lib/ssrfGuard.ts:61-81 | every entry of the blocklist parses to its base |
| Ipv4Guard.MaskTestIsMembership | src/lib/ssrfGuard.ts:79-92 | for every 32-bit value and table entry the mask test is membership in [base, base + 2^(32 - bits)) |
| Ipv4Guard.PublicV4Iff | src/lib/ssrfGuard.ts:88-93 | a text is let through exactly when it parses and lies outside every listed block |
| Ipv6Text.Ipv6ToBytes | src/lib/ssrfGuard.ts:97-131 | the array it fills is what the text denotes, and it answers null exactly for the texts that denote nothing |
| Ipv6Text.WriteHalves | src/lib/ssrfGuard.ts:119-129 | groups fill the array from both ends, zeros lie between |
| Ipv6Text.ReadsExactly | src/lib/ssrfGuard.ts:112-130 | the reader accepts exactly eight groups, or groups around one "::", and gives the bytes they spell |
| Ipv6Text.ParsesFull | src/lib/ssrfGuard.ts:112-128 | eight groups of one to four hex digits give their sixteen bytes |
| Ipv6Text.ParsesElided | src/lib/ssrfGuard.ts:112-129 | "::" stands for as many zero groups as are missing |
| Ipv6Text.ParsesExactly | src/lib/ssrfGuard.ts:97-131 | the whole parser accepts exactly the texts of section 2.2 of RFC 4291 that it is written for: eight groups, groups around one "::", either with a dotted-quad tail, any of them with a zone; and gives the bytes they denote |
| Ipv6Text.DottedTailIsTwoGroups | src/lib/ssrfGuard.ts:101-110 | any dotted-quad tail the IPv4 parser reads means the two hex groups of its number |
| Ipv6Text.ParsesFullDotted | src/lib/ssrfGuard.ts:101-128 | six groups and a dotted quad give their sixteen bytes |
| Ipv6Text.ParsesElidedDotted | src/lib/ssrfGuard.ts:101-129 | so do groups, "::", groups and a dotted quad |
| Ipv6Text.ZoneIgnored | src/lib/ssrfGuard.ts:98 | what follows the first percent sign never matters |
| Ipv6Text.HexIsGroup | src/lib/ssrfGuard.ts:107-108 | the hex print of a 16-bit number is a group that reads back as it |
| Ipv6Guard.PrintedAddressReads | src/lib/ssrfGuard.ts:97-131 | every address has a hex text, and the parser gives its bytes back |
| Ipv6Guard.TestsAreTable | src/lib/ssrfGuard.ts:147-164 | for every address that is not IPv4-mapped the byte tests are membership of its 128-bit number in a table of CIDR blocks |
| Ipv6Guard.MappedGetsV4Verdict | src/lib/ssrfGuard.ts:142-146 | an IPv4-mapped address gets exactly the IPv4 verdict of its last four bytes |
| Ipv6Guard.MappedTextGetsV4Verdict | src/lib/ssrfGuard.ts:142-146 | any IPv4 text after "::ffff:", or its two hex groups there, gets the verdict of the IPv4 text itself |
| Ipv6Guard.PublicV6Iff | src/lib/ssrfGuard.ts:133-165 | a text is let through exactly when it parses and its number lies outside every refused block |
| Ipv6Guard.PublicAddressIff | src/lib/ssrfGuard.ts:168-173 | so for both families, and for no other text |
| AuditCsv.FieldReads | src/lib/auditExport.ts:62-66 | whatever the text of a cell, a reader for section 2 of RFC 4180 finds it whole and stops at its delimiter |
| AuditCsv.RecordReads | src/lib/auditExport.ts:85 | a row reads back as its cells |
| AuditCsv.HeaderIsRow | src/lib/auditExport.ts:69 | the header is the row of the five column names |
| AuditCsv.ExportReadsBack | src/routes/teams.ts:442-446 | reading the export gives the header and the five cells of every entry, for arbitrary text in them |
| AuditCsv.ExportHasItsColumns | src/lib/auditExport.ts:68-86 | under the names timestamp, action, actor, target and detail stand those values of each entry, absent ones empty |
| AuditCsv.CellFormat | src/lib/auditExport.ts:62-66 | a cell without quote, comma and line break is printed as it is, any other in quotes |
| AuditCsv.QuotesAreDoubled | src/lib/auditExport.ts:62-66 | and there each quote is written twice and nothing else is touched |
| AuditCsv.ExportIsInjective | src/lib/auditExport.ts:72-86 | entries with different cells never export to the same file |
| TunnelRelay.Tunnels.Relay | src/routes/tunnel.ts:64-84 | a connection is admitted exactly below the cap, counted once, and cleaned up at once when its client is already gone; a client turned away and still there is closed with 4429 |
| TunnelRelay.Session.Cleanup | src/routes/tunnel.ts:92-104 | the first cleanup gives back the slot, destroys the upstream and closes the client, later ones do nothing |
| TunnelRelay.Session.OnMessage | src/routes/tunnel.ts:106-120 | a message is written, buffered, or closes the relay when the buffer overflows |
| TunnelRelay.Session.OnConnected | src/routes/tunnel.ts:149-157 | the buffer is flushed in order, unless the relay is closed |
| TunnelRelay.Session.OnConnectFailed | src/routes/tunnel.ts:138-143 | a failed dial closes a client still there with 4502 and cleans up |
| TunnelRelay.Session.OnConnectRefused | src/routes/tunnel.ts:144-148 | a refused connection closes it with the given code and cleans up |
| TunnelSpec.BytesInAreBytesOut | src/routes/tunnel.ts:106-161 | in every run an open relay's upstream has received exactly what its client sent, in order; before connecting that is the buffer, at most 4 MiB |
| TunnelSpec.ReadyIffDialled | src/routes/tunnel.ts:149-157 | in every run a relay that is not closed streams if and only if its dial has succeeded, and is dialling otherwise |
| TunnelSpec.DialDelivers | src/routes/tunnel.ts:149-157 | right after a successful dial the upstream has everything the client sent, and the buffer is empty |
| TunnelSpec.MessageIsDeliveredOrKept | src/routes/tunnel.ts:106-120 | after that each message reaches the upstream at once; before it is kept, until more than 4 MiB close the relay |
| TunnelSpec.DataReachesClient | src/routes/tunnel.ts:158-161 | what the upstream sends reaches an open client at once |
| TunnelSpec.EndsExactly | src/routes/tunnel.ts:92-167 | an open relay ends exactly when its client goes, its dial fails or is refused, its upstream ends, or its buffer overflows |
| TunnelSpec.DialEnds | src/routes/tunnel.ts:138-157 | a dial ends once, with whatever answer |
| TunnelSpec.AdmittedIsDialling | src/routes/tunnel.ts:70-90 | an admitted relay starts dialling with nothing sent or received, unless its client was gone already |
| TunnelSpec.CountersAreOpenRelays | src/routes/tunnel.ts:51-84 | in every run each counter is the number of open relays, at most 512, with no zero entry |
| TunnelSpec.AdmittedIffBelowCap | src/routes/tunnel.ts:70-76 | a connection is turned away exactly when 512 relays of its environment are open |
| TunnelSpec.ClosedStaysSilent | src/routes/tunnel.ts:92-104 | after its cleanup nothing reaches a relay's upstream and it never reopens |
| TunnelSpec.ClientIsToldWhy | src/routes/tunnel.ts:92-147 | one event, read case by case: a client still open is closed with 4013 exactly on an overflow, 4502 on a failed dial, the given code on a refusal, and 1000 exactly when its upstream ended |
| TunnelSpec.CloseCodeIsFinal | src/routes/tunnel.ts:92-104 | the first close code sent is the last, whatever happens next |
| TunnelSpec.EarlyCloseWritesNothing | src/routes/tunnel.ts:112-118 | after an overflow or an early close the upstream never gets a byte, and an overflow is reported as 4013 |
| WebhookTheorems.AttemptsMatchStatus | src/scheduler/webhookDelivery.ts:136-166 | in every reachable state pending means fewer than six attempts, failed six, delivered one to six |
| WebhookTheorems.AnswerDecides | src/scheduler/webhookDelivery.ts:136-166 | a success delivers the row at any attempt; a failure gives it up at the sixth and before that leaves it pending for 10, 60, 300, 1800 or 7200 s |
| WebhookTheorems.DeliveredIffAnswered | src/scheduler/webhookDelivery.ts:138-145 | in every run a delivery is delivered if and only if one of its attempts was answered with a success |
| WebhookTheorems.DeliveredStays | src/scheduler/webhookDelivery.ts:112-145 | a delivered event stays as it is in every continuation and is in no batch ever again |
| WebhookTheorems.RowsComeAndGo | src/lib/webhooks.ts:36-43 | a pending delivery leaves the table only with its endpoint, and a new one is due at once |
| WebhookTheorems.FetchIff | src/scheduler/webhookDelivery.ts:112-123 | a tick fetches at most fifty pending rows whose time has come and whose endpoint is enabled, earliest first, none left out for a later one |
| WebhookTheorems.FetchExists | src/scheduler/webhookDelivery.ts:112-123 | there is always such a batch |
| WebhookTheorems.SnapshotIsCurrent | src/scheduler/webhookDelivery.ts:112-136 | although rows are fetched once a tick and updated without a guard, the fetched attempt count is the row's own |
| WebhookTheorems.BackoffIndexInRange | src/scheduler/webhookDelivery.ts:164 | a retry waits one of the first five entries, the fallback is never taken |
| WebhookTheorems.LadderSpans | src/scheduler/webhookDelivery.ts:10-14 | the six attempts of an event that is given up span at least 9370 s |
| WebhookTheorems.EnabledWithTenStrikesIff | src/scheduler/webhookDelivery.ts:172-190 | between ticks an enabled endpoint has ten strikes or more if and only if a tick broke off between a tenth strike and the switch-off and nothing has cleared the strikes since |
| WebhookTheorems.SwitchOffCanBeLost | src/scheduler/webhookDelivery.ts:178-190 | one delivery redelivered nine times reaches such an endpoint |
| WebhookTheorems.StrikesAreTrailingRun | src/scheduler/webhookDelivery.ts:146-177 | between ticks strikes and lost strikes together are the exhausted deliveries since the last answer or re-enabling, the strikes kept past an answer and the one booked across a re-enabling: the count is right if and only if the lost are as many as the kept and late |
| WebhookTheorems.WholeTicksCount | src/scheduler/webhookDelivery.ts:146-190 | at an endpoint where no tick broke off, the count is right up to one late strike, and below ten while it is enabled |
| WebhookTheorems.StrikeCanBeLost | src/scheduler/webhookDelivery.ts:155-177 | a tick that breaks off before the strike of an exhausted delivery loses it |
| WebhookTheorems.ClearCanBeLost | src/scheduler/webhookDelivery.ts:138-151 | a tick that breaks off after a delivery and before its clearing keeps up to nine strikes |
| WebhookTheorems.LateStrikeMiscounts | src/routes/outgoingWebhooks.ts:154-164 | a re-enabling between an exhausted delivery and its strike leaves one strike too many |
| WebhookTheorems.LateStrikeCanHappen | src/scheduler/webhookDelivery.ts:155-177 | one delivery that fails six times opens that window |
| WebhookTheorems.DisabledAtTen | src/scheduler/webhookDelivery.ts:178-190 | the worker goes on to switch an endpoint off exactly when the deliveries exhausted in a row, with the strikes kept or late and without those lost, are ten or more |
| WebhookTheorems.PatchDoes | src/routes/outgoingWebhooks.ts:154-164 | switching on clears the strikes, switching off keeps them, nothing else changes |
| WebhookTheorems.RedeliverDoes | src/routes/outgoingWebhooks.ts:268-273 | exactly a failed delivery starts over with no attempt made |
| WebhookTheorems.DeleteDoes | src/routes/outgoingWebhooks.ts:214-219 | a deleted endpoint takes exactly its own deliveries with it |
| WebhookDelivery.WebhookTables.PatchEndpoint | src/routes/outgoingWebhooks.ts:154-164 | enabling clears the strikes, disabling leaves them, and the answer says whether the endpoint exists |
| WebhookDelivery.WebhookTables.RedeliverDelivery | src/routes/outgoingWebhooks.ts:268-273 | exactly a failed delivery starts a new ladder |
| WebhookDelivery.WebhookTables.DeliverOne | src/scheduler/webhookDelivery.ts:125-191 | under any handlers and a database error at any statement, the worker's part of the run is the attempt and exactly the statements its answer calls for; undisturbed, the row is delivered on a success, pending for its wait below six attempts and failed at the sixth, and the endpoint is as the answer says |
| WebhookDelivery.WebhookTables.ProcessWebhookQueue | src/scheduler/webhookDelivery.ts:111-192 | fetched rows get exactly one attempt each, in order, up to the row at which the database breaks the tick off; undisturbed, each row and endpoint gets its own answers' effect and no other row changes |
| AlertThrottle.ClaimsAreSixHoursApart | src/lib/errorTracking.ts:91-127 | in every run two claims of a fingerprint at different instants within six hours have a manual resolve between them |
| AlertThrottle.ClaimsIff | src/lib/errorTracking.ts:91-127 | in every run an occurrence claims if and only if its error is a server's or has now occurred 25 times and no claim of it since its last resolve is six hours old or younger, or one was made at this very instant |
| AlertThrottle.CheckSendsIff | src/lib/errorTracking.ts:138-147 | a claimed alert is sent exactly when at most twelve rows were alerted within the hour |
| AlertThrottle.ClientClaimsAfter25 | src/lib/errorTracking.ts:105-108 | a client fingerprint never claims before its 25th occurrence |
| AlertThrottle.ResolveRearms | src/routes/errors.ts:96-101 | right after a resolve the next occurrence claims, if it is a server error or past the threshold |
| AlertThrottle.AtMostTwelveAtEachCheck | src/lib/errorTracking.ts:138-147 | without resolves, each alert sent is one of at most twelve fingerprints claimed in the hour before its check |
| AlertThrottle.TwelvePerWindowIff | src/lib/errorTracking.ts:46-54 | over all runs without resolves, with distinct time stamps and checks within a lag, the windows that never hold more than twelve alerts, by claim or by sending, are exactly those no wider than an hour less the lag |
| AlertThrottle.TwelvePerRollingHourIff | src/lib/errorTracking.ts:46-54 | twelve alerts in any rolling hour is promised if and only if the lag is zero |
| AlertThrottle.LateChecksExceed | src/lib/errorTracking.ts:138-141 | at a lag of an hour any number of alerts claimed at one instant is sent |
| AlertThrottle.LostAlertStaysLost | src/lib/errorTracking.ts:138-165 | an alert whose count query failed is never sent, in any continuation |
| ErrorTracking.ErrorEvents.Upsert | src/lib/errorTracking.ts:91-127 | one statement inserts or bumps, and the call is to alert exactly when the row's alert time is now |
| ErrorTracking.ErrorEvents.SendUnlessFlooded | src/lib/errorTracking.ts:138-147 | the alert is sent unless more than twelve rows were alerted within the hour |
| ErrorTracking.ErrorEvents.CaptureError | src/lib/errorTracking.ts:72-167 | a whole call continues the run by its upsert, events of others and, when the upsert claims, its check, or the loss of the alert when the count query fails; a failing upsert does nothing; undisturbed it bumps its own row only |
| ErrorTracking.ErrorEvents.ResolveError | src/routes/errors.ts:94-103 | resolving or reopening clears the alert time |
| RateLimiter.TeamRateLimiter.Allow | src/routes/environments.ts:19-33 | the decision and the new map of a fixed window with pruning above 1000 entries |
| RateLimiter.TeamRateLimiter.Prune | src/routes/environments.ts:25-27 | deleting entries one by one leaves exactly the windows that are not over |
| RateLimiter.PruningNeverDecides | src/routes/environments.ts:24-27 | on a clock that never runs back every request gets the decision of a limiter that never prunes |
| RateLimiter.RefusedIff | src/routes/environments.ts:15-33 | from the requests alone: one is refused if and only if it falls into a running 60-second window of its team in which sixty came before it |
| RateLimiter.PrunesExactly | src/routes/environments.ts:19-27 | a request that opens a window beyond 1000 entries drops exactly the windows that are over, and no other request drops any |
| RateLimiter.AtMost60PerWindow | src/routes/environments.ts:15-32 | each window admits at most 60 requests |
| RateLimiter.AtMost119PerMinute | src/routes/environments.ts:15-32 | any 60-second half-open interval admits at most 119 requests of a team |
| RateLimiter.AtMost119IsTight | src/routes/environments.ts:15-32 | and some sequence of requests reaches 119 |
| SeatSync.SeatBook.DiscoverSeatItem | src/scheduler/seatSync.ts:93-105 | the second of exactly two items is remembered, otherwise nothing is, nor when a call fails |
| SeatSync.SeatBook.Push | src/scheduler/seatSync.ts:35-72 | the outcome and the new rows and quantities for every way the calls can go |
| SeatSync.SeatBook.ReconcileSeats | src/scheduler/seatSync.ts:115-140 | the batch is pushed in order and the counters count its outcomes |
| SeatConvergence.OutcomesAddUp | src/scheduler/seatSync.ts:129-140 | every push of a tick has one outcome |
| SeatConvergence.PushFixes | src/scheduler/seatSync.ts:35-64 | one push, read case by case: when the calls succeed it syncs exactly the teams it can, zeroes their drift, bills the membership and touches nothing else |
| SeatConvergence.PushOutcome | src/scheduler/seatSync.ts:35-72 | for each way the calls can go, exactly when a push is synced, failed or a no-op; a synced one bills and stores the members beyond those the plan includes, never fewer than none |
| SeatConvergence.PushIsIdempotent | src/scheduler/seatSync.ts:39 | pushing again changes nothing, and the synced row stays through any later pushes of any teams, however their calls go |
| SeatConvergence.FailedPushKeepsDrift | src/scheduler/seatSync.ts:65-71 | one push, read case by case: failing at any of its six calls it leaves every stored quantity and exactly the same candidates for the reconciler |
| SeatConvergence.CandidatesAreTheDrifted | src/scheduler/seatSync.ts:116-124 | one row, read case by case: the query finds every drifted team, and the exact extra rows it finds are named |
| SeatConvergence.CandidateIff | src/scheduler/seatSync.ts:116-124 | the query, column by column: a per-seat plan, an active, trialing or past-due status, and a stored quantity other than those seats |
| SeatConvergence.BatchExists | src/scheduler/seatSync.ts:116-127 | it always has an answer |
| SeatConvergence.ExtraCandidatesStay | src/lib/pricing.ts:121-124 | those extra rows are never fixed, by any list of pushes, however their calls go |
| SeatConvergence.TickProgress | src/scheduler/seatSync.ts:115-135 | with d fixable and k < 50 other candidates a tick fixes at least min(d, 50 - k) |
| SeatConvergence.DriftReachesZero | src/scheduler/seatSync.ts:107-113 | so after n ticks with n(50 - k) at least d no fixable team is left |
| SeatConvergence.FiftyStuckStarve | src/scheduler/seatSync.ts:125-126 | with fifty never-synced stuck candidates a tick fixes no team that was synced before |

## Left out

- Retention: deletes of finished requests and usage events are not modelled; finished delivery rows and resolved error rows can be pruned.
- Health poller: overwrites of host usage by the agent's view, which would reset the accounting that `HostsConservedIff` follows.
- Webhook payloads, docker endpoints, TTLs, audit entries and log lines carry no state the properties depend on.
- Queue fairness across teams: the oldest-20 batch gives none.
- HMAC, time steps and random secrets of src/lib/totp.ts; redaction and fingerprinting in src/lib/errorTracking.ts.
- Ipv6Guard.PublicAddressIff: the address family is a parameter, because net.isIP of Node.js is not part of this model.
- DNS and URL parsing around src/lib/ssrfGuard.ts.
- The time stamp and JSON texts of an audit entry are cell text like any other; filters and paging are not modelled.
- Mask arithmetic for a /0, which no blocklist entry uses, beyond the constant the code gives it.
- One webhook worker at a time is taken from the advisory lock. An attempt whose tick breaks off before its answer is stored is not in the row's history, and is made again.
- A database error outside the host loop of a scheduler call ends it like a crash; the methods of `Scheduler` model the errors of the host loop. A VM that an agent boots without its createVm answer arriving is not known to the model.
- The advisory lock of `reserveSlot` is the atomicity of its transaction; a hash collision only makes calls wait.
- Statements run at their time stamp: a statement that waits for a row lock while its time stamp ages is not modelled.
- Duplicate alerts of one fingerprint at one instant are excluded from `TwelvePerWindowIff`, as the code assumes distinct transaction times.
- Membership and plan changes during a seat tick; the plan cache is taken to agree with the plans table.
- monthlyCost, nextAvailable and cheapestOffered of src/lib/pricing.ts would only add easy members.
- Rounding of load scores and uptime: they are exact reals, with non-finite measurements kept apart.
- Day bars are indexed from the window start; their printed dates are not modelled.
- Status posts' text, updates and state beyond what decides a component's level.
