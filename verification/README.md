# A verification model of singbox-deploy's accounting and hub transactions

This project models, in Dafny, the parts of singbox-deploy whose correctness depends on
long runs or on partial failure, and proves what they keep.

**Traffic accounting on one node.** `Tables` holds the storage idiom every history
shares: rows keyed by bucket and accounting key, upserts that add, `GROUP BY` folds.
`IpStore` and `IpTraffic` are the per-address tiers (raw samples, hours, days), the
pruning and the top list; `Ranking` is the survivor ranking pruning recomputes.
`TrafficLedger` and `TrafficStore` are the node's own usage: samples, hours, signed
corrections and signed traffic packages. `Resources` is the averaged resource history
over exact reals. `IpKey` is the accounting key that both Go and SQL decode.
`NodeSampler` and `IpAccounting` turn kernel counters, which may restart, vanish or be
rebuilt at any moment, into the deltas those stores add up.

**The quota.** `Calendar` is the month arithmetic of the reset boundary, over months of
the Gregorian calendar counted from year 1. `Quota` is the limit arithmetic and the
machine that stops and restarts sing-box around a persisted ownership marker, in which
every single effect may fail, succeed and report failure, or be cut off by the death of
the process, while others start and stop the service.

**Transactions that survive failure part-way.** `FleetCore` (the fleet-wide core
change), `CoreReplace` (the local binary replacement), `AgentUpgrade` and `MutationGate`
(the agent's self-upgrade behind its gate), `Reconfigure` (a node's reconfiguration with
firewall rollback). In these, `*` is the adversary: any request, copy, rename or command
may fail with or without its effect, so each `ensures` holds for every such behaviour.
Their parameter `calm` says that nothing fails by itself, and the clauses under it say
when a call must go through; outcomes a result depends on (a lying rename, the removal
of the update directory, a cancellation) are parameters too.

**Concurrency.** `Supervisor` is the agent's monitor supervisor as a machine of small
steps, with goroutines interleaving between any two lock operations: what no step
breaks, that every call comes to its end, and what reloads, timers and exits lead to.

**The hub's registries.** `Registry` (spokes), `Relay` (relay links and the three views
derived from them), `AliasLabeler` (distinct labels). `Text` and `Wrappers` are shared
helpers.

Objects whose methods update fields are classes whose methods are proved against
specification functions; the theorems about whole runs are lemmas about those functions.

## What does not hold

- A cycle that starts at a reset hour other than 0 loses the hours of its opening day
  once the day fold reaches that day, although the comment above `TopIPTraffic`
  (internal/monitor/store.go:850-855) says no bucket is ever split between windows. The
  loss is exactly `Sum(Older(hourly, before), OpeningDay)`:
  `IpStore.FoldDaysExactly`, with an example in `IpStore.ResetHourLosesOpeningDay`. The
  opening column of the daily series and the opening bucket of the two hourly trends
  lose what is folded out of them in the same way, and nothing else does:
  `IpStore.OpeningColumnLoses`, `TrafficLedger.FoldKeepsTrend`,
  `Resources.Store.ResourceTrendHourly`.
- For reset days 29 to 31, stepping back a month can overflow into the month it came
  from, and then the start lies in the future; stepping forward can overflow too, and
  then a shorter month's reset is skipped. `Calendar.CycleStartExactly` and
  `Calendar.NextCycleResetExactly` say for which instants the two functions are right,
  for every reset day from 1 on; `Calendar.StartInTheFuture` and
  `Calendar.ShortMonthSkipped` are the failing families, `Calendar.Spring2025` has a date
  for each.
- `NextCycleReset` does not raise a reset day below 1 to 1 as `CycleStart` does, and
  then comes too early by exactly the missing days, possibly before now:
  `Calendar.ResetDayBelowOne`, with an example in `Calendar.ResetDayZero`. Its callers
  never pass such a day.
- A monitor that cannot read its stop marker at start never undoes the stop it owns,
  whatever its passes see and whatever fails in them: `Quota.UnreadMarkerStrands`.
- A clear of the marker that takes effect and reports failure makes the next pass within
  quota call Start without owning a stop. `Quota.UnownedStartExactly` says when a pass
  does, `Quota.LostClearStartsUnowned` is a run in which it happens, and
  `Quota.StartsAreOwned` shows there is no other cause.
- A core replacement that finds its context cancelled before the Download step, or
  cannot inspect the backup path, ends in the cleanup of the update directory, and if
  that cleanup works the recovery backup an earlier replacement left is gone. In every
  other case it is kept: `CoreReplace.Manager.ReplaceWithTag`, clause `KeepsEarlier`,
  where `seen` is the negation of that condition and `removal` the cleanup's outcome.
- If the rename of the new agent takes effect and reports an error, and nothing else
  fails, the upgrade of a genuine request ends failed, with the new executable in place,
  its backup removed as unused and no restore pending; without such a rename every
  failed upgrade stays recoverable. Both are clauses of `AgentUpgrade.Agent.Upgrade`;
  `AgentUpgrade.Agent.Retry` has the consequence for the next upgrade.
- If the rename of a node's new config.json does the same, the old configuration runs on
  over the new file; without such a rename a failure with the old configuration running
  leaves its file: `Reconfigure.Node.Reconfigure`.
- Setting a cycle's usage can report failure after the usage has been set, also when no
  package was given, since the package is read after the commit:
  `TrafficStore.Store.ReplaceCurrentTrafficUsage`.
- A spoke's WireGuard address and key are compared as given but saved trimmed. A
  registry stays distinct exactly when the trimmed values are free:
  `Registry.SaveCandidate`, with the failing family in
  `Registry.UntrimmedAddressSlipsThrough`.
- A relayed key with an empty landing and the separator in its address is printed
  without the separator that would protect it. It comes back refused, or accepted as a
  key of another address, but never as itself: `IpKey.MisreadAs`, with the keys it
  comes from in `IpKey.ParseKeySeparatorFails` and an example in
  `IpKey.ZoneHidesAddress`. Every other printed key is accepted again unchanged:
  `IpKey.ParseKeyIdempotentExactly`.

## Model

| member | source | states |
|---|---|---|
| Tables.FoldConserves | internal/monitor/store.go:469-482 | folding old rows into wider buckets and deleting them conserves every sum whose selector cannot tell a row from its bucket |
| Tables.GroupByMeans | internal/monitor/store.go:459-465 | the fold's GROUP BY yields one row per bucket and key, holding exactly that group's sum, and misses no group |
| Tables.CutMeans | internal/monitor/store.go:466-482 | a cutoff takes exactly the older rows and keeps all others |
| Ranking.SurvivorCount | internal/monitor/store.go:807-818 | the LIMIT keeps at most keep addresses, and exactly keep as soon as one is dropped |
| Ranking.SurvivorsBeatTheRest | internal/monitor/store.go:807-818 | no address left out of the ranking's top ranks above one in it |
| Ranking.SurvivorsStable | internal/monitor/store.go:839-846 | lowering or removing addresses outside the top set never changes the top set, so re-ranking between two deletes is harmless |
| IpStore.RunConserves | internal/monitor/store.go:672-720 | after any run of rounds, hour folds, day folds, prunes and clears, every reading that splits no written bucket equals the plain list of the rows kept: those inserted since the last clear, less the earlier rows of addresses a prune dropped |
| IpStore.RunWellFormed | internal/monitor/store.go:672-848 | primary keys stay unique and stored bytes non-negative over every run |
| IpStore.DayAlignedWindow | internal/monitor/store.go:856-893 | a window starting on a GMT day sums the three tables to exactly the rows kept, whatever the fold cutoffs were |
| IpStore.HourAlignedWindow | internal/monitor/store.go:856-893 | so does a window starting on an hour while no day fold reached past its start |
| IpStore.MaintainedCycleWindow | internal/monitor/server.go:1139-1147 | under the cutoffs maintenance uses a cycle reads exactly for its first seven days whatever its reset hour, and throughout if that hour is 0 |
| IpStore.FoldDaysExactly | internal/monitor/store.go:714-720 | for any window start a day fold loses exactly the folded hours of the window's opening day, and nothing if and only if that sum is zero |
| IpStore.ResetHourLosesOpeningDay | internal/monitor/store.go:709-720 | a cycle starting at 05:00 reads 7 bytes before the fold of its opening day and 0 after |
| IpStore.DailySeriesExact | internal/monitor/store.go:958-972 | wherever the series starts, every column that begins at or after the start equals that day's kept rows, over any run |
| IpStore.OpeningColumnLoses | internal/monitor/store.go:701-720 | what either fold takes out of a column is exactly the folded rows whose hour or day begins before the series, nothing for any column but the opening one |
| IpStore.HourlySeriesExact | internal/monitor/store.go:940-956 | every hour of the hourly view that begins at or after the start and that no day fold has passed equals that hour's kept rows, over any run |
| IpStore.MaintainedHourlySeries | internal/monitor/server.go:1139-1147 | under the cutoffs maintenance uses, these are the hours of the last seven days and today |
| IpStore.HourlyColumnLoses | internal/monitor/store.go:701-720 | an hour fold takes nothing out of a column of the hourly view but the opening one, and a day fold exactly the folded rows of that hour |
| IpStore.PruneKeepsWholeAddresses | internal/monitor/store.go:831-848 | pruning keeps each address whole or drops it whole from all three tables, at most keep of them, none outweighed by a dropped one |
| IpTraffic.TopIs | internal/monitor/store.go:856-922 | the top list holds each key once, descending, and misses a key with traffic only when full of keys that moved no less |
| IpTraffic.DayReadingExact | internal/monitor/store.go:856-893 | the day-aligned readings of an entry equal the rows kept since the last clear, a pruned address's earlier ones left out |
| IpTraffic.Store.AddIPTraffic | internal/monitor/store.go:672-696 | one committed round adds every delta once, in any iteration order; a failed one changes nothing |
| IpTraffic.Store.AggregateIPHourly | internal/monitor/store.go:701-707 | the tables become the hour fold of what they were, or stay |
| IpTraffic.Store.AggregateIPDaily | internal/monitor/store.go:714-720 | the tables become the day fold of what they were, or stay |
| IpTraffic.Store.PruneIPTraffic | internal/monitor/store.go:831-848 | three deletes, each re-ranking, leave exactly the rows of the addresses ranked busiest before the first |
| IpTraffic.Store.ResetIPTrafficForCycle | internal/monitor/store.go:726-758 | a new cycle clears every tier once; the first cycle ever seen only leaves its mark; a failure changes nothing |
| IpTraffic.Store.ResetIPTraffic | internal/monitor/store.go:764-776 | an operator's reset clears every tier and leaves the cycle marker |
| IpTraffic.Store.TopIPTraffic | internal/monitor/store.go:856-922 | the entries are the ranking's keys with their windows; the two GMT windows always equal the rows kept, the cycle window while no day fold reached past its start |
| IpKey.DecodeEncode | internal/monitor/ipkey.go:30-51 | decoding undoes encoding if and only if no marker or separator sits where it can be confused |
| IpKey.EncodeDecode | internal/monitor/ipkey.go:30-51 | a stored key re-encodes to itself unless it starts with marker and separator |
| IpKey.SqlReadsAddress | internal/monitor/ipkey.go:73-85 | the SQL expression evaluates to the Go decoder's address on every key |
| IpKey.ParseKeyIdempotentExactly | internal/monitor/ipkey.go:57-64 | a printed key is accepted again unchanged if and only if it was not printed without a landing around an address that holds the separator |
| IpKey.MisreadAs | internal/monitor/ipkey.go:57-64 | such a key comes back refused or as a key of the address behind the separator, never as itself |
| IpKey.ParseKeySeparatorFails | internal/monitor/ipkey.go:57-64 | the keys it comes from, with either outcome |
| IpKey.ZoneHidesAddress | internal/monitor/ipkey.go:57-64 | an IPv6 address whose zone holds the separator comes back as the loopback address |
| IpKey.SanitizedHex | internal/monitor/ipkey.go:99-107 | a landing ID taken from a caller is hexadecimal or empty |
| IpKey.LandingKept | internal/monitor/ipkey.go:99-107 | a hexadecimal landing ID is kept, in lower case and without surrounding space; any other is dropped |
| IpKey.GeneratedKeyAccepted | internal/monitor/ipkey.go:57-107 | a relayed key of a generated landing ID is accepted as it is printed |
| TrafficLedger.FoldKeepsUsage | internal/monitor/store.go:459-482 | no hour fold, at any cutoff, changes the usage since an hour-aligned start |
| TrafficLedger.FoldKeepsTrend | internal/monitor/store.go:431-482 | nor any bucket of the hourly trend that begins at or after the start, wherever that lies; the opening bucket loses exactly its folded samples |
| TrafficLedger.CorrectionReadsBack | internal/monitor/store.go:320-348 | a correction is accepted if and only if it fits a signed column; then usage reads exactly the target, otherwise the ledger is as it was |
| TrafficLedger.PackageReadsBack | internal/monitor/store.go:386-427 | the same for setting a package, in all three kinds |
| TrafficLedger.GrantAddsExactly | internal/monitor/store.go:374-427 | an accepted grant reads back previous plus delta; a sum that would saturate is refused and changes nothing |
| TrafficLedger.GrantsCutMeans | internal/monitor/store.go:492-494 | cleaning up takes exactly the older grants |
| TrafficLedger.TickSound | internal/monitor/quota.go:103-119 | the clock moving on keeps both ledgers non-negative since the cycle start, and a new cycle reads zero |
| TrafficLedger.ApplySound | internal/monitor/store.go:261-499 | every event keeps both signed ledgers non-negative since the cycle start and nothing stamped ahead of the clock |
| TrafficLedger.RunSound | internal/monitor/store.go:261-499 | so does every run under a non-decreasing clock |
| TrafficLedger.LaterReadsAddSamples | internal/monitor/store.go:271-297 | within a cycle, usage after a run without corrections is usage before it plus the run's samples, across folds and cleanups |
| TrafficLedger.CorrectionThenSamples | internal/monitor/store.go:312-348 | after an accepted correction every later reading in the cycle is the target plus the samples since |
| TrafficStore.Store.InsertSample | internal/monitor/store.go:261-267 | a committed sample adds one row and keeps the ledgers sound |
| TrafficStore.Store.ReadTotals | internal/monitor/store.go:279-297 | the summing loop over the three queries is the clamped signed sum |
| TrafficStore.Store.ReplaceTotals | internal/monitor/store.go:320-348 | one signed row moves usage to the target in one transaction, or nothing happens |
| TrafficStore.Store.AdjustPackage | internal/monitor/store.go:397-427 | one signed row moves the package to the target in one transaction, or nothing happens |
| TrafficStore.Store.AggregateHourly | internal/monitor/store.go:459-465 | the fold changes no usage from an hour-aligned start and no trend bucket that begins at or after the trend's start |
| TrafficStore.Store.Cleanup | internal/monitor/store.go:485-499 | of the first three deletes exactly those succeed that come before the first failing one, and it reports success only if all do; no sum from the cutoff on changes, and ledgers stay sound for a cutoff not after the cycle start |
| TrafficStore.CleanupOrder | internal/monitor/store.go:485-499 | which rows are gone after how many deletes |
| TrafficStore.Store.ReadCurrentTrafficUsage | internal/monitor/traffic_package.go:16-28 | usage and package are read since the current cycle start |
| TrafficStore.Store.ReplaceCurrentTrafficUsage | internal/monitor/traffic_package.go:34-60 | refused if and only if the cycle changed; succeeds if and only if both fit, both commit and the read between them works, and then reads back both targets; a failure never touches the package and leaves the usage corrected exactly if that part had committed |
| TrafficStore.Store.GrantCurrentTrafficPackage | internal/monitor/traffic_package.go:64-88 | a grant succeeds if and only if the cycle is the expected one and every sum fits; it reads back previous plus delta and leaves usage alone |
| TrafficStore.GrantAccepted | internal/monitor/store.go:374-381 | a grant's saturated target is accepted exactly when the plain sum fits |
| Resources.GroupsRepresent | internal/monitor/store.go:628-659 | grouping raw readings by hour yields rows whose average times count, count and maximum are those readings'; an integer average lies at most one below the mean |
| Resources.MergeRepresents | internal/monitor/store.go:628-659 | merging weighted averages into existing hours represents both sets of readings together, rounding of integer columns costing less than one a merged group |
| Resources.OneReading | internal/monitor/store.go:628-641 | an hour with one reading is that reading, column by column |
| Resources.IntegerColumns | internal/monitor/store.go:628-657 | the disk traffic averages stay whole numbers through every fold; percentages are not rounded |
| Resources.CutMeans | internal/monitor/store.go:659 | a cutoff takes exactly the older readings |
| Resources.Store.AggregateResourceHourly | internal/monitor/store.go:628-659 | repeated folds keep every hour representing all readings ever folded into it |
| Resources.Store.ResourceTrendHourly | internal/monitor/store.go:539-583 | wherever the trend starts, each hour that begins at or after it represents all its readings, folded or not; the opening hour its unfolded readings since the start |
| Resources.Store.Cleanup | internal/monitor/store.go:485-499 | the fourth delete leaves every hour from the cutoff on as it was and of an older one only its raw readings |
| Calendar.CycleStartExactly | internal/monitor/quota.go:103-119 | for every reset day from 1 on, CycleStart is the last reached boundary exactly when its month step lands in the right month |
| Calendar.NextCycleResetExactly | internal/monitor/quota.go:122-128 | for every reset day from 1 on and every instant, NextCycleReset is the first boundary ahead exactly when the start steps back right and the month after it has its day; it is always after now |
| Calendar.StartInTheFuture | internal/monitor/quota.go:103-119 | with reset day 31, on the 30th after a month of fewer days the start is tomorrow |
| Calendar.ShortMonthSkipped | internal/monitor/quota.go:122-128 | with reset day 31, from the 31st before a shorter month that month's reset is skipped |
| Calendar.Spring2025 | internal/monitor/quota.go:103-128 | both on dates: 30 March 2025, and 31 January 2025 over the end of February |
| Calendar.ResetDayBelowOne | internal/monitor/quota.go:103-128 | for a reset day below 1 the start is that of day 1, and the next reset is day 1's less the missing days, never the first boundary ahead |
| Calendar.ResetDayZero | internal/monitor/quota.go:122-128 | with reset day 0, at noon on 31 March 2025 the next reset is that day's midnight |
| Calendar.HourOutOfRange | internal/monitor/quota.go:130-139 | a reset hour outside 0 to 23 counts as midnight |
| Calendar.CycleBracketsNow | internal/monitor/quota.go:103-128 | for reset days 1 to 28, CycleStart is the greatest boundary not after now and NextCycleReset the least after it |
| Calendar.CycleShape | internal/monitor/quota.go:103-148 | for every reset day from 1 on a start is hour-aligned and the next reset after now; a start that is reached lies less than 31 days back, and for days 1 to 28 it is always reached |
| Calendar.CycleMonotone | internal/monitor/quota.go:103-128 | for every reset day from 1 on a later clock never has an earlier cycle start; where the month steps land right, for days 1 to 28 always, it shares it exactly until the next reset |
| Calendar.NextResetStartsItsCycle | internal/monitor/quota.go:122-128 | for every reset day from 1 on the next reset is the start of its own cycle |
| Calendar.YearStart | internal/monitor/quota.go:142-148 | the month lengths in use add up to Gregorian years, leap years included |
| Calendar.UnixEpoch | internal/monitor/quota.go:103-119 | the model's day count puts 1 January 1970 where Unix time starts |
| NodeSampler.NeverOvercharges | internal/monitor/server.go:956-975 | through reboots, crashes, lost inserts and folds, stored deltas never exceed what the interface counted |
| NodeSampler.RestartsLoseNothing | internal/monitor/store.go:514-526 | from the first stored reading on, restarts and downtime lose no byte while nothing fails and no reboot happens |
| NodeSampler.FailedInsertIsRecovered | internal/monitor/server.go:969-973 | a delta whose insert failed is forgotten by the running process and charged by the next one |
| NodeSampler.RebootLosesExactly | internal/monitor/quota.go:90-97 | the first sample after a reboot charges nothing while the counter is below the last stored reading, and the excess once it has passed it |
| NodeSampler.DowntimeIsCharged | internal/monitor/store.go:514-526 | what passes while the monitor is down is charged by its first sample exactly if the last reading can be read |
| NodeSampler.Sampler.SampleOnce | internal/monitor/server.go:956-975 | one sample is the machine's step: the delta since the reading held, inserted with whatever fate, a counter reset charging nothing; the quota is enforced only after a confirmed insert |
| Quota.ExceededMeansSpent | internal/monitor/quota.go:20-46 | within the ledgers' range the quota is exceeded exactly when a limited direction used its limit plus its package, with no wrap |
| Quota.PackagesOnlyHelp | internal/monitor/quota.go:30-46 | a larger package never makes a quota exceeded |
| Quota.AlwaysSafe | internal/monitor/server.go:1061-1126 | in every reachable state a service the monitor stopped has its marker persisted, and Start without the marker happened only after a delete that reported failure |
| Quota.StartsAreOwned | internal/monitor/server.go:1061-1126 | while no clear of the marker takes effect and reports failure, Start is only ever called while the marker is owned, whatever else loses its reply |
| Quota.UnownedStartExactly | internal/monitor/server.go:1061-1117 | a Start without the marker is made exactly by a live pass that is not over quota while memory claims a stop whose marker is gone |
| Quota.LostClearStartsUnowned | internal/monitor/server.go:1090-1117 | a run in which it happens, by a clear that takes effect and reports failure |
| Quota.CalmTick | internal/monitor/server.go:1061-1117 | a failure-free pass over quota ends down, and marked as owned if the service was up; any other one ends up and clear when memory owned a stop; a second pass changes nothing |
| Quota.QuotaIsEnforced | internal/monitor/server.go:1061-1117 | from limits, package and usage: a failure-free pass marks and stops a running service exactly if some limited direction is used up, else undoes a remembered stop, and changes nothing else |
| Quota.ReleaseUndoesStop | internal/monitor/quota_release.go:31-62 | disabling the monitor starts a service whose stop is marked and clears the marker; without a marker nothing happens |
| Quota.ReleaseCanBeRepeated | internal/monitor/quota_release.go:31-62 | the marker goes only after a Start that worked, and whatever became of a release a later one ends the stop |
| Quota.CrashThenRecover | internal/monitor/server.go:140-169 | a stop survives any crash: the next process that reads its marker ends it |
| Quota.UnreadMarkerStrands | internal/monitor/server.go:161-167 | a process that could not read the marker leaves the stop alone over any run of passes, whatever they see and whatever fails, unless somebody else starts the service |
| Quota.ReleaseSafe | internal/monitor/quota_release.go:31-62 | releasing a stop from another process keeps the machine safe, whatever fails |
| Quota.GrantRestoresService | internal/monitor/server.go:825-837 | a grant that lifts the quota restores a stopped service in the same pass |
| Quota.Monitor.ReconcileQuota | internal/monitor/server.go:1061-1117 | the imperative pass is the machine's step, effect by effect; when nothing fails it enforces the limits as above, and when usage cannot be read it changes nothing |
| Quota.Monitor.SetStoppedByQuota | internal/monitor/server.go:1120-1126 | the persisted flag is written before the one in memory |
| Quota.Monitor.constructor | internal/monitor/server.go:140-169 | a new process restores the marker it can read |
| IpAccounting.SlotInjective | internal/monitor/ipacct.go:483-488 | within a set no two elements share a previous-value key |
| IpAccounting.SlotsOfSetsDiffer | internal/monitor/ipacct.go:233-244 | nor do elements of two sets |
| IpAccounting.NeverOvercounts | internal/monitor/ipacct.go:356-460 | over any run with evictions, flushes, reloads, failed reads and failed or half-failed rebuilds, an element's deltas never exceed its counted bytes |
| IpAccounting.CalmLosesNothing | internal/monitor/ipacct.go:356-411 | through any calm stretch not one byte more is lost, wherever counting falls between two set reads |
| IpAccounting.ExactAfterQuietRound | internal/monitor/ipacct.go:356-411 | a calm run of a fresh process has delivered exactly what was counted after a round during which nothing moved |
| IpAccounting.GroupingConserves | internal/monitor/ipacct.go:394-406 | grouping by accounting key conserves each direction's total |
| IpAccounting.IPAccounting.Collect | internal/monitor/ipacct.go:356-411 | a round credits every destination, in each direction, with exactly what the counters measuring it moved since the last one: by address, by the landing node that alone claims the port, by the set's name; it remembers exactly the listed elements, or hands out nothing and rebuilds next time |
| IpAccounting.ItemMeans | internal/monitor/ipacct.go:376-406 | a counter's account decodes to its address, to the landing node behind its port if its set is relayed, and its direction is its set's |
| IpAccounting.SetsMean | internal/monitor/ipacct.go:233-244 | which sets are relayed and which inbound is what their names say |
| IpAccounting.IPAccounting.Apply | internal/monitor/ipacct.go:439-449 | a rebuilt table carries no previous value over |
| IpAccounting.IPAccounting.Remove | internal/monitor/ipacct.go:453-460 | removal asks for the delete exactly if the table was loaded, reports its reply, leaves the table to be rebuilt before the next read, and is the machine's step |
| IpAccounting.RelayLandingsByPort | internal/monitor/ipacct.go:216-228 | a port names a landing if and only if that landing alone claims it |
| IpAccounting.LandingsOrderFree | internal/monitor/ipacct.go:202-228 | the mapping depends on the job's content, not its order |
| FleetCore.Inspect | internal/hubctl/core.go:184-226 | the preflight reports every machine's exact stable version or nothing starts; when every call works it does so exactly if all are stable |
| FleetCore.StableTagMeans | internal/nodeapi/types.go:381-407 | a stable tag is v and three plain numbers with dots between, and nothing else |
| FleetCore.VerifySpoke | internal/hubctl/core.go:228-249 | success means the spoke runs the expected version, and on a healthy spoke that suffices |
| FleetCore.VerifyHub | internal/hubctl/core.go:251-263 | success means the hub runs the expected version, and on a healthy hub that suffices |
| FleetCore.ConvergeSpoke | internal/hubctl/core.go:131-153 | failed staging sends nothing; after a request only a verified read is success |
| FleetCore.ChangeSpokes | internal/hubctl/core.go:118-158 | exactly the stale spokes are sent the target, in order, up to the first failure |
| FleetCore.StaleJoin | internal/hubctl/core.go:118-124 | the stale spokes are those not on the target, in registry order |
| FleetCore.RollbackHub | internal/hubctl/core.go:76-91 | the hub is back on its version or reported, and back if every call works |
| FleetCore.RollbackSpokes | internal/hubctl/core.go:93-114 | every changed spoke is asked back in reverse order, and one not back is named; none is if every call works |
| FleetCore.ChangeFleetCore | internal/hubctl/core.go:35-182 | success converges the fleet; after a failure every machine off its preflight version is named, so none named means none off; the hub is sent the target only when all installed spokes run it; the requests of a clean rollback mirror the outgoing ones. When every call works it converges exactly if the tag and all versions are stable and is refused otherwise; when every rollback call works it converges or leaves everything as it was |
| Supervisor.NextInv | cmd/singbox-deploy-agent/monitor.go:79-309 | every step of every goroutine keeps the locks, runs, publication, store, stop and timer invariants |
| Supervisor.StepWorks | cmd/singbox-deploy-agent/monitor.go:79-309 | without new calls every step uses up some of a finite amount of work, so no run goes on for ever |
| Supervisor.Settle | cmd/singbox-deploy-agent/monitor.go:79-309 | from every reachable state letting whoever is ready go on brings every call and every sampler to its end |
| Supervisor.ReloadHasOutcome | cmd/singbox-deploy-agent/monitor.go:79-179 | in any interleaving, a reload past its check of stopped that has finished had its outcome at some moment: a new run published and its sampler live, the retry timer set after a failure, nothing running and nothing set with monitoring off |
| Supervisor.ReloadCompletes | cmd/singbox-deploy-agent/monitor.go:79-179 | from any reachable state with lifecycle free and no stop, a waiting reload can get in, everything can come to its end after it, and on the way it has its outcome |
| Supervisor.ColdStart | cmd/singbox-deploy-agent/monitor.go:70-179 | the same for the first reload of a process |
| Supervisor.TimerReloads | cmd/singbox-deploy-agent/monitor.go:266-279 | the callback of the timer that is set uses it up and turns into a waiting reload |
| Supervisor.StaleCallbackLeaves | cmd/singbox-deploy-agent/monitor.go:266-279 | any other callback, and any after a stop, leaves without a reload |
| Supervisor.StaleForEver | cmd/singbox-deploy-agent/monitor.go:266-286 | a timer no longer set is never set again |
| Supervisor.TimerOnlyWhenNeeded | cmd/singbox-deploy-agent/monitor.go:246-286 | in every reachable state no timer is set after a stop or while a run is published |
| Supervisor.NextRemembers | cmd/singbox-deploy-agent/monitor.go:79-286 | every step keeps: while monitoring was last found on and nobody stopped, a run is published, the timer is set, or a goroutine is on its way to either |
| Supervisor.WantedIsServed | cmd/singbox-deploy-agent/monitor.go:79-286 | once nobody is under way, in whatever interleaving, a wanted monitor is published with its sampler live or its retry timer is set |
| Supervisor.ExitSetsTimer | cmd/singbox-deploy-agent/monitor.go:148-179 | after an unexpected exit and all that follows it the retry timer is set |
| Supervisor.CancelledRunsStayDown | cmd/singbox-deploy-agent/monitor.go:148-179 | only runs nobody cancelled ever ask for a retry |
| Supervisor.RetryWaits | cmd/singbox-deploy-agent/monitor.go:239-244 | a retry goes on exactly when its run has closed its store |
| Supervisor.StopReturns | cmd/singbox-deploy-agent/monitor.go:231-237 | a stop call that has come to its end has returned with the supervisor stopped |
| Supervisor.StopCompletes | cmd/singbox-deploy-agent/monitor.go:231-237 | from any reachable state a stop can be called and come to its end |
| Supervisor.RequestIsServed | cmd/singbox-deploy-agent/monitor.go:311-322 | a request that gets in is served by the run published then |
| Supervisor.CancelledExitIsPrompt | cmd/singbox-deploy-agent/monitor.go:148-179 | a cancelled run lets go by steps that wait for nobody, so requests never hold up the stop that waits for it |
| Supervisor.AtMostOneLive | cmd/singbox-deploy-agent/monitor.go:79-179 | under every interleaving at most one sampler is live |
| Supervisor.NothingAfterStop | cmd/singbox-deploy-agent/monitor.go:231-237 | once a stop returned no sampler is live, nothing is published and no run ever starts |
| Supervisor.TimersFireOnce | cmd/singbox-deploy-agent/monitor.go:246-286 | a cancelled or replaced timer never leads to a reload and none leads to two |
| Supervisor.ReadersSeeOpenStores | cmd/singbox-deploy-agent/monitor.go:311-322 | a request served from a published run never sees its store closed while the process is not ending |
| Supervisor.WaitDescends | cmd/singbox-deploy-agent/monitor.go:288-309 | whoever waits, waits for someone strictly lower in one order; a holder of mu waits for nothing |
| Supervisor.NoDeadlock | cmd/singbox-deploy-agent/monitor.go:79-309 | in every reachable state each wait ends at a goroutine that can step and waits for nobody, a pending writer counted as keeping readers out |
| CoreReplace.Manager.ReplaceWithTag | internal/core/manager.go:115-136 | whatever fails or dies, the managed path holds the whole old binary or the whole binary of the checked archive, which reports the tag; short of a committed change the old bytes are installed or backed up; an earlier backup is kept if it is seen, and otherwise gone if the cleanup works. When nothing fails by itself, it succeeds exactly if the tag is valid, the binary genuine, one is installed, no backup exists or hides, and nothing is cancelled, and a cancellation before the restart leaves the old binary |
| CoreReplace.TagForms | internal/core/manager.go:341-350 | space around a tag and a missing v make no difference |
| CoreReplace.Manager.Download | internal/core/manager.go:159-194 | an earlier backup that is seen is kept and ends the change; without one it goes on whenever nothing fails |
| CoreReplace.Manager.Prepare | internal/core/manager.go:195-224 | nothing but the candidate is written, and it goes on only with the archive's whole binary, reporting the tag |
| CoreReplace.Manager.Secure | internal/core/manager.go:225-237 | the mutation starts only over a backup equal to the installed bytes |
| CoreReplace.Manager.Mutate | internal/core/manager.go:238-262 | from the stop on, the old binary or the candidate is installed and a rollback is possible, or the change is committed with the candidate in place |
| CoreReplace.Manager.Rollback | internal/core/manager.go:265-288 | success restores the backup's bytes; any failure keeps the backup |
| MutationGate.NextInv | cmd/singbox-deploy-agent/handler.go:1143-1177 | each step keeps one token in all and no body running once something is pending |
| MutationGate.GateExcludes | cmd/singbox-deploy-agent/handler.go:1143-1177 | tokens in the gate plus handlers holding one are always exactly one, bodies never overlap, none runs once a restart or shutdown is pending |
| MutationGate.PendingForever | cmd/singbox-deploy-agent/handler.go:1163-1169 | a committed upgrade or uninstall is final: no later body ever runs |
| MutationGate.PendingMeansCommitted | cmd/singbox-deploy-agent/handler.go:1057-1177 | over any run each flag is set exactly if it was or a body committed to an upgrade, or an uninstall |
| MutationGate.CommitIsFinal | cmd/singbox-deploy-agent/handler.go:1057-1177 | once a body has committed no body ever runs again, whoever waits or comes later |
| MutationGate.HoldingDecides | cmd/singbox-deploy-agent/handler.go:1157-1172 | with the token, a handler runs its body if and only if it is not cancelled and neither flag is set; otherwise the token goes back |
| MutationGate.WaitingGetsItsTurn | cmd/singbox-deploy-agent/handler.go:1143-1177 | while nothing is pending a waiting handler can always come to run its body |
| MutationGate.RequestGetsItsTurn | cmd/singbox-deploy-agent/handler.go:1143-1177 | and so can a request that only arrives |
| MutationGate.CancelledGoes | cmd/singbox-deploy-agent/handler.go:1151-1162 | a cancelled request that has not begun its body leaves at its next step or gives the token back |
| MutationGate.TokenComesBack | cmd/singbox-deploy-agent/handler.go:1175-1177 | a token that is out has a holder whose remaining steps put it back |
| AgentUpgrade.Agent.BackUp | cmd/singbox-deploy-agent/handler.go:1349-1421 | partial reads and writes included, a copy is put in place whole or not at all, even when it then reports failure |
| AgentUpgrade.Agent.Replace | cmd/singbox-deploy-agent/handler.go:1261-1328 | a failed replacement leaves the executable unless its rename took effect and reported failure; a done one has the old bytes in the backup and reports the requested version |
| AgentUpgrade.Agent.Restore | cmd/singbox-deploy-agent/handler.go:1332-1347 | every failure keeps the backup until the executable is good |
| AgentUpgrade.Agent.Upgrade | cmd/singbox-deploy-agent/handler.go:1000-1060 | after a failed upgrade the running binary is in place, or backed up with the duty to restore it first, unless the rename of another one takes effect and reports failure; a scheduled one leaves the requested binary and the former one backed up. When nothing else fails, a genuine request is scheduled exactly if that rename does not lie; if it lies, the new binary is in place without backup or pending restore |
| AgentUpgrade.Agent.Retry | cmd/singbox-deploy-agent/handler.go:1011-1016 | an upgrade that succeeds after a failed one backs up the running binary and not the failed one, exactly unless the failed one's rename misreported; with such a rename and nothing else failing the failed one is what gets backed up |
| AgentUpgrade.Agent.AcceptableMeans | internal/nodeapi/types.go:795-826 | a request is acceptable exactly with a version of 1 to 128 visible characters and a non-empty executable of at most 64 MiB with the given digest |
| Reconfigure.PortKeyInjective | internal/deploy/orchestrator.go:272-274 | two managed ports share a key only if they are one port |
| Reconfigure.FirewallPortsMean | internal/deploy/config.go:236-269 | the ports of a configuration: its enabled protocols' over their transport, the hub's own, the web server's and the overlay's |
| Reconfigure.NothingIssued | internal/system/firewall.go:83-111 | nothing is issued, not even a reload, exactly without a positive port or a firewall |
| Reconfigure.FirewallPortChanges | internal/deploy/orchestrator.go:250-270 | added is what only the new configuration opens, stale what only the old one did |
| Reconfigure.FirewallCommands | internal/system/firewall.go:83-111 | the loop builds one command per positive port and a reload if there is any for firewalld |
| Reconfigure.PrefixCovers | internal/deploy/fileutil.go:54-61 | however far the commands get, ports outside a closing stay open, now and after a reload |
| Reconfigure.PrefixBounded | internal/deploy/fileutil.go:54-61 | and nothing beyond the named ports is opened |
| Reconfigure.AllCommands | internal/system/firewall.go:83-111 | all commands together open or close exactly the given ports |
| Reconfigure.Node.Activate | internal/deploy/orchestrator.go:202-222 | the new configuration runs, or the old one again, or it is known to be uncertain; with the old one running config.json is its own exactly unless the rename lies |
| Reconfigure.Node.Reconfigure | internal/deploy/orchestrator.go:162-241 | at every exit the ports of whatever may run are open; full success turns exactly the old ports into exactly the new; a failure before activation with a clean cleanup leaves the rules as they were, and config.json unless the rename lies. When nothing else fails it succeeds exactly if the configuration loads and the rename does not lie; if it lies, the old configuration runs over the new file |
| Relay.Validate | internal/relaylinks/relaylinks.go:258-319 | accepts a link if and only if it is sound and compatible with every other entry |
| Relay.SoundLinkMeans | internal/relaylinks/relaylinks.go:258-294 | a link by itself: two different nodes, at least one forward, each a relayed protocol over its network, no protocol and no port twice |
| Relay.CompatibleMeans | internal/relaylinks/relaylinks.go:296-318 | two links together: no node fronted twice or both relay and landing node, and no port of one relay in both |
| Relay.FitsIfSound | internal/relaylinks/relaylinks.go:258-319 | a link is accepted whenever a registry with it in its landing node's place would be sound |
| Relay.StoredIDsAreNormal | internal/relaylinks/relaylinks.go:115-129 | the registry holds IDs in normal form |
| Relay.Registry.Set | internal/relaylinks/relaylinks.go:115-129 | a link is stored if and only if it fits the others, replacing only its landing node's own; the registry stays sound |
| Relay.Registry.Remove | internal/relaylinks/relaylinks.go:133-143 | exactly the landing node's link goes |
| Relay.OneHop | internal/relaylinks/relaylinks.go:8-13 | no relay is itself fronted |
| Relay.PortsLeadToOneLanding | internal/relaylinks/relaylinks.go:302-318 | a port a relay answers on leads to one landing node |
| Relay.RelayConfigFor | internal/hubctl/relay.go:178-227 | refused if and only if the landing node of one of the relay's links is not in the fleet or has no domain; otherwise the entries of its links, each once and in registry order |
| Relay.EndpointFound | internal/hubctl/relay.go:77-85 | an ID finds the first fleet member of that ID, in any case, and nothing exactly if there is none |
| Relay.PortFound | internal/hubctl/relay.go:67-74 | a protocol is found on the first positive port listed for it, and not at all exactly if there is none |
| Relay.OwedJoin | internal/relaylinks/relaylinks.go:190-204 | a relay's links are those of the registry that name it, each once, in order |
| Relay.EntriesJoin | internal/hubctl/relay.go:187-224 | and so are the entries they contribute |
| Relay.EntrySays | internal/hubctl/relay.go:187-224 | a link has an entry exactly if its landing node is known, within quota and serves one of its protocols; it names that node, its domain and address, and has in order one rule per served forward to the port it is served on |
| Relay.EntryMeans | internal/hubctl/relay.go:187-224 | an entry names its landing node and host and has one rule per forward still served |
| Relay.RelayTopology | internal/hubctl/relay.go:252-311 | one entry per link, named after its landing node, forwarding exactly if that is known, has an address and serves a protocol of the link and neither end is out of quota, or the fleet is unknown; otherwise with a reason that is true |
| Relay.SourceNames | internal/hubctl/relay.go:232-238 | every stored ID but the hub's is its own name on the dashboard |
| Relay.ServesAny | internal/hubctl/relay.go:316-323 | true if and only if some forward has a rule |
| Relay.RelayRewrites | internal/hubctl/relay.go:388-417 | for any list of links, the map of their rewrites, a later link of the same landing node replacing an earlier one's |
| Relay.RewriteSays | internal/hubctl/relay.go:388-417 | a link is published exactly if it stands and its relay is known, installed and named; then the landing node's domain is rewritten to the relay's, and each port it serves a protocol on to the relay port of the last such forward |
| Relay.SoundRegistryPublishes | internal/hubctl/relay.go:388-417 | in a sound registry each landing node gets exactly its own link's rewrite and no other node any |
| Relay.ForwardingIsInRuleset | internal/hubctl/relay.go:178-311 | a link shown as forwarding is in its relay's ruleset whenever there is one |
| Relay.PublishedMeansForwarding | internal/hubctl/relay.go:286-417 | a link is published if and only if it is forwarding and its relay is known, installed and named |
| Relay.PublishedPortsAreRules | internal/hubctl/relay.go:404-411 | every published port pair is one of the landing node's rules |
| Relay.OwnPortPublished | internal/hubctl/relay.go:404-411 | a protocol's clients get its own relay port exactly when no later forward shares its target number |
| Relay.DistinctTargetsPublish | internal/hubctl/relay.go:404-411 | with pairwise distinct target numbers every forward still served is published with its own relay port |
| Relay.SharedTargetMisleads | internal/hubctl/relay.go:404-411 | why the numbers have to be distinct, as deploy/config.go keeps them: of two protocols on one number only the later one's relay port is published |
| Registry.ValidateUnique | internal/nodes/nodes.go:467-508 | the loop rejects exactly a candidate that clashes with some other entry, unchanged aliases unchecked |
| Registry.ConflictMeans | internal/nodes/nodes.go:476-508 | two nodes are ambiguous exactly if they share an ID, host, domain, alias, subscription alias, overlay address or key, an alias being the first name given |
| Registry.NamesMean | internal/nodes/nodes.go:560-573 | hosts are one if spelled alike in any case or both the same address, domains if spelled alike; a dot behind makes no difference |
| Registry.OtherSpellings | internal/nodes/nodes.go:560-573 | nor does space, or brackets around an address |
| Registry.UncheckedAliasIsSafe | internal/nodes/nodes.go:470-475 | against a distinct registry, not rechecking an unchanged alias loses nothing |
| Registry.SavingKeepsNames | internal/nodes/nodes.go:653-704 | trimming on save changes no alias, host, domain or ID comparison |
| Registry.SaveCandidate | internal/nodes/nodes.go:653-704 | what is written is distinct if and only if the candidate's trimmed address and key are free |
| Registry.UntrimmedAddressSlipsThrough | internal/nodes/nodes.go:498-503 | a registered address with a space behind it is accepted and saved as the registered one |
| Registry.NormalizeNodeIDs | internal/nodes/nodes.go:433-450 | gives every entry a normal ID, or fails if and only if two would share one |
| Registry.MigrationKeeps | internal/nodes/nodes.go:433-450 | an entry keeps the ID it has in normal form, and everything else; only a blank one gets a new ID |
| Registry.WithIDsSound | internal/nodes/nodes.go:433-450 | migrating IDs keeps the registry distinct |
| Registry.Store.Add | internal/nodes/nodes.go:191-211 | appended if and only if nobody conflicts; distinct afterwards if and only if the trimmed address is free |
| Registry.Store.Update | internal/nodes/nodes.go:215-247 | the matching entry is replaced if and only if nobody else conflicts |
| Registry.MatchesOne | internal/nodes/nodes.go:215-247 | an update addresses exactly one entry: the one with its ID, or without an ID the one at its address |
| Registry.Store.Mutate | internal/nodes/nodes.go:255-291 | stored if and only if the list is readable, the ID is there, the callback succeeds and keeps it, and nobody conflicts; the current value is then changed under its own ID |
| Registry.Store.Remove | internal/nodes/nodes.go:355-379 | succeeds if and only if the list is readable; the entry with the ID goes, or if there is none the first with that overlay address, and nothing else; the rest stays distinct |
| Registry.Store.Reorder | internal/nodes/nodes.go:386-422 | the requested IDs first in order, the rest in their old order, a permutation; refused if and only if an ID is blank, repeated or unknown |
| Registry.UnlistedJoin | internal/nodes/nodes.go:408-422 | the entries not asked for keep their order |
| AliasLabeler.NumbersDiffer | internal/hubctl/subscriptions.go:281-287 | no two numbers of an alias share a key |
| AliasLabeler.Pigeonhole | internal/hubctl/subscriptions.go:281-287 | a finite taken set cannot hold every number's key |
| AliasLabeler.Labeler.Distinct | internal/hubctl/subscriptions.go:271-288 | terminates; a free alias comes back unchanged, a taken one with the least free number; its key was free and is taken now |
| AliasLabeler.Labeler.DistinctAll | internal/hubctl/subscriptions.go:258-288 | over any calls the labels' keys differ from each other and from every reserved name |

## Left out

- SQL text, the SQLite driver and its integer overflow: a table is a list of rows, a transaction one atomic step, byte counts unbounded integers except where a range check refuses them.
- SQL leaves ties in the two rankings open: pruning breaks them by the address, the top list by insertion.
- The calendar starts with year 1 and `now` lies after its first month, so that a month can be stepped back; a reset day so far below 1 that the next reset would lie before year 1 is not modelled.
- Unix timestamps are non-negative; calendar times count from year 1, and differ from Unix time by whole days.
- Letter case and white space are ASCII; net.ParseIP, netip.ParseAddr, semver.IsValid, SHA-256 and random IDs are parameters.
- Floating-point rounding: percentages and their averages are exact reals.
- 64-bit wrap-around of kernel counters.
- A node-wide and a per-address sample are separate rows in separate tables; that the two histories agree with each other is not claimed.
- Calendar.CycleBracketsNow: stated for reset days 1 to 28, which manage.go enforces; for 29 to 31 the exact conditions are CycleStartExactly and NextCycleResetExactly.
- TrafficStore.Store.ReplaceCurrentTrafficUsage: usage and package are two transactions in the source, so a failure may leave the usage applied; no atomicity is claimed.
- Supervisor.NothingAfterStop: is about live samplers; the store handle of a run that ended by itself may still be closing when the next one opens.
- FleetCore.ChangeFleetCore: progress events, the hub-side archive cache and the health records kept beside the versions are not modelled; versions change only through the requests shown.
- CoreReplace.Manager.Prepare: the checksum and configuration checks are steps that pass or fail.
- The status-only update of a spoke, alias conflict previews and per-protocol credential fields: easy field-by-field facts.
- Choosing the random relay ports of a new link, and dropping all links of a node that leaves the fleet.
- Relay firewall withdrawal, relay quota probing and latency probes.
- HTTP routing, SSH bootstrap, ACME, the TUI, dashboard assets, Nginx and systemd templates.
