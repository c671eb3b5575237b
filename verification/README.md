# A verified model of the OpenLDAP exporter's stateful core

The exporter scrapes an OpenLDAP server through a pooled, breaker-protected client, follows the
server's accesslog incrementally, turns gauges into Prometheus counters, limits its HTTP clients
and watches replication peers. This project models the components of that program that carry
state and proves what they promise over every run, or over every interleaving where goroutines
share memory.

| files | component | form |
|---|---|---|
| `Pool`, `PoolInvariant`, `PoolTheorems`, `PoolOutcomes`, `PoolProgress` | LDAP connection pool and `runSearch` | one step per atomic add, load, compare-and-swap, channel send and receive; any number of goroutines, any schedule |
| `CircuitBreaker`, `BreakerRuns` | circuit breaker | a class proved against functions on its snapshot; runs of admission checks and results of overlapping calls |
| `Accesslog`, `AccesslogScan`, `EventMeanings`, `ScanRuns` | accesslog cursors and the two consumers | classes with the source's loops; runs of appends, searches and failures |
| `Counters`, `CounterInvariant`, `CounterTheorems`, `CounterTimes`, `CounterProgress` | delta counters and their cleanup | one step per mutex, flag, entry and map action; any schedule |
| `SeriesTracker`, `SeriesRuns` | capped, swept label-tuple tracker | a class; runs of increments and sweeps |
| `RateLimiter` | token buckets | a class; runs of requests and cleanups, exact reals |
| `Replication`, `ReplicationRuns` | replication peer poller | a class; runs of reconcile and poll rounds |
| `GeneralizedTime`, `RawTimeOrder`, `Strings` | the two timestamp normalisations, Go's string order on normalised and raw timestamps | functions, and the padding loop of the CSN parser |

How the parts fit together: each class method is proved equal to a function on the object's
state, the runs are sequences of those functions, and the theorems are about the runs. Where a
theorem counts something (admissions in a half-open period, a failure streak, increments since an
eviction), the count is defined from the events and what a caller can observe, not from the
counter it is compared with. Beside what every step keeps, the `Progress` modules say what Get, Put,
Discard, a maintenance tick, Close and a counter update achieve when they run alone. `hide` statements in proofs only limit what the verifier looks at.

Times are integers (nanoseconds, or epochs for CSNs) or exact reals (minutes, for the token
bucket); counters and tokens are exact. Dial, search, ping and context outcomes, clock readings,
map iteration order and the order in which concurrent answers arrive are arbitrary.

## Where the code differs from its comments, or from what one would expect

- `pkg/exporter/collectors_accesslog.go:41-44` says the scan asks for entries strictly above the
  cursor; the filter is inclusive (`pkg/accesslog/accesslog.go:117-122`). The model is inclusive.
- The comment on `ShouldEmit` (`pkg/accesslog/accesslog.go:132-135`) says an entry is emitted when
  it is strictly greater than the cursor; the code emits whenever it differs from the cursor. Both
  agree only because the server returns nothing below it, which `ScanRuns.ExactlyOnce` assumes
  and uses.
- The scan compares raw `reqStart` strings; only event timestamps are normalised
  (`pkg/accesslog/accesslog.go:279-280`). `RawTimeOrder.RawOrderIsTimeOrderIff` says exactly when
  that order is time order: it is not when two stamps of the same second differ only by further
  fraction digits.
- `pkg/csn/csn.go:25-26` speaks of one to six fraction digits; the code accepts any number. The
  slice on line 36 is out of bounds for exactly the timestamps that have a `Z` before their first
  dot (`GeneralizedTime.CsnOutcome`; every text of that shape, `Z.` being the shortest, is an input:
  `GeneralizedTime.EarlyZFaults`).
- `ForceOpen` restarts neither the timeout nor the success count, and neither does the close after
  a recovery. `BreakerRuns.OpenAdmitsAfterLatestFailure` and `BreakerRuns.PeriodObeysThresholdIff`
  say exactly what follows: a half-open period closes on its SuccessThreshold-th success if and
  only if no success was carried into it (or the threshold is one), which is the case when the
  success counter read 0 at the moment of ForceOpen.
- The token bucket's window bound fails whenever rate*interval < burst
  (`RateLimiter.WindowsBoundedIff`); with the ten-minute interval, a burst above ten times the rate
  is enough.

## Model

| member | source | states |
|---|---|---|
| `PoolTheorems.NextKeeps` | pkg/pool/pool_operations.go:15-271 | every atomic action of Get, Put, Discard, runSearch, maintenance and Close, by any goroutine, keeps the pool invariant |
| `PoolTheorems.SlotConservation` | pkg/pool/pool_operations.go:217-243 | in every reachable state activeConns is the dials in progress, plus the dialled connections whose socket is open, plus the teardowns whose slot is not given back yet, and at most maxConnections; poolSize, corrected for adds not yet run, is the channel length |
| `PoolTheorems.ExclusiveOwnership` | pkg/pool/pool_operations.go:130-172 | every connection whose socket is open is in the channel once or in the local variables of exactly one goroutine, never both; nothing pooled is flagged broken or closed |
| `PoolTheorems.HandIsVariables` | pkg/pool/pool_operations.go:15-172 | the history of owned connections used in the proofs is exactly what a goroutine's program point and pending teardown mention |
| `PoolTheorems.SendNeverFindsChannelFull` | pkg/pool/pool_operations.go:107-117 | the send of Put and the reinsertion of maintenance always find room, so both fall-back closes are dead code |
| `PoolTheorems.QuiescentPoolLeaksNothing` | pkg/pool/pool_connections.go:223-240 | once every goroutine rests, both counters equal the channel length and the open connections are exactly the pooled ones |
| `PoolTheorems.SearchReturnsEveryConnection` | pkg/pool/pooled_client.go:238-265 | runSearch calls Get at most twice, each Get gives exactly one of connection and error, and at its end it holds no connection or slot and has handed back every connection exactly once; the code after Get's loop is never reached |
| `PoolOutcomes.SearchEndsAsItWent` | pkg/pool/pooled_client.go:238-265 | once runSearch has returned: exactly the connections whose search ended in a network error were discarded, all others were put back, there was a second Get exactly when the first search ended in a network error, and the result is returned exactly when the last search succeeded, else its error or that of Get |
| `PoolTheorems.StaleReturnIsNoOp` | pkg/pool/pool_operations.go:58-79 | in every interleaving a Put or Discard of a connection its caller discarded earlier moves only the caller |
| `PoolTheorems.ReturningADiscardedConnection` | pkg/pool/pool_operations.go:58-79 | a goroutine that returns any connection it ever discarded, by Put or Discard, leaves the whole state as it was |
| `PoolTheorems.LatePutNeverPools` | pkg/pool/pool_operations.go:90-93 | a Put that begins after the pool was closed never reaches its send |
| `PoolTheorems.SealedForever` | pkg/pool/pool.go:149-185 | once closed and drained with no goroutine past its closed check, the channel stays empty whatever runs afterwards |
| `PoolProgress.GetOnClosedPoolFails` | pkg/pool/pool_operations.go:19-22 | Get on a closed pool ends with an error at once |
| `PoolProgress.GetTakesPooled` | pkg/pool/pool_operations.go:134-172 | alone on an open pool, Get takes the oldest pooled connection if it is usable |
| `PoolProgress.UnusableIsClosed` | pkg/pool/pool_operations.go:158-162 | a pooled connection that is not usable is closed, its slot is given back, and Get goes on (or gives up after waiting) |
| `PoolProgress.GetDialsWhenThereIsRoom` | pkg/pool/pool_operations.go:217-243 | with nothing pooled and room, Get reserves a slot and gives the dialled connection; a failed dial gives the slot back and ends Get with an error |
| `PoolProgress.GetWaitsWhenThereIsNone` | pkg/pool/pool_operations.go:24-47 | with the budget spent and nothing pooled, Get tries three times and then waits |
| `PoolProgress.DoneContextEndsGet` | pkg/pool/pool_operations.go:30-32 | a done context ends Get with an error between attempts, while waiting and during the delay |
| `PoolProgress.WaitingGetTakesTheNext` | pkg/pool/pool_operations.go:249-271 | a waiting Get stays until a connection is pooled and receives it |
| `PoolProgress.PutPools` | pkg/pool/pool_operations.go:69-111 | Put appends a usable connection of an open pool to the channel |
| `PoolProgress.PutCloses` | pkg/pool/pool_operations.go:90-105 | Put closes a connection that is not usable, or any once the pool is closed, and gives its slot back |
| `PoolProgress.DiscardCloses` | pkg/pool/pool_operations.go:58-66 | Discard flags the connection, closes it and gives its slot back |
| `PoolProgress.TickKeepsTheUsable` | pkg/pool/pool_maintenance.go:40-76 | a maintenance tick alone leaves exactly the usable pooled connections, in order, closes all others and gives their slots back |
| `PoolProgress.MaintenanceEndsOnClose` | pkg/pool/pool_maintenance.go:22-32 | on a closed pool the maintenance goroutine ends instead of ticking |
| `PoolProgress.CloseDrainsThePool` | pkg/pool/pool.go:149-185 | Close empties the channel, closes every pooled connection and gives all their slots back |
| `CircuitBreaker.CircuitBreaker.constructor` | pkg/circuitbreaker/circuitbreaker.go:102-134 | positive settings are kept, every other one gets its default, and the breaker starts closed with zero counters |
| `CircuitBreaker.CircuitBreaker.CheckCanExecute` | pkg/circuitbreaker/circuitbreaker.go:159-179 | the admission step: its answer and its whole effect on the state |
| `CircuitBreaker.CircuitBreaker.CanExecute` | pkg/circuitbreaker/circuitbreaker.go:188-226 | the admission decision in each state, with age-out, the move to half-open and the probe count |
| `CircuitBreaker.CircuitBreaker.RecordResult` | pkg/circuitbreaker/circuitbreaker.go:229-244 | the result step: a half-open probe gives its slot back, then the outcome counts |
| `CircuitBreaker.CircuitBreaker.OnFailure` | pkg/circuitbreaker/circuitbreaker.go:247-270 | a failure in each state |
| `CircuitBreaker.CircuitBreaker.OnSuccess` | pkg/circuitbreaker/circuitbreaker.go:273-293 | a success in each state |
| `CircuitBreaker.CircuitBreaker.SetState` | pkg/circuitbreaker/circuitbreaker.go:297-321 | a change of state, clearing the probe count when half-open is left |
| `CircuitBreaker.CircuitBreaker.Reset` | pkg/circuitbreaker/circuitbreaker.go:348-367 | a manual reset |
| `CircuitBreaker.CircuitBreaker.ForceOpen` | pkg/circuitbreaker/circuitbreaker.go:432-450 | a forced opening, which leaves successes and the last failure time alone |
| `BreakerRuns.HalfOpenAdmissionBound` | pkg/circuitbreaker/circuitbreaker.go:188-293 | in every run one half-open period admits at most 2*SuccessThreshold-1 calls and the probe count stays within 0 and SuccessThreshold, even with ForceOpen, Reset and late results |
| `BreakerRuns.HalfOpenAdmissionBoundIsReached` | pkg/circuitbreaker/circuitbreaker.go:212-221 | for every configuration some run of nothing but whole calls (no result without its own earlier admission, no ForceOpen or Reset, clock never back) reaches that bound |
| `BreakerRuns.PeriodAccounting` | pkg/circuitbreaker/circuitbreaker.go:229-244 | admissions of a period never exceed probes in flight plus successes recorded in it |
| `BreakerRuns.SuccessCounter` | pkg/circuitbreaker/circuitbreaker.go:273-293 | without ForceOpen the success counter is the number of successes recorded in the current half-open period |
| `BreakerRuns.SuccessLedger` | pkg/circuitbreaker/circuitbreaker.go:247-293 | in every run, ForceOpen and Reset included, the success counter is the half-open successes since the latest failure or reset: those of the period plus those carried into it |
| `BreakerRuns.ClosesExactlyWhen` | pkg/circuitbreaker/circuitbreaker.go:281-289 | in every run a half-open breaker closes by itself exactly on a success with which the period's successes and the carried ones reach SuccessThreshold |
| `BreakerRuns.PeriodObeysThresholdIff` | pkg/circuitbreaker/circuitbreaker.go:273-293 | a half-open period closes exactly on its SuccessThreshold-th success, however it goes on, if and only if nothing was carried into it or the threshold is one |
| `BreakerRuns.NothingCarried` | pkg/circuitbreaker/circuitbreaker.go:247-270 | without ForceOpen nothing is ever carried into a period |
| `BreakerRuns.ClosesExactlyOnThreshold` | pkg/circuitbreaker/circuitbreaker.go:281-289 | without ForceOpen a half-open breaker closes by itself exactly on the SuccessThreshold-th success of the period |
| `BreakerRuns.FailureCounter` | pkg/circuitbreaker/circuitbreaker.go:191-201 | while closed the failure counter is the length of the unbroken failure streak, and below MaxFailures |
| `BreakerRuns.OpensExactlyOnStreak` | pkg/circuitbreaker/circuitbreaker.go:247-270 | a closed breaker opens exactly on the failure that completes a streak of MaxFailures |
| `BreakerRuns.OpensExactlyAfterUnbrokenFailures` | pkg/circuitbreaker/circuitbreaker.go:191-270 | the same about stretches of events: MaxFailures failures with no success, close, reset or age-out between them, every check in between less than Timeout after the latest failure |
| `BreakerRuns.NoAdmissionBeforeTimeout` | pkg/circuitbreaker/circuitbreaker.go:203-210 | without ForceOpen and Reset no call is admitted less than Timeout after any opening, however many late failures arrive |
| `BreakerRuns.OpeningSpacing` | pkg/circuitbreaker/circuitbreaker.go:247-270 | consecutive openings are at least Timeout apart |
| `BreakerRuns.OpeningsInWindow` | pkg/circuitbreaker/circuitbreaker.go:203-270 | a window of length w holds at most w/Timeout + 1 openings |
| `BreakerRuns.RequestsAccounted` | pkg/circuitbreaker/circuitbreaker.go:159-179 | over any run the request counter is the admitted plus the blocked calls, and the failure counter the failures recorded |
| `BreakerRuns.OpenAdmitsAfterLatestFailure` | pkg/circuitbreaker/circuitbreaker.go:203-210 | an open breaker, however it was opened, admits a call and goes half-open exactly when now minus the time of the latest failure recorded in any state is at least Timeout (or no failure was ever recorded) |
| `BreakerRuns.ClosedCheckAgesOut` | pkg/circuitbreaker/circuitbreaker.go:191-201 | a check on a closed breaker is admitted and leaves the failure count exactly when the latest failure lies less than Timeout back, else sets it to 0 |
| `BreakerRuns.ResetCloses` | pkg/circuitbreaker/circuitbreaker.go:348-367 | Reset closes the breaker from any state with an empty slate, and the next call is admitted |
| `BreakerRuns.ChangesCounted` | pkg/circuitbreaker/circuitbreaker.go:297-321 | over any run the change counter is the changes of state plus the resets of a closed breaker |
| `BreakerRuns.ForceOpenDoesNotRestartTimeout` | pkg/circuitbreaker/circuitbreaker.go:432-450 | after forcing the breaker open in any state, a call at any later reading is admitted exactly when Timeout has passed since the latest failure, not since the opening |
| `BreakerRuns.ForceOpenKeepsSuccesses` | pkg/circuitbreaker/circuitbreaker.go:432-450 | the next half-open period inherits the success counter as it was at the ForceOpen, and obeys the threshold if and only if that was zero or the threshold is one |
| `BreakerRuns.RecoveredBreakerClosesEarly` | pkg/circuitbreaker/circuitbreaker.go:281-289 | a breaker that closed by itself and is then forced open closes again on the very first success of its next period |
| `Accesslog.CursorState.constructor` | pkg/accesslog/accesslog.go:73-80 | all three streams start at the same clock reading, not ready |
| `Accesslog.CursorState.Advance` | pkg/accesslog/accesslog.go:99-111 | the stream gets the maximum and becomes ready, the others are untouched |
| `Accesslog.FilterIsInclusive` | pkg/accesslog/accesslog.go:117-122 | the incremental filter, with or without a cursor, selects the entries at or above the cursor, the cursor included |
| `Accesslog.ShouldEmitStep` | pkg/accesslog/accesslog.go:139-154 | the emission rule folded over a result: which entry is new, and the running maximum over every entry, skipped ones included |
| `Accesslog.HighestIsMaximum` | pkg/accesslog/accesslog.go:139-154 | the cursor's new value is an attained upper bound of all returned reqStarts and the old cursor, whatever their order |
| `Accesslog.TouchedAttributes` | pkg/accesslog/accesslog.go:193-214 | the nested loops with a seen set compute the attribute names of the reqMod values, first occurrences kept |
| `Accesslog.TouchedExactly` | pkg/accesslog/accesslog.go:193-214 | a name is listed exactly when some reqMod value names it before a colon, and once |
| `AccesslogScan.EventCollector.ScanBinds` | pkg/events/collector.go:78-123 | emitted bind events, their count and the cursor, as functions of the result; a failed search changes nothing |
| `AccesslogScan.EventCollector.ScanWrites` | pkg/events/collector.go:125-218 | the events are the concatenation in returned order of a per-entry list, the count is its length, the cursor is the maximum over all returned entries |
| `AccesslogScan.EventCollector.EmitWrite` | pkg/events/collector.go:147-213 | the events of one write entry: none if rejected or unknown, else the write event plus the derived ones |
| `AccesslogScan.EventCollector.ScanLocks` | pkg/events/collector.go:220-272 | the same for the lock stream, with lock and unlock told apart |
| `AccesslogScan.EventCollector.Scan` | pkg/events/collector.go:54-76 | one tick: the streams in order up to the first failing one; later streams keep their cursors |
| `AccesslogScan.MetricCollector.CollectBinds` | pkg/exporter/collectors_accesslog.go:84-122 | label tuples counted for binds, their number and the cursor |
| `AccesslogScan.MetricCollector.CollectWrites` | pkg/exporter/collectors_accesslog.go:125-164 | the same for writes |
| `AccesslogScan.MetricCollector.CollectLocks` | pkg/exporter/collectors_accesslog.go:168-211 | the same for lock events |
| `AccesslogScan.MetricCollector.Collect` | pkg/exporter/collectors_accesslog.go:45-81 | one scrape: each stream moves and counts by its own answer alone |
| `AccesslogScan.EventsTraceBack` | pkg/events/collector.go:139-214 | every emitted event belongs to a new entry, and every event of every new entry is emitted |
| `AccesslogScan.PasswordChangeMeans` | pkg/events/collector.go:186-199 | a password change is announced exactly for an accepted modify with a reqMod value about userPassword or pwdChangedTime |
| `EventMeanings.LockMeans` | pkg/events/collector.go:242-257 | a lock entry announces a lock exactly when accepted with a reqMod value name:+ or name:= for pwdAccountLockedTime in any case of letters, an unlock exactly when accepted without one, and nothing else |
| `EventMeanings.WriteMeans` | pkg/events/collector.go:151-211 | which of the four write events and of the required reset a write entry announces, in terms of its result code, request type and reqMod values |
| `EventMeanings.BindMeans` | pkg/events/collector.go:100-119 | every bind announces one event, a success exactly for result code 0 |
| `EventMeanings.EventsCarry` | pkg/events/collector.go:106-267 | what every event of every stream carries of its entry: start, session, actor without the dn: prefix, the DN as target of a write and user of anything else, operation and attributes of writes, result of binds |
| `EventMeanings.AdditionMeans` | pkg/accesslog/accesslog.go:221-246 | the addition test holds exactly when some reqMod value is name, colon, + or =, the name being the attribute up to case |
| `EventMeanings.ReqModsAre` | pkg/accesslog/accesslog.go:223-227 | the values looked at are all values of all attributes named reqMod |
| `EventMeanings.AttrIsFirstValue` | pkg/accesslog/accesslog.go:158-165 | the attribute read is the first value of the first attribute of that name that has one |
| `EventMeanings.UserNameMeans` | pkg/accesslog/accesslog.go:176-188 | the user name of a DN is the value of its first RDN |
| `EventMeanings.CountedMeans` | pkg/exporter/collectors_accesslog.go:104-206 | a new entry is counted at most once, exactly when it names a user (and has a type, or locks), under exactly its vector's labels |
| `ScanRuns.ExactlyOnce` | pkg/accesslog/accesslog.go:83-154 | over any run of appends, scans and failures, a stream treats as new exactly the entries present at its last successful scan above the cursor left by its first, each once, for both consumers |
| `ScanRuns.CursorNeverMovesBack` | pkg/accesslog/accesslog.go:99-111 | cursors never move back and a stream that left its baseline never returns to it |
| `ScanRuns.FailedTickLeavesNoTrace` | pkg/events/collector.go:54-76 | in both consumers a tick that does not reach a stream, or whose search fails, can be deleted from a run without changing that stream's cursor or deliveries |
| `ScanRuns.MetricStreamsAreIndependent` | pkg/exporter/collectors_accesslog.go:56-78 | over whole runs each stream of the metric collector ends the same whatever happens to the other two |
| `ScanRuns.ScanIsTheCollectors` | pkg/events/collector.go:54-123 | the runs' step is what the collectors' methods do to a bookmark, and what it calls delivered is what they turn into events and label tuples |
| `GeneralizedTime.NormalizeCsn` | pkg/csn/csn.go:30-43 | the padding loop and the cut of the CSN parser compute the normal form, with the missing-Z error and the slice fault |
| `GeneralizedTime.CsnOutcome` | pkg/csn/csn.go:30-36 | the slice faults if and only if a 'Z' precedes the first dot; the missing-suffix error is returned if and only if there is a dot and no 'Z' |
| `GeneralizedTime.EarlyZFaults` | pkg/csn/csn.go:36 | every text with a 'Z' before its first dot faults, "Z." for one |
| `GeneralizedTime.NormalisationsAgree` | pkg/accesslog/accesslog.go:310-340 | on every 14-digit timestamp with a fraction of any length both normalisations give the same string of 22 characters with six fraction digits, and both are idempotent |
| `GeneralizedTime.WithoutFraction` | pkg/accesslog/accesslog.go:321-327 | a value without a fraction is left alone by both normalisations |
| `GeneralizedTime.WithoutZ` | pkg/accesslog/accesslog.go:336-339 | a fraction without a final Z is normalised without adding one |
| `GeneralizedTime.StringOrderIsTimeOrder` | pkg/accesslog/accesslog.go:310-340 | on the normal form, string comparison is calendar order down to truncated microseconds |
| `GeneralizedTime.MicrosecondsTruncate` | pkg/accesslog/accesslog.go:328-335 | the six digits kept are the fraction of a second rounded down to whole microseconds |
| `RawTimeOrder.RawOrderIsTimeOrderIff` | pkg/accesslog/accesslog.go:139-154 | the raw comparison agrees with exact time order, both ways round, if and only if it is not the case that both stamps name the same second and one fraction is a proper prefix of the other |
| `RawTimeOrder.FixedWidthAgrees` | pkg/accesslog/accesslog.go:139-154 | so it always agrees between stamps with the same number of fraction digits |
| `RawTimeOrder.RawOrderCanDisagree` | pkg/accesslog/accesslog.go:144-146 | in every second, a tenth sorts after twelve hundredths |
| `CounterTheorems.NextKeeps` | pkg/exporter/counter_management.go:38-267 | every mutex, flag, entry and map action of every update and cleanup keeps the counter invariant |
| `CounterTheorems.FlagHasOneHolder` | pkg/exporter/counter_management.go:119-134 | at most one party holds an entry's modifying flag, and it is set exactly while one does |
| `CounterTheorems.HeldEntryIsLive` | pkg/exporter/counter_management.go:84-134 | an update that holds an entry's flag works on the entry that is in the live map under its server and key, never on a removed one |
| `CounterTheorems.MapsAreBounded` | pkg/exporter/counter_management.go:98-114 | no server's map exceeds MaxCounterEntries, so the cleanup's early exit is never taken |
| `CounterTheorems.EvictsOnlyIdleEntries` | pkg/exporter/counter_management.go:226-260 | what the cleanup deletes is live, held by nobody, owes nothing to the exported counter and has a lastSeen before the cutoff, in every interleaving with updates |
| `CounterTimes.LastSeenCoversTheLatestUpdate` | pkg/exporter/counter_management.go:109-137 | with a clock that never goes back, a live entry's lastSeen lies between the moment the latest update of its server and key got hold of it, told from the schedule, and the present, unless that update has still to stamp it |
| `CounterTimes.EvictsOnlyAfterRetention` | pkg/exporter/counter_management.go:226-260 | the latest update of anything the cleanup deletes began more than the twenty-minute retention period ago |
| `CounterTimes.QuietPassLeavesNothingOld` | pkg/exporter/counter_management.go:233-259 | a pass over a server's map that no update holds an entry of ends with no entry older than the cutoff left, in any visiting order and under any schedule |
| `CounterProgress.UpdateDoesItsJob` | pkg/exporter/counter_management.go:38-208 | an update alone stores a usable reading, exports its delta (the growth, or the value after a plausible fall) and frees the entry; an implausible fall changes neither |
| `CounterProgress.BadReadingIsDropped` | pkg/exporter/counter_management.go:44-69 | an invalid key or a negative reading changes nothing |
| `CounterProgress.BusyOrFullIsSkipped` | pkg/exporter/counter_management.go:100-132 | a new key for a full server, and a key whose entry is held, are skipped without storing or exporting |
| `CounterTheorems.ReadingApplied` | pkg/exporter/counter_management.go:139-198 | when a reading is stored: growth owes the difference, a plausible fall owes the new value and drops the old one, an implausible fall changes nothing |
| `CounterTheorems.ExportedEqualsStoredPlusDropped` | pkg/exporter/counter_management.go:139-208 | per server and key the exported counter is the stored value plus all values dropped at accepted resets and evictions, short only of an update caught between storing and exporting |
| `CounterTheorems.ExportedNeverDecreases` | pkg/exporter/counter_management.go:20-35 | no schedule lowers an exported counter |
| `SeriesTracker.LabelKey` | pkg/exporter/accesslog_tracker.go:152-173 | gathering the names in any map order, sorting and joining gives the one key of the tuple |
| `SeriesTracker.KeyInjective` | pkg/exporter/accesslog_tracker.go:152-173 | two tuples with equal keys are equal when names hold neither '=' nor the separator and values hold no separator |
| `SeriesTracker.KeyInjectiveInVector` | pkg/exporter/accesslog_tracker.go:152-173 | within one vector it is enough that the values of all names but the last hold no separator |
| `SeriesTracker.SeparatorCollides` | pkg/exporter/accesslog_tracker.go:160-171 | for any two names, a separator in the value of the earlier one makes two different tuples share a key |
| `SeriesTracker.AccesslogSeriesTracker.Inc` | pkg/exporter/accesslog_tracker.go:73-108 | admission exactly for a known key or while there is room, and the new table and vector |
| `SeriesTracker.AccesslogSeriesTracker.RemoveStale` | pkg/exporter/accesslog_tracker.go:117-128 | the deletion loop removes exactly the stale entries and lists each |
| `SeriesTracker.AccesslogSeriesTracker.Sweep` | pkg/exporter/accesslog_tracker.go:113-141 | the stale entries leave the table and their series the vector; the number removed is returned |
| `SeriesRuns.IncKeepsAgreementIff` | pkg/exporter/accesslog_tracker.go:79-107 | an increment keeps tracked tuples and series equal exactly when the entry under its key is not another tuple's |
| `SeriesRuns.SeriesCountAdmissionsSinceEviction` | pkg/exporter/accesslog_tracker.go:73-141 | over any run: at most maxEntries tuples, exactly the tracked tuples are series, and each series' value is the number of admitted increments since its last eviction |
| `SeriesRuns.RefusedExactlyWhenFull` | pkg/exporter/accesslog_tracker.go:87-101 | over any run an attempt is refused exactly when its tuple is not a live series and the vector is full |
| `SeriesRuns.ScanTuplesFit` | pkg/exporter/collectors_accesslog.go:112-206 | a tuple the accesslog scans build meets the condition of the run theorem if and only if the server name and, for binds the result code, for writes the request type, are free of the separator; the user name may contain anything |
| `RateLimiter.RateLimiter.constructor` | pkg/security/ratelimit.go:56-70 | a new limiter has the given rate and burst, a ten-minute cleanup interval and no buckets |
| `RateLimiter.RateLimiter.Allow` | pkg/security/ratelimit.go:83-103 | the answer and the new bucket table; an unknown client starts with a full bucket |
| `RateLimiter.RateLimiter.AllowBucket` | pkg/security/ratelimit.go:106-131 | capped fractional refill, then one token taken if there is one |
| `RateLimiter.RateLimiter.CleanupClients` | pkg/security/ratelimit.go:149-179 | the two passes remove exactly the buckets idle for longer than the interval |
| `RateLimiter.RefillIsCappedAccrual` | pkg/security/ratelimit.go:116-123 | the refill is the lesser of burst and tokens plus rate times the minutes since lastSeen |
| `RateLimiter.RefillAdditive` | pkg/security/ratelimit.go:116-124 | capped refill is additive over time and never lowers the tokens |
| `RateLimiter.RefusedExactlyWhenShort` | pkg/security/ratelimit.go:106-131 | a known client is refused exactly when its tokens plus rate times the minutes since are less than one, and an admission takes one token |
| `RateLimiter.BucketTracksClient` | pkg/security/ratelimit.go:124 | over every run a bucket's lastSeen is its client's latest request, and its tokens lie between 0 and burst |
| `RateLimiter.AdmittedAfterOneTokensTime` | pkg/security/ratelimit.go:83-131 | over every run a client that last asked at t0 is admitted at any now with rate*(now - t0) >= 1, one that never asked at once |
| `RateLimiter.CleanupDropsTheIdle` | pkg/security/ratelimit.go:149-179 | a cleanup drops a client's bucket exactly when it last asked more than the interval ago |
| `RateLimiter.AdmittedInWindow` | pkg/security/ratelimit.go:83-179 | when rate*interval >= burst, any window of t minutes admits at most burst + rate*t requests of one client, with evictions and re-creations |
| `RateLimiter.EvictionUnobservableIff` | pkg/security/ratelimit.go:149-179 | rate*interval >= burst is exactly the condition under which evicting a stale bucket cannot be noticed |
| `RateLimiter.WindowsBoundedIff` | pkg/security/ratelimit.go:83-179 | for all nonnegative limits the window bound holds over every run if and only if rate*interval >= burst |
| `RateLimiter.EvictionRefundsWithoutCondition` | pkg/security/ratelimit.go:149-179 | for all limits with rate*interval < burst there is a run, two full bursts around a cleanup, that admits more than burst + rate*t in a window of t minutes |
| `RateLimiter.SlowRefillBreaksTheBound` | pkg/security/ratelimit.go:56-70 | with the ten-minute interval, one request a minute and a burst of twenty do not keep the bound |
| `RateLimiter.RefusalsAndEvictionsLeaveNoTrace` | pkg/security/ratelimit.go:83-179 | removing any refused requests and cleanups from a run leaves every other answer as it was |
| `Replication.ReadCSN` | pkg/replication/poller.go:219-258 | the nested loops compute the per-key maxima of the well-formed CSNs of the data suffixes, and reachability |
| `ReplicationRuns.StoresGreatestReport` | pkg/replication/poller.go:225-257 | a key is stored exactly when the node reports a positive CSN time for it, and with the greatest one reported |
| `Replication.BuildReference` | pkg/replication/poller.go:184-192 | the reference map holds, for every key, the greatest value over all results |
| `Replication.Poller.Poll` | pkg/replication/poller.go:161-214 | the gauges after a round depend only on what each source answered, not on the order of arrival |
| `ReplicationRuns.LagIsDistanceToMostAdvanced` | pkg/replication/poller.go:184-213 | a peer's published CSN plus its published lag is the greatest CSN any source reports, local included; the difference is never negative before the clamp; the lag is 0 exactly when the peer reports that CSN |
| `ReplicationRuns.UpMeansReachable` | pkg/replication/poller.go:199-203 | a peer's reachability gauge reads 1 exactly when it answered |
| `ReplicationRuns.SilenceKeepsTheLastValue` | pkg/replication/poller.go:194-213 | what a peer did not report keeps its last CSN and lag, and gauges of URIs not asked stay as they are |
| `ReplicationRuns.DataSuffixMeans` | pkg/replication/poller.go:232-234 | the naming contexts skipped are exactly those whose DN begins with cn= in any case of letters |
| `Replication.Poller.ReconcilePeers` | pkg/replication/poller.go:122-147 | new peers get a client; in a reliable round every peer no longer discovered is closed, dropped and pruned |
| `Replication.Poller.PrunePeerMetrics` | pkg/replication/poller.go:151-156 | exactly the series of the peer disappear from the three vectors |
| `Replication.Poller.Stop` | pkg/replication/poller.go:263-274 | every client still in the map is closed once |
| `ReplicationRuns.RunKeepsOrder` | pkg/replication/poller.go:122-214 | in every state of every run no client serves two URIs, a client in the map was never closed, every other client ever built was closed exactly once, and series exist only for URIs in the map |
| `ReplicationRuns.ReliableRound` | pkg/replication/poller.go:138-146 | a reliable round leaves exactly the discovered URIs; known ones keep client and series, new ones get a client never used before |
| `ReplicationRuns.UnreliableRound` | pkg/replication/poller.go:134-136 | an unreliable round only adds: no URI removed, no client replaced or closed, no series touched |
| `ReplicationRuns.EveryPeerHasItsGauge` | pkg/replication/poller.go:194-203 | after a poll round exactly the URIs in the map have a reachability gauge |
| `ReplicationRuns.StopClosesTheRest` | pkg/replication/poller.go:263-274 | stopping after any run leaves every client ever built closed exactly once |

## Left out

Idealisations of the modelled parts:

- The pool and the delta counters are machines on values, because their steps interleave; the
  other mutable components are classes. Update in place and aliasing of a counter entry are
  modelled by entry numbers and a heap map.
- PoolProgress and CounterProgress: say what one goroutine does while all others wait; fairness and
  timing between goroutines are not modelled.
- In the pool a connection's validity check is an arbitrary outcome, so `inUse`, `lastUsed` and
  `createdAt` are not modelled; a context may be done at one look and not at the next.
- Nil connections in the channel are not modelled: nothing sends one.
- A second `Close` that overlaps the first returns at once instead of waiting for it.
- `PeerCertificates` is not modelled separately: its Get and Put pairing is a runSearch whose
  first search succeeds.
- The breaker's `Call` appears as its two steps under the mutex; the protected function runs
  between them and other calls may interleave.
- Breaker callbacks, their goroutines and the timeouts of the breaker's `Close`: no influence on
  its state.
- The token bucket's Allow and one cleanup are single steps with one clock reading each; a bucket
  being used while it is evicted is not modelled.
- The tracker's Inc and Sweep are single steps with one clock reading each; its warnings are left
  out.
- The accesslog consumers record the tuples they hand to the trackers; the trackers are separate.
- ScanRuns.ExactlyOnce: assumes that appended entries have strictly increasing reqStart and that a
  successful search returns exactly the stream's entries at or above the cursor, in any order.
- Events carry no parsed timestamp and no constant source field; `time.Parse` is not part of this
  model.
- Replication.ReadCSN: a CSN on which the parser's slice faults is excluded; in the source it would
  end the program, since the reading goroutine does not recover.
- CSN values reach the poller already parsed into an epoch and a server ID, or malformed.
- Letter case is folded for ASCII letters only, and strings are sequences of bytes.
- Float rounding, NaN and infinity.

Not modelled at all:

- LDAP dialling, binding, TLS set-up, request building and DN or filter validation.
- Peer discovery and URI normalisation: the discovered list and its reliability are inputs.
- HTTP routes, middleware headers, client address extraction and the health handler.
- Prometheus registration; a vector is a map from labels to a number.
- The other collectors, configuration, secret strings, log redaction, event file rotation and JSON
  encoding.
- `retryOperation` and `calculateDelay`: no caller, and only an easy bound.
