# go-flywheel: verified models of the job runtime and its load harness

go-flywheel is a durable job runtime on a database table. Runners claim jobs under a lease
and a token, write a run stub, work, and finalize; a sweep takes back the leases of crashed
executors. Its load harness wraps the driver in a fault gate, compresses time with a
simulated clock, records latencies in a lock-free histogram, seeds workloads whose totals
and ids it predicts, and measures claim fairness. Its metrics recorder keeps capped, keyed
series and renders them for Prometheus. These Dafny modules model that logic and prove what
it is meant to guarantee, for all inputs and over all runs.

## How it is modelled

Concurrent code is a state machine: a step function that is total (an impossible step
changes nothing) folded over an arbitrary list of steps, so a theorem about every list is a
theorem about every interleaving. Code that loops or updates in place is a method or a class
proved against a specification function, and the laws are lemmas about that function.

- `JobTable` is the jobs and job_runs tables and one function per committed transaction.
  `Lease` lets any number of gated runners, workers, sweeps, operators and faults act on
  them, a gated driver call being two actions, its check and its transaction; `RowSteps`
  says how each action moves each row and `FollowUps` what a finalize writes; `Fence`,
  `LeaseTerm`, `Overlap`, `Budget`, `Audit`, `Barriers` and `FanOut` prove what every run
  keeps.
- `FaultGate` is the gate at the level of single atomic loads and stores. `HarnessClock` is
  the compare-and-swap clock. `Outage` is the outage run: workers that claim, read the
  outage switch and finish in separate steps, and an advancer that looks at the table in one
  step and moves the clock in another. `OutageVolume`, `GrazedRung` and `RetryLadder` are
  how often its jobs fail, for any bands of delays and on the runner's own ladder.
- `Histogram`, `Quantiles` and `HistogramRecorder` are the latency histogram: its geometry,
  its quantiles, and its sharded lock-free recording.
- `Series`, `MetricHistory`, `MemRecorder`, `Labels`, `Prometheus` and `Scrape` are the
  metrics recorder, its text rendering, and what a scrape says of the calls made.
- `Fairness`, `ClaimOrder`, `MonotoneId`, `Bytes` and `Digest` are the fairness metric, the
  banded seed, the minted ids and the workload encoding; `Options` and `Integers` hold the
  types they share.

I/O, clocks and randomness are parameters: retry delays, the rows a claim picks, which
ordinals fail and the random tail of an id are arbitrary. Floating-point values are reals,
a quantile is a rational, and a bucket estimate is the integer nearest to the square root.

## Where the code does not do what its documentation says

Each of these has a concrete witness and the exact condition under which the promise holds.

- A job can have more runs than its `max_attempts` (`loadtest/run.go` says it never does):
  a plain forced retry of a job discarded on its last attempt adds a run without raising
  the ceiling (`Budget.OverrunIsReachable` is a whole run that does). A run stays within
  budget throughout if and only if every retry and replay in it restores the budget of the
  rows it moves or finds an attempt left (`Budget.BudgetHoldsIff`).
- A barrier can be accepted and then never fire: the declaration check counts follow-ups,
  not the rows that land. It has a child to wait for if and only if one was pending or one
  of its follow-ups is unkeyed or first on a free key (`Barriers.DeclarationLiveIff`).
  Without one it stays stuck throughout a run if and only if the run never re-queues its job
  or a child of it and no client inserts a child under it (`Barriers.StuckForeverIff`,
  `Barriers.ChildlessBarrierAccepted`); the end of such a child fires it
  (`Barriers.InsertUnsticks`, `Barriers.RetryUnsticks`).
- A forced retry that does not allow running jobs is said never to start a second attempt
  beside one still running (`internal/core/schedule.go`). The guard probes for a started run
  stub, which an attempt writes only after its claim: a cancel and a forced retry between the
  two pass it, and both attempts go to work (`Overlap.RetryBesideRunning`). Every attempt at
  work stays its job's current one throughout a run, so that none is ever doubled, if and
  only if no attempt whose job has moved on writes its stub and no retry that does allow
  running jobs takes one at work (`Overlap.NeverTwiceIff`).
- A killed runner is said to claim nothing further once a finalize is blocked. The check and
  the claim are not one step (`Fence.KilledRunnerStillClaims`): it claims as often as it had
  claim calls past their check when the gate shut, less those still in flight
  (`Fence.ShutStopsClaims`).
- `openGate` clears two flags in two stores, and a finalize that read the kill flag before
  the second store shuts the gate again afterwards. The gate stays open if and only if no
  finalize was past that read (`FaultGate.ReopenSticksIff`). No shipped fault both arms kill
  mode and reopens the same gate: `KillWorker` has no revert, `PauseDatabase` never arms
  kill mode, and a run has one fault.
- Attempt volume is not invariant to how far one advance jumps: a jump to the latest pending
  instant also postpones the ladders of the jobs due earlier, so the jitter decides how many
  attempts they fit inside the outage (`RetryLadder.UnevenVolumeDiffers`). On the runner's
  own ladder, for every base and cap from four microseconds up, every budget and every
  jitter, it is invariant if and only if the outage does not end between the soonest and the
  latest instant of an attempt after the first, nor in the microsecond before the soonest
  where the rung below comes within a nudge of it (`RetryLadder.LadderVolumesIff`). If delays
  may be anything in (0, D] with D of at least 1002 nanoseconds, that leaves an outage that
  ends by the soonest second attempt or outlasts the whole ladder
  (`RetryLadder.FlatVolumesLong`).
- A distribution that sits inside one bucket is not reported exactly: 1024 and 1300
  nanoseconds share a bucket and have a median of 1183 (`Quantiles.SharedBucketInexact`). It
  is reported exactly at every rank if and only if its observations are all equal
  (`Quantiles.OneBucketExactIff`, and `Quantiles.ReportExactIff` for any distribution).
- The NUL separators of a series key do not keep every two series apart; a key is
  unambiguous if and only if its series is untagged and its name holds fewer than two NULs,
  and NUL-free series never collide (`Series.KeyUniqueIff`, `Series.KeyOrder`).
- A metric family whose name is empty gets no header; every other family gets exactly one
  (`Prometheus.OneHeader`).
- Ids of different generations are ordered if and only if a generation has at most
  1,000,000 rows (`MonotoneId.GenerationsOrderedIff`).

## Model

| member | source | states |
|---|---|---|
| Lease.RunKeepsInv | README.md:715-760 | over every interleaving of gate checks, claims, stubs, renewals, finalizes, deaths, sweeps, cancels, retries, replays and gate faults: a row holds a lease and a token exactly while it is running, run rows of one job have distinct attempts, every claim is counted in its row's attempt, and claims of one job carry increasing attempts and tokens |
| Lease.StubNeverCollides | internal/core/driver.go:530-550 | a stub insert never violates the unique index on job and attempt in any reachable state |
| Lease.AdvanceReleases | internal/core/driver.go:572-589 | an advanced row has its planned state and has given up its lease and token whatever the follow-ups and the barrier check do after it |
| RowSteps.StepRows | internal/core/driver.go:740-862 | every action moves each job row by the one transition of its own, each field written out, or not at all, whatever follow-ups and barriers fire on the side, and every new row is untouched |
| FollowUps.FollowUpsExact | internal/core/driver.go:1344-1374 | the rows a fan-out appends are exactly the follow-ups that are unkeyed or first on a free key, in list order, each untouched, due at once, with its own payload, parent link and key |
| FollowUps.InsertInChunks | internal/core/driver.go:1363-1373 | inserting chunk by chunk, for every chunk size, leaves the same rows as one insert and counts the rows that landed |
| FollowUps.CommitsIff | internal/core/driver.go:1344-1416 | a finalize past its gate goes through if and only if its stub exists and, when it succeeds, its barrier covers from one child to the ceiling and, if it holds its claim, its follow-ups are within the limit |
| FollowUps.RunRowExact | internal/core/driver.go:615-650 | the run row of a finalize that goes through, superseded or not, reads cancelled, snoozed, timeout, error or success each exactly when its result and error class say so, and finishes once; if the claim was held it records the job's new state and the number of follow-up rows added, and if not it keeps the state the sweep recorded, counts no child and no job changes |
| FollowUps.RefusedFinalizeWritesNothing | internal/core/driver.go:852-857 | one that does not go through leaves both tables as they were |
| FollowUps.EnqueueExact | internal/core/client.go:352-385 | a client's insert adds, exactly when no row holds its key, an untouched row due when asked, with its payload, its attempts or the default, its key, and its parent if that is a row, and changes nothing else |
| Fence.StaleForever | internal/core/driver_postgres.go:108-162 | a claim that was lost stays lost in every continuation, because no token is ever reused |
| Fence.LostClaimAdvancesNothing | internal/core/driver.go:740-888 | after a claim is lost, however the run goes on, its finalize leaves every job as it is and its renewal leaves both tables as they are; a finalize that gets through changes no run row but its own, to superseded, with its own outcome and no children |
| Fence.AdvanceEndsClaim | internal/core/driver.go:740-862 | a finalize that changed any job held the claim before and no longer holds it after |
| Fence.OneAdvancePerClaim | README.md:755-760 | each claim has at most one finalize that changes the jobs table, over every continuation |
| Fence.UnderneathIsStale | README.md:757-758 | a job cancelled, reclaimed past its lease, or retried while running takes the claim away from the attempt underneath |
| Fence.EveryJobAccounted | README.md:715-721 | in every run, whatever is killed, gated or expired, every job is claimable, running under a lease and a token the sweep can reclaim, or terminal |
| Fence.GatedFinalizeLeavesOrphan | loadtest/fault.go:171-185 | a finalize its gate refuses leaves both tables as they are and counts an orphan exactly when kill mode refused it; its claim, attempt number and stub then stay, over every run, until the job is cancelled, reclaimed past its lease, or retried while running |
| Fence.ShutStopsClaims | loadtest/fault.go:146-159 | while a gate stays shut, its runner commits exactly as many claims as it had past their check when it shut, less those still in flight |
| Fence.KilledRunnerStillClaims | loadtest/fault.go:120-134 | from any state of an armed runner with a claim call past its check, a blocked finalize shuts the gate and the claim still commits |
| Fence.SweepReleases | internal/core/driver_postgres.go:71-103 | every running job carries the lease a sweep needs; past it the swept row is available again if and only if attempts remain and, under a crash budget, one more crash than its run rows show is still below it, and is otherwise discarded as of now; at or before it the row is left alone |
| Fence.EveryJobCanFinish | README.md:715-721 | from every reachable state, whatever other runners are dead or shut, one sweep and then one open runner's own claim, stub and finalize end any job not paused by an operator: succeeded, or discarded by that sweep exactly when the crash it found spent the job's budget |
| LeaseTerm.ClaimExact | internal/core/driver_postgres.go:108-162 | a claim past its check commits if and only if its rows are waiting and due, each picked once; then each runs its next attempt, leased to now plus the lease under one fresh token, no other row changes, and the runner holds exactly those claims |
| LeaseTerm.ClaimOutlivesSweepIff | internal/core/driver_postgres.go:80-101 | a sweep leaves a new claim held if and only if it comes no later than the end of its lease |
| LeaseTerm.LeaseProtects | README.md:715-760 | over every run a claim is kept to the end of its lease, whatever other runners, sweeps up to then and operators on other jobs do |
| LeaseTerm.ShutStopsRenewals | loadtest/fault.go:187-200 | while a gate stays shut, its runner makes exactly the renewals already past their check when it shut, less those still in flight |
| LeaseTerm.ShutStopsCalls | loadtest/fault.go:161-185 | likewise its stub inserts and finalizes are at most those past their check |
| LeaseTerm.GatedLeaseRunsOut | loadtest/fault.go:189-192 | a gated runner's job with no renewal under way is never leased beyond the instant its lease had at the shut, over every run in which no lease is set later by hand, and a sweep after that instant leaves the claim lost |
| LeaseTerm.LostRenewalIsFinal | internal/core/driver.go:868-888 | a renewal reports the claim held if and only if it is, and sets the lease exactly then; once one has reported it lost, every later one does, over every run |
| LeaseTerm.OpenGateRenews | internal/core/driver.go:875-888 | behind a gate that is not shut a renewal sets the lease of the claim it holds to the instant asked for and writes nothing else |
| LeaseTerm.OpenGateStubs | loadtest/fault.go:161-169 | behind a gate that is not shut a first stub insert appends a started row for its own attempt |
| LeaseTerm.ShutGateRefuses | loadtest/fault.go:161-200 | behind a shut gate a renewal changes nothing and a stub insert writes nothing and ends the dispatch |
| LeaseTerm.GateModes | loadtest/fault.go:101-112 | shutting, arming and reopening set the modes of one gate and change nothing else, and after a reopen a live attempt passes every check |
| LeaseTerm.CheckedCallStands | loadtest/fault.go:161-185 | a stub insert or finalize past its check stands over every run, whatever becomes of its gate, until the attempt makes it or dies, and is not checked again |
| LeaseTerm.DeadMakeNoCalls | loadtest/fault.go:74-90 | an attempt whose dispatch is over passes no check, counts no orphan, writes no stub and no outcome in any continuation |
| LeaseTerm.DeathIsFinal | loadtest/fault.go:173-176 | a process that dies leaves both tables and every gate as they are and makes no call from then on |
| Overlap.NeverTwiceIff | internal/core/schedule.go:579-592 | every attempt at work is its job's current one at every moment of a run if and only if no attempt whose job has moved on writes its stub and no retry that allows running jobs takes one at work; retries and replays that do not allow it never break this |
| Overlap.OrderlyNeverTwice | internal/core/schedule.go:785-792 | and then no job ever has two attempts at work |
| Overlap.RetryBesideRunning | internal/core/schedule.go:690-699 | from any reachable state with a ready job and an open runner, a cancel and a forced retry between a claim and its stub pass the guard and two attempts of the job are at work |
| Budget.BudgetHoldsIff | internal/core/schedule.go:819-828 | from any state within budget, every job is within budget at every moment of a run if and only if every retry and replay in it restores the budget or finds an attempt left on each row it moves |
| Budget.BudgetHolds | loadtest/run.go:405-420 | in every run whose retries and replays restore the budget: a waiting job has an attempt left, a running one has not overrun, run rows have distinct attempts and never outnumber max_attempts |
| Budget.PlainForcedRetryOverruns | README.md:1450-1457 | a plain forced retry of a job discarded at attempt == max_attempts leaves it one claim from overrunning |
| Budget.ClaimOverruns | loadtest/run.go:405-420 | such a job has more run rows than max_attempts as soon as it is claimed and its stub written |
| Budget.LastAttemptOverruns | loadtest/run.go:405-420 | from any reachable state with a ready job on its last attempt: a transient failure, a plain forced retry and one more claim end with more run rows than max_attempts |
| Budget.OverrunIsReachable | loadtest/run.go:405-420 | a whole run from a fresh table that does so |
| Audit.VerdictExact | internal/core/driver.go:393-438 | what an attempt's outcome does to its job, each verdict exactly when it is due and by the row's own budget: cancelled, snoozed with an attempt given back, succeeded, retried after its delay, or discarded as permanent or out of attempts |
| Audit.ExactlyOneSuccess | README.md:755-760 | in every run that re-queues no succeeded job, a succeeded job has exactly one unsuperseded success row and every other job none, however often its attempts were killed, gated, reclaimed or executed twice |
| Audit.SnoozesAreFree | README.md:1454-1457 | over every run without retries or replays, a job's max_attempts has risen by exactly its recorded, unsuperseded snoozes and nothing else |
| Audit.CrashBudgetHolds | internal/core/driver.go:303-318 | in every run, no job is crashed more often than the crash budget plus the times an operator brought it back finished, and one still in play has crashes left, counting crashed runs whose late finalize overwrote them |
| Audit.SweepRunExact | internal/core/driver.go:1176-1226 | a sweep changes a run row if and only if it is the started stub of the attempt a reclaimed job is running: that row reads crashed, finished now, with the state the job was left in |
| Audit.SweepCrashes | internal/core/driver.go:311-318 | a sweep adds exactly one crash to a job whose started stub it closes and none to any other |
| Audit.CrashesAreClosings | internal/core/driver.go:311-318 | over every run a job's crashes are exactly the sweeps that closed one of its stubs: nothing written later, not even the crashed attempt's late outcome, takes one back |
| Audit.FreshAudit | internal/core/driver.go:311-318 | a fresh system satisfies what these laws start from |
| Barriers.FollowUpsPending | internal/core/driver.go:1344-1374 | a fan-out leaves its parent a pending child if and only if one was pending or a follow-up lands |
| Barriers.NoBarrierStuck | internal/core/driver.go:1485-1558 | over every run in which no declaration is childless, every declared barrier has a pending child whose end will check it |
| Barriers.DeclarationLiveIff | internal/core/driver.go:1399-1416 | a barrier declared by an advancing finalize has a child to wait for if and only if one was pending or one of its follow-ups lands |
| Barriers.StuckForever | internal/core/driver.go:1485-1558 | a finished job whose barrier is set and whose children are all terminal never fires it: the barrier stays set over every run that re-queues neither it nor a child of it and inserts no child under it |
| Barriers.StuckForeverIff | internal/core/driver.go:1485-1558 | those are the only ways out: it is stuck at every moment of a run if and only if the run takes none of them |
| Barriers.InsertUnsticks | internal/core/client.go:352-385 | a client's insert under the stuck job fires its barrier when the new child ends, with nothing re-queued |
| Barriers.RetryUnsticks | internal/core/schedule.go:819-828 | so does the retry of a terminal child, when it ends again |
| Barriers.ChildlessBarrierAccepted | internal/core/driver.go:1399-1416 | the declaration check accepts a barrier over a follow-up whose key is taken, the job succeeds, and every such run leaves the barrier set |
| Barriers.OneContinuation | internal/core/driver.go:1485-1558 | over every run a parent has at most one continuation row |
| Barriers.BarrierFiresComplete | internal/core/driver.go:1567-1580 | a barrier clears only with every child of its generation terminal and a continuation there, which the step adds if and only if none held the key before, whichever of finalize, cancel or sweep ended the last |
| Barriers.ContinuationIsDeclared | internal/core/driver.go:1485-1558 | the row it adds is untouched, due at once, under the parent and its barrier key, and carries the declared arguments |
| FanOut.TotalNearConfigured | loadtest/workload.go:169-213 | a fan-out or barrier run's total lies in (Jobs - group, Jobs] if and only if Jobs is at least one group, and is one group below that |
| FanOut.PlanExact | loadtest/workload.go:129-213 | which mixes give their jobs children, the number configured or nine, a continuation, or a cohort, and the rows of every mix that seeds leaves only |
| FanOut.Work | loadtest/worker.go:222-312 | the worker's outcomes, each exactly when it is due: deferred by a positive delay, failed by the outage, interrupted in its sleep, failed by its own mark, or exactly its children in order with the continuation when it declares a barrier |
| FanOut.WorkedExact | loadtest/worker.go:280-312 | a fan-out is one level deep: each child is a leaf under its parent with its own ordinal, fails exactly as that ordinal does and has no key, and the continuation is a leaf |
| FanOut.RunConserves | loadtest/worker.go:280-312 | in every run of the load worker the jobs that exist and the jobs still owed add up to the same number |
| FanOut.JobsConserved | loadtest/workload.go:117-137 | never more than TotalJobs jobs exist; they all do if and only if every parent succeeded and no barrier is pending; once all are terminal, if and only if every parent succeeded |
| FanOut.ChildOrdinalsDistinct | loadtest/worker.go:290-299 | child ordinals never collide across all parents of a run |
| FaultGate.UntouchedGateRefusesNothing | loadtest/fault.go:114-134 | a gate no fault has touched refuses no call and counts no orphan, over every interleaving of calls |
| FaultGate.KillBlocksFinalizes | loadtest/fault.go:122-134 | while kill stays armed, no finalize whose check starts after it was armed reaches the driver, over all interleavings of the loads and stores |
| FaultGate.ShutBlocksAll | loadtest/fault.go:114-134 | while shut stays stored, no call of any kind whose check starts after it reaches the driver or the kill flag |
| FaultGate.OneRefusedAllRefused | loadtest/fault.go:122-134 | once one call has been refused, no call whose check starts later gets through until a reopen |
| FaultGate.OrphanFlags | loadtest/fault.go:92-94 | in every run, reopened or not, the orphan counter equals the finalizes that kill mode has blocked |
| FaultGate.OrphansBoundedAtShut | loadtest/fault.go:122-134 | the orphans never exceed the finalizes that were between their shut load and their return when the gate first shut |
| FaultGate.KillLeavesOrphan | loadtest/fault.go:81-86 | with no other shut and no reopen, a shut gate or a refused call means at least one orphan |
| FaultGate.ReopenSticksIff | loadtest/fault.go:104-108 | after openGate the gate stays open under every continuation of calls if and only if no finalize had already read the kill flag |
| FaultGate.NeverArmedNeverPending | loadtest/fault.go:104-108 | a run that never arms kill never has such a finalize and counts no orphan |
| FaultGate.ReopenRace | loadtest/fault.go:104-108 | a run in which openGate has returned and the gate is shut again with no fault in between |
| HarnessClock.ClockEndsAtFurthest | loadtest/clock.go:43-58 | over every interleaving of concurrent advances the offset only grows, and once all have returned it is the furthest target or the start |
| Outage.Earliest | loadtest/harness.go:880-902 | the least scheduled instant among the pending jobs, or none exactly when nothing is pending |
| Outage.Latest | loadtest/harness.go:883-902 | the greatest scheduled instant among the pending jobs |
| Outage.AdvancerStep | loadtest/harness.go:858-923 | the clock moves only when no job is running or due, only forward, each move makes a waiting job due, and a finished advancer means nothing is running or claimable, even though looking and moving are separate steps |
| Outage.RunKeepsSound | loadtest/harness.go:833-923 | what the advancer committed to is still true of the table when it moves, in every run |
| Outage.DrainTerminates | loadtest/harness.go:833-856 | no run takes more effective steps than a measure of the remaining attempt budget, and until the advancer has returned some step is possible |
| OutageVolume.OpeningReached | loadtest/run.go:299-315 | whatever the runners have claimed, read and finished of a table seeded due by the clock's base, the outage opens on untried jobs, first attempts that have not read the switch, and jobs that read it closed |
| OutageVolume.DecidedVolume | loadtest/harness.go:867-875 | each attempt's delay in a band of its own: if the bands cannot change how many attempts fall inside the outage, every job that has yet to read the switch when it opens fails exactly that often, under whole-rung jumps and under fine steps, for every interleaving; one that had read it closed fails never |
| OutageVolume.SameVolume | loadtest/harness.go:867-875 | if the outage outlasts the latest instant of the last of M attempts, each of those jobs fails exactly M times under both strategies, for all delays in the bands, and the jumps number exactly M-1 |
| OutageVolume.LongEnoughIff | loadtest/worker.go:32-50 | that bound is exact for both strategies and every choice of bands: it holds if and only if every drained run of every cohort exhausts every open job |
| OutageVolume.StraddleDiffers | loadtest/harness.go:867-875 | for any bands, an outage that ends after the soonest and by the latest instant of an attempt after the first has a table, delays in the bands and two drained runs in which the strategies fail a job a different number of times |
| OutageVolume.VolumesAgreeIff | loadtest/harness.go:867-875 | for bands whose rungs up to the end of the outage are clear of one another, or can be as short as a nanosecond, every drained run of every table fails each job equally often under both strategies if and only if the outage ends on no such attempt |
| OutageVolume.FloorIsClose | loadtest/harness.go:914-921 | for any other bands, the instant no attempt r + 1 precedes is within r - 1 microseconds of a lone job's soonest |
| GrazedRung.GrazeDiffers | loadtest/harness.go:914-921 | where one rung comes within a nudge of the next and the outage ends between them, the strategies differ too |
| RetryLadder.LadderVolumesIff | loadtest/harness.go:867-875 | on the runner's ladder (internal/core/runner.go:1809-1820), for every base and cap from four microseconds up, every budget and every jitter in [0.75, 1.25): the strategies agree on every table if and only if the outage ends neither on such an attempt nor in such a gap |
| RetryLadder.FlatVolumesIff | loadtest/harness.go:867-875 | the same with delays anywhere in (0, D] |
| RetryLadder.FlatVolumesLong | loadtest/harness.go:867-875 | and for D of at least 1002 nanoseconds: if and only if the outage ends by the soonest second attempt or outlasts the latest last one |
| RetryLadder.UnevenVolumeDiffers | internal/core/runner.go:1809-1820 | two jobs on the default ladder, first retries after 760 and 1240 milliseconds, an outage of 2.6 seconds: the first fails twice under whole-rung jumps and three times under fine steps |
| OutageVolume.AdvanceSkipsIff | loadtest/harness.go:914-921 | one advance carries past the outage's end an attempt that fine stepping would have failed if and only if the latest pending instant lies in the last microsecond before the end and the earliest, nudged, is before it |
| OutageVolume.BoundaryVolumeDiffers | loadtest/harness.go:914-921 | two jobs pending at that boundary for which a jump and a fine step give different attempt volumes |
| Histogram.Octave | loadtest/histogram.go:161-162 | the bit length less one: the power of two at or below the duration |
| Histogram.SubEdges | loadtest/histogram.go:163-194 | the shift in bucketOf and the ceiling in subOffset agree on where each third of an octave starts |
| Histogram.SubOffsetIs | loadtest/histogram.go:192-194 | the sub-bucket offset is the ceiling of sub thirds of the base |
| Histogram.BucketsMeet | loadtest/histogram.go:168-182 | consecutive buckets meet with no gap and no overlap |
| Histogram.PartitionIff | loadtest/histogram.go:152-182 | a duration is assigned to a bucket if and only if the bucket's bounds hold it |
| Histogram.NearestRoot | loadtest/histogram.go:212-212 | the computed estimate is the integer nearest to the square root |
| Histogram.EstimateHeld | loadtest/histogram.go:196-213 | every bucket's estimate lies in the bucket |
| Histogram.EstimateExact | loadtest/histogram.go:196-213 | an in-range estimate is the integer nearest the root of the product of the bounds, and the two open buckets report their finite edge: the longest duration of the underflow bucket and the shortest of the overflow bucket |
| Histogram.EndErrors | loadtest/histogram.go:63-77 | at either end of every in-range bucket the estimate is off by at most 159 parts in 1024 |
| Histogram.ErrorWithin | loadtest/histogram.go:41-60 | the estimate is within 159/1024, relatively, of every duration its bucket holds |
| Histogram.MeasureMaxRelativeError | loadtest/histogram.go:69-77 | the walk over the buckets returns exactly 159/1024, below 0.156 and above sqrt(4/3) - 1; no in-range duration does worse and some duration does exactly as badly |
| Quantiles.Quantile | loadtest/histogram.go:266-301 | the loop returns the clamped estimate of the first bucket whose running total reaches the rank, the maximum past the last, and zero when empty |
| Quantiles.RankIsCeiling | loadtest/histogram.go:281-284 | the rank is the true ceiling of q*n, at least one, and at most n when q is at most one |
| Quantiles.WalkFindsBucket | loadtest/histogram.go:266-276 | the walk stops at exactly the bucket of the rank-th observation of any sorting of the observations |
| Quantiles.QuantileAccurate | loadtest/histogram.go:266-301 | the report lies in that bucket and in [Min, Max], clamping never moves it further from the true observation, and it is within 159/1024 of it when that is in range |
| Quantiles.ReportExactIff | loadtest/histogram.go:274-301 | a report equals the observation of its rank if and only if that observation is its bucket's estimate, or the least with the estimate below it, or the greatest with the estimate above it |
| Quantiles.OneBucketExactIff | loadtest/histogram.go:274-276 | a distribution inside one bucket is reported exactly at every rank if and only if its observations are all equal |
| Quantiles.SharedBucketInexact | loadtest/histogram.go:274-276 | two observations in one bucket whose median is reported as neither |
| Quantiles.ReportGrows | loadtest/histogram.go:277-301 | a higher rank never reports less, and every report of a non-empty distribution is within the extremes |
| Quantiles.LatencyOf | loadtest/histogram.go:249-264 | an empty distribution reports zeros; otherwise Min <= P50 <= P95 <= P99 <= Max, with the count, the extremes and the integer mean |
| Quantiles.LatencyAccurate | loadtest/histogram.go:249-301 | for every rational quantile up to one, the reported value against the true observation of its rank |
| HistogramRecorder.RunKeepsInv | loadtest/histogram.go:122-150 | over every interleaving each shard's counts, n and wrapped sum are those of the calls that have made each addition, its min only falls and its max only rises |
| HistogramRecorder.BucketsNeverBehind | loadtest/histogram.go:134-135 | at every moment of every run a shard's buckets hold at least n observations |
| HistogramRecorder.Merge | loadtest/histogram.go:226-247 | the merge loop collapses the shards: counts and n add, the sum wraps, the extremes widen |
| HistogramRecorder.MergeIsSequential | loadtest/histogram.go:226-247 | once all calls have returned, the merge is the sequential histogram of every non-negative duration recorded, on any shards in any interleaving, with exact counts and extremes and the sum modulo 2^64 |
| HistogramRecorder.RecordedQuantileAccurate | loadtest/histogram.go:266-301 | so from any interleaving of record calls to the report: each quantile up to one is reported in the bucket of the true observation of its rank, within the extremes, and within 159/1024 of it when that is in range |
| Series.SortedKeys | observers/metrics.go:545-545 | the keys of a map, each once, in ascending order |
| Series.SeriesKey | observers/metrics.go:541-555 | the loop builds the name and the sorted keys and values joined by NUL |
| Series.KeyOrder | observers/metrics.go:494-498 | for NUL-free series two keys are equal if and only if name and tags are, and comparing keys is comparing the name and then the sorted tags |
| Series.KeyUniqueIff | observers/metrics.go:538-555 | a series is the only one with its key if and only if it is untagged and its name holds fewer than two NULs |
| MetricHistory.AdmittedAreFirst | observers/metrics.go:351-374 | exactly the first maxSeries distinct series exist |
| MetricHistory.AdmittedStays | observers/metrics.go:256-262 | an established series never disappears |
| MetricHistory.OneMore | observers/metrics.go:363-374 | one more call lets its series in exactly when there is room, and is counted as dropped exactly when its series is refused |
| MetricHistory.CounterIsSum | observers/metrics.go:376-387 | a counter is the sum of its deltas modulo 2^64, and that sum itself whenever it is an int64 |
| MemRecorder.Recorder.constructor | observers/metrics.go:318-346 | an empty recorder with a sorted copy of the buckets or the defaults, and the ceiling or its default |
| MemRecorder.Recorder.Count | observers/metrics.go:376-387 | the call is appended to the history and the recorder still holds what the history says |
| MemRecorder.Recorder.Gauge | observers/metrics.go:389-400 | likewise, last write wins |
| MemRecorder.Recorder.Observe | observers/metrics.go:402-415 | likewise, with sum and count |
| MemRecorder.Recorder.Histogram | observers/metrics.go:417-443 | likewise, lifting the first bound at or above the value |
| MemRecorder.Recorder.TakeSnapshot | observers/metrics.go:508-536 | every series of every kind, in ascending key order, with the drop count |
| MemRecorder.SnapshotSeries | observers/metrics.go:494-506 | the cells of a map in ascending key order |
| MemRecorder.RecorderAgrees | observers/metrics.go:245-262 | for every call sequence each kind's map holds exactly its admitted series with the fold of every call on each, the map sizes add up to the admitted series, and the drop count is the calls on refused series |
| Labels.EscapeIsReplaced | observers/prometheus.go:241-248 | the shortcut for a value with nothing to escape changes nothing |
| Labels.FormatLabels | observers/prometheus.go:209-228 | the loop prints the braces, and the sorted keys with their escaped values between commas |
| Labels.FormatBucketLabels | observers/prometheus.go:230-239 | the labels of the tags with the formatted bound, or +Inf, under le, which shadows a tag of that name |
| Labels.BucketLabelsRead | observers/prometheus.go:230-239 | the same parser recovers the bound and every tag it does not shadow |
| Labels.LabelsRoundTrip | observers/prometheus.go:209-248 | for every tag map with legal label names and any values, a parser of the label syntax of the Prometheus text exposition format 0.0.4 recovers exactly the sorted tags |
| Labels.LabelNewlineIff | observers/prometheus.go:241-248 | the printed labels hold a newline if and only if a tag name does |
| Prometheus.WriteCounterFamilies | observers/prometheus.go:101-112 | the loop prints each series' line, preceded by a header when the name changes from the current one |
| Prometheus.WriteHistogram | observers/prometheus.go:157-167 | the loop prints a running total per bound, then the total, the sum and the count |
| Prometheus.WriteHistogramFamilies | observers/prometheus.go:149-169 | the same grouping around each histogram's lines |
| Prometheus.OneHeader | observers/prometheus.go:102-112 | in name order each family has exactly one TYPE line, and none if its name is empty |
| Prometheus.SeriesUnderHeader | observers/prometheus.go:198-207 | every sample of a named family stands directly under that family's HELP and TYPE lines |
| Prometheus.SampleIsOneLine | observers/prometheus.go:110-110 | a sample is exactly one line of text whatever its tag values hold |
| Prometheus.HistogramLinesTrue | observers/prometheus.go:144-169 | after any history and for any bucket set, the line for a bound counts exactly the values at or below it, lines never decrease, +Inf and _count are every value, and _sum is their sum |
| Prometheus.CounterFamilies | observers/metrics.go:494-506 | after any history of NUL-free series the counter section has one header per named family with all its series directly under it |
| Prometheus.HistogramFamilies | observers/prometheus.go:149-169 | the same for the histogram section |
| Scrape.CounterSection | observers/prometheus.go:101-112 | after any history the counter section has exactly one sample per counter let in, in key order, with its name, its tags and the sum of its deltas modulo 2^64, the sum itself when it is an int64 |
| Scrape.HistogramSection | observers/prometheus.go:149-169 | the histogram section has exactly the lines of each histogram let in, in key order, each true of the values observed |
| Scrape.GaugeHoldsLast | observers/metrics.go:389-400 | after any history a gauge let in holds the value of the last call on it under the name and tags of the first |
| Scrape.ObservationAddsUp | observers/metrics.go:402-415 | and an observation the sum and the number of the values observed |
| Scrape.HeadersSay | observers/prometheus.go:198-207 | every HELP line has the registered text or the name itself, and every TYPE line the section's type |
| Fairness.Tally | loadtest/fairness.go:65-68 | per-parent totals; an ordinal that names no parent is not tallied |
| Fairness.LongestRun | loadtest/fairness.go:63-81 | some single-parent run is that long and none is longer |
| Fairness.MinActiveShare | loadtest/fairness.go:83-112 | ceil(len/64) windows, and the least slice of any window among the parents with a claim at or after its start |
| Fairness.ComputeFairness | loadtest/fairness.go:41-114 | all of these together, with the empty trace's zeros |
| ClaimOrder.SeedFairness | loadtest/seed.go:364-401 | row i belongs to parent i / Children with priority banded by its rank when banding |
| ClaimOrder.BandedIsRoundRobin | loadtest/seed.go:352-357 | any (priority, scheduled_at) order of the banded rows serves parent k mod Parents at rank k / Parents at position k |
| ClaimOrder.FifoIsParentMajor | loadtest/seed.go:352-358 | under one priority the claim order is the seed order, parent after parent |
| ClaimOrder.PrefixBalanced | loadtest/seed.go:352-357 | in every prefix of the round robin two parents' claims differ by at most one |
| ClaimOrder.BandedFairness | loadtest/fairness.go:44-48 | banded with 2 to 64 parents: longest run 1, a minimum share above 1/(2 Parents), and Children claims each |
| ClaimOrder.FifoFairness | loadtest/fairness.go:44-48 | FIFO with at least 64 children and two parents: longest run Children and a minimum share of 0 |
| MonotoneId.NewMonotoneId | loadtest/seed.go:455-481 | the byte array filled by shifts and the hex string with dashes are the id of the instant and the tail |
| MonotoneId.IdIsUuidV7 | loadtest/seed.go:455-481 | every id has the form, version and variant of sections 4, 4.1, 4.2 and 5.7 of RFC 9562 |
| MonotoneId.IdReadsBack | loadtest/seed.go:455-481 | an id gives back its millisecond, its microsecond within it and the 62 random bits the variant leaves |
| MonotoneId.IdsEqualIff | loadtest/seed.go:440-481 | two ids are equal if and only if their microseconds and those 62 bits are |
| MonotoneId.IdsIncrease | loadtest/seed.go:440-454 | a later microsecond gives a greater string whatever the random tails (method 3 of section 6.2 of RFC 9562) |
| MonotoneId.AscendsIff | loadtest/seed.go:440-454 | ids of two instants are ordered for all tails if and only if the instants are |
| MonotoneId.GenerationsOrderedIff | loadtest/seed.go:285-312 | ids are ordered across all rows of all generations if and only if a generation has at most 1,000,000 rows |
| Digest.Encode | loadtest/workload.go:306-332 | the bytes written to the hash are the count and each spec's fields in turn |
| Digest.RoundTrip | loadtest/workload.go:304-332 | decoding the bytes gives back the workload |
| Digest.EncodingInjective | loadtest/workload.go:304-332 | two workloads have the same bytes only if they are equal |

## Left out

- Pause, resume, reschedule, priority and delete controls, the batch and bulk controls over many jobs, retention, audit entries, tags and statistics of the job table; a paused row can appear but no modelled action makes one.
- The UniqueActiveKey, executor classes, queues and claim-order SQL of the job table: a claim picks any ready rows in any order.
- User-supplied unique keys that spell a barrier continuation's key: continuation keys are a separate constructor.
- Barriers.ContinuationIsDeclared: a continuation takes the runtime's default max_attempts; the defaults of its kind that a barrier may store, its timeout and its tags are not modelled.
- Lease.RunKeepsInv: a client's insert under a parent id that names no row is recorded with no parent.
- SQL, gorm, transactions that fail for outside reasons, connection pools, schema, EXPLAIN capture and plan parsing.
- Poll cadence, batch sizes, the blocked-claims counter, and the fault scheduler's wall-clock triggers.
- Lease.RunKeepsInv: checkFinalize and openGate are one action each there; `FaultGate` has their single loads and stores.
- FanOut.Work: the worker's log lines, progress reports and fairness trace are not modelled.
- OutageVolume.VolumesAgreeIff: bands whose rungs overlap have both halves, `StraddleDiffers` and `DecidedVolume`, with fewer than r microseconds between them at rung r; `LadderVolumesIff` closes them for the runner's ladder.
- RetryLadder.LadderVolumesIff: a first rung or a cap under four microseconds, a worker's own NextRetry, and a table that rounds instants to the microsecond are not modelled.
- The command line, HTTP and process workers, configuration validators, report and text formatting.
- The random draws of the workload generator: arbitrary functions, with no distribution claims.
- HistogramRecorder.MergeIsSequential: counts and n do not wrap at 2^64, because a run of 2^64 observations is out of reach; the sum does wrap.
- Quantiles.Quantile: the rank is exact rational arithmetic, so the rounding of a floating-point q*n is not modelled.
- Histogram.NearestRoot: the floating-point square root and rounding are modelled by the exact nearest integer.
- MemRecorder.Recorder.Observe: sums are real numbers, so floating-point rounding, infinities and NaN are not modelled.
- MemRecorder.Recorder.Count: the drop count does not wrap at 2^63; the mutex makes each call one step.
- Prometheus.WriteCounterFamilies: a line holds its numbers and tags as values; number formatting and the error-latching writer are not modelled. The gauge and summary writers run the same grouping loop and are left out as repetitions.
- Digest.Encode: stops at the bytes handed to SHA-256; the hash itself is not modelled.
