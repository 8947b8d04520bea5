# InferCrane control plane: verified model

This project models the concurrent and arithmetic core of the InferCrane control plane in
Dafny and proves what its documentation and code rely on. `dafny verify dfyconfig.toml`
checks all of it.

| files | component |
|---|---|
| `AdmissionPool.dfy`, `AdmissionRuns.dfy`, `AdmissionFates.dfy`, `AdmissionDrain.dfy` | the in-memory admission pool, every interleaving of its callers, what becomes of each call, and why the queue drains |
| `WorkerHandler.dfy`, `WorkerRuns.dfy` | the accelerator worker's idempotency protocol: reference-counted key locks, slots, receipts |
| `ReceiptStore.dfy` | the file receipt store shared by several processes that may crash or meet file-system errors |
| `SharedDirectory.dfy`, `InterleavedPuts.dfy` | several worker handlers over one receipt directory, with Put as one event and taken apart |
| `Autoscale.dfy`, `AutoscaleRuns.dfy` | scaling decisions and the control loop around them |
| `LabEvidence.dfy`, `LabGates.dfy`, `LabRanking.dfy`, `LabVerdicts.dfy`, `LabLedger.dfy`, `LabEngine.dfy`, `LabOverspend.dfy` | the accelerator lab campaign over untrusted evidence: its checks, what they demand field by field, ranking, what an experiment comes to, the money, the engine, and a campaign that overspends |
| `Microusd.dfy`, `Text.dfy` | micro-dollar parsing and printing with 64-bit arithmetic |
| `Recorder.dfy` | the bounded accounting recorder |
| `CapacityLoop.dfy` | the capacity controller's effects |
| `Counting.dfy`, `Wrappers.dfy` | shared helpers |

## How the model is built

Objects that the source updates in place are classes whose methods carry out one critical
section each; every method is proved equal to a function on the object's contents. The
theorems about runs are about those functions: an event is one critical section (or one
branch of a `select`), a run is any sequence of enabled events, and the lemmas quantify over
all runs. A Go pointer to an `endpointState` or a `keyLock` is an index into the sequence of
all such objects ever allocated, so identity and reuse are explicit. A `notify` channel is a
generation number of its state: closing it and making a new one increments the number. What
the program does not control (workers, clocks, the fleet, rival processes) is an arbitrary
function or an arbitrary event.

## What turned out not to hold

Each of these is proved as it stands in the code, with the condition under which the
intended property does hold.

- `Replace` never wakes waiters. A snapshot that raises a limit, disables or removes a key
  strands calls that are already parked (`StrandingRun`); `ReplaceStrandsIff` says exactly
  which snapshots strand nobody, and without stranding no wake-up is lost (`NoLostWakeup`)
  and every schedule of retries, wake-ups and releases ends every call
  (`EveryScheduleDrains`).
- Worker handlers that share one receipt directory can both answer 200 under one key with
  different bytes (`TwoAnswers`). `CommittedBytesIff` gives the exact condition for every 200:
  it carries the committed bytes if and only if it is a replay, or at its Put the key was free
  or already held the same receipt. `BytesCommittedIff` is the same with all stages of all Puts
  interleaved. A handler alone over its directory runs exactly as over the memory store
  (`LoneRun`), so all its 200s carry the committed bytes (`LoneHandlerHonest`).
- A change of size that the fleet refuses leaves the counters as they were, so a low reading
  on either side of it completes a scale-down window (`FailedScaleSplitsWindow`). What holds
  in every run is that a change ends a window of recorded passes
  (`ScalesIffWindowComplete`); the window is consecutive if and only if every unrecorded pass
  in it read the same way and changed nothing (`ConsecutiveIff`).
- A change of size whose state is not saved starts no cooldown (`LostSaveSkipsCooldown`).
  The cooldown counts from the last saved change and from nothing else (`LastScaledExact`),
  so it separates every change from the last saved one before it (`CooldownBetweenChanges`);
  after an unsaved one, `AfterLostSave` says exactly when the next pass changes the size again.
- `evaluateEvidenceTarget` alone can label a decrease as a scale-up (`MislabelledDecrease`);
  `EvidenceTargetShape` gives the exact condition, which its caller rules out.
- A qualification's cost is added before it is checked for being negative, so a negative one
  lowers the recorded spend and makes room for more. `Overspend` is a campaign on a request
  that the engine accepts as it is: it succeeds, records ten dollars of ten allowed and pays
  out twenty. The condition is over what the campaign is given (`Run`): with `due` the
  experiments the plan comes to, no campaign pays out more than the profile's cost and the
  outlay of `due`, and a successful one keeps within the limit if and only if that sum does.
  Only qualifiers cause the difference (`OnlyQualifiersRebate`).

## Model

| member | source | states |
|---|---|---|
| `AdmissionPool.Pool.Replace` | internal/admission/pool.go:108-124 | The snapshot loop, run in place, produces the pool that `Publish` describes; states are looked up in the old map throughout. |
| `AdmissionPool.PublishMeaning` | internal/admission/pool.go:106-124 | For every snapshot, duplicates included: the last accepted entry per key wins, exactly the accepted keys are bound, an existing key keeps its state object with leases, queue, counters and channel, a new key gets a fresh idle object, and objects of removed keys are untouched. |
| `AdmissionPool.SnapshotInForce` | internal/admission/pool.go:108-124 | By the entries' fields: the last entry of a key with a key, positive limits and timeout and a queue depth that is not negative is in force afterwards, and a key without such an entry is not limited. |
| `AdmissionPool.Pool.EnterAcquire` | internal/admission/pool.go:140-177 | The first critical section of Acquire changes the pool and answers as `Enter` describes. |
| `AdmissionRuns.RefusedIffTurnedAway` | internal/admission/pool.go:141-177 | In every run, at any time after its arrival, a call stands refused for size, output, priority or concurrency if and only if the policy in force at its arrival and the load at that moment gave that reason first; no later event refuses it at the door or takes the refusal back. |
| `AdmissionFates.ArrivalExact` | internal/admission/pool.go:140-177 | A call with no enabled policy goes through without a lease; any other takes a lease, joins the queue or is refused, each if and only if its request, the free slots and the free places say so. |
| `AdmissionPool.Pool.RecheckQueue` | internal/admission/pool.go:182-196 | One turn of the waiting loop: gone or disabled state, free slot, or wait on the current generation. |
| `AdmissionPool.Pool.ReleaseLease` | internal/admission/pool.go:290-303 | The one-shot release: one lease fewer, and the current channel closed and replaced. |
| `AdmissionPool.Pool.DropWaiter` | internal/admission/pool.go:305-311 | removeWaiter with its guard. |
| `AdmissionPool.Pool.ChargeTimeout` | internal/admission/pool.go:203-206 | The second critical section of a queue timeout counts a rejection and a timeout. |
| `AdmissionFates.CallMoves` | internal/admission/pool.go:181-210 | The life of one call, event by event: a retry leaves the pool if and only if the state no longer serves the key, takes a lease if and only if it does with a free slot, and parks on the current channel otherwise; a parked call moves only by waking, its timer or its context; only a lease is released. |
| `AdmissionFates.LeaseTakesSlot` | internal/admission/pool.go:182-196 | A retry takes the slot if and only if it gets the lease, and leaves the queue if and only if it does not park again. |
| `AdmissionFates.QueueIsLeftBy` | internal/admission/pool.go:181-210 | In every run a queued call stays in the queue of its state until a retry with a free slot, a retry after the state stopped serving its key, its timer or its context; the event is exhibited. |
| `AdmissionFates.OnlyLeases` | internal/admission/pool.go:181-210 | While its state serves its key and neither timer nor context ends, a queued call leaves the queue only into a lease. |
| `AdmissionFates.FailureCause` | internal/admission/pool.go:146-209 | In every run a call fails by its own timer, its own context or its own arrival, as its error says; the event is exhibited. |
| `AdmissionRuns.StepInv` | internal/admission/pool.go:108-311 | Every critical section, in every state that satisfies it, keeps the invariant: counters balance with calls, keys own their states, and a call parked on an open channel has seen no release since. |
| `AdmissionRuns.Conservation` | internal/admission/pool.go:136-211 | In every state of every run, each state object's active, waiting, rejected and timeout counters equal the number of outstanding leases, queued calls, counted refusals and timed-out calls. |
| `AdmissionRuns.GuardsAlwaysHold` | internal/admission/pool.go:290-311 | The `> 0` guards of release and removeWaiter never take their false branch, whatever is released twice, cancelled or timed out. |
| `AdmissionRuns.PressureWithinPublished` | internal/admission/pool.go:146-176 | A state object never has more leases, or waiters, than the largest limit, or queue depth, published for it so far. |
| `AdmissionRuns.ReductionHolds` | internal/admission/pool.go:166-194 | After a limit is lowered the number of leases cannot rise until it is below the new limit. |
| `AdmissionRuns.StrandedOnlyByReplace` | internal/admission/pool.go:181-210 | A call that waits although it could go was overtaken by a policy change after it parked: state removed, disabled, or limit raised above the one that turned it away; the moment it parked is exhibited. |
| `AdmissionRuns.ReplaceStrandsIff` | internal/admission/pool.go:108-124 | A snapshot leaves nobody stranded if and only if it publishes every parked call's key, enabled, with a limit its leases use up. |
| `AdmissionRuns.NoLostWakeup` | internal/admission/pool.go:181-210 | In every interleaving with such snapshots, a free slot leaves every queued call able to retry or wake without its timer. |
| `AdmissionRuns.ParkedUntilReleased` | internal/admission/pool.go:195-209 | A call on an open channel stays there exactly until a release of its own state, its timer or its context; no Replace moves it. |
| `AdmissionRuns.StrandingRun` | internal/admission/pool.go:108-124 | A concrete run in which raising a limit strands a waiter. |
| `AdmissionDrain.SomeCallCanAct` | internal/admission/pool.go:181-210 | No deadlock: while a call is unfinished and none is stranded, some call can act without timer, cancellation or new policy. |
| `AdmissionDrain.ServeProgress` | internal/admission/pool.go:181-210 | Whichever unfinished call acts, by a retry, a wake-up, a charge or a release, the potential falls. |
| `AdmissionDrain.EveryScheduleDrains` | internal/admission/pool.go:136-211 | From every such state no schedule of such actions is longer than the potential, and one cannot be continued if and only if it has ended every call. |
| `AdmissionDrain.QueueDrains` | internal/admission/pool.go:136-211 | Such a complete schedule exists. |
| `WorkerHandler.Handler.RegisterKey` | internal/acceleratorworker/handler.go:212-222 | Finding or creating the key's lock and taking a reference. |
| `WorkerHandler.Handler.DeregisterKey` | internal/acceleratorworker/handler.go:226-231 | Dropping a reference, and the map entry with the last one. |
| `WorkerHandler.Handler.TryAcquireSlot` | internal/acceleratorworker/handler.go:235-249 | A slot is taken exactly when fewer than max(1, MaxConcurrent) are. |
| `WorkerHandler.Handler.ReleaseSlot` | internal/acceleratorworker/handler.go:251 | Returning a slot. |
| `WorkerHandler.Handler.Put` | internal/acceleratorworker/handler.go:55-64 | The memory store refuses another digest and otherwise stores the receipt, replacing one with the same digest. |
| `WorkerRuns.StepInv` | internal/acceleratorworker/handler.go:140-233 | Every action of every job keeps the invariant: reference counts, mutexes and slots balance with the jobs, keys map to their locks one to one, and replies agree with the receipts. |
| `WorkerRuns.Exclusion` | internal/acceleratorworker/handler.go:137-141 | Two jobs with one key are never both between lock and unlock. |
| `WorkerRuns.KeyLockExact` | internal/acceleratorworker/handler.go:211-233 | In every state of every run a key has a lock object exactly while a job is present under it, its reference count is the number of those jobs, they all use that object, and at most one is inside. |
| `WorkerRuns.SlotsExact` | internal/acceleratorworker/handler.go:154-158 | Slots in use are exactly the jobs that took one and have not returned it, at most max(1, MaxConcurrent), and no replayed answer holds one. |
| `WorkerRuns.ReceiptsPermanent` | internal/acceleratorworker/handler.go:142-153 | A committed receipt never changes or disappears. |
| `WorkerRuns.CommitOnce` | internal/acceleratorworker/handler.go:200-207 | A key is committed at most once in a run. |
| `WorkerRuns.RepliesMatchReceipts` | internal/acceleratorworker/handler.go:142-208 | An operation executes only while its key has no receipt, every 200 carries the committed bytes under the caller's digest, and every conflict is one. |
| `WorkerRuns.AfterCommit` | internal/acceleratorworker/handler.go:145-153 | Under a committed key no job is ever executed again; its answer is the committed bytes for the same digest, a conflict for another, or an error. |
| `WorkerRuns.ReceiptOrigin` | internal/acceleratorworker/handler.go:195-200 | Every committed receipt is what an execution returned, for a job that arrived with that key and digest; both events are exhibited. |
| `WorkerRuns.ErrorCause` | internal/acceleratorworker/handler.go:140-208 | A job answers with an error only if it failed; the event is exhibited. |
| `WorkerRuns.AnsweredByDigest` | internal/acceleratorworker/handler.go:142-208 | A job that did not fail is answered 200 with the committed bytes if and only if its digest is the committed one, and with a conflict otherwise. |
| `WorkerRuns.ReplayExact` | internal/acceleratorworker/handler.go:145-152 | A job that looks up a committed key and does not fail is answered with the committed bytes, marked as replayed, if and only if its digest is the committed one, and with a conflict otherwise. |
| `WorkerRuns.SomeJobCanAct` | internal/acceleratorworker/handler.go:140-158 | Deadlock freedom of the key-lock-then-slot order: while a job is unfinished some job can act, with no operation failing or being cancelled. |
| `WorkerRuns.ScheduleBounded` | internal/acceleratorworker/handler.go:103-209 | Without arrivals every schedule ends within the total remaining work of the jobs. |
| `WorkerRuns.EveryScheduleFinishes` | internal/acceleratorworker/handler.go:103-209 | Every schedule without arrivals or failures is bounded by that work, and cannot be continued if and only if it has answered every job. |
| `WorkerRuns.EveryJobFinishes` | internal/acceleratorworker/handler.go:103-209 | From every state that satisfies the invariant, some schedule without failures answers every job. |
| `ReceiptStore.FileReceiptStore.Put` | internal/acceleratorworker/receipt_store.go:48-109 | One Put against any links rivals get in between and any file-system errors: nothing committed changes, it fails if and only if a stage it reaches fails, and otherwise the outcome is nil exactly when the digest committed in the end is its own; the directory afterwards is exact in every case. |
| `ReceiptStore.StepInv` | internal/acceleratorworker/receipt_store.go:48-109 | Every step of every call, crashes and file-system errors included, keeps outcomes true, every receipt owned by one winner, and every earlier receipt as it was. |
| `ReceiptStore.ReceiptsPermanent` | internal/acceleratorworker/receipt_store.go:87-103 | First writer wins: across processes, crashes and errors a committed receipt is never replaced or removed. |
| `ReceiptStore.CommittedByExactlyOneCall` | internal/acceleratorworker/receipt_store.go:87-103 | Every committed receipt is the argument of exactly one call, which reached its link. |
| `ReceiptStore.OutcomeExact` | internal/acceleratorworker/receipt_store.go:49-108 | A returned Put that the file system did not fail says nil if and only if the committed digest is its own, a conflict otherwise; it is invalid if and only if its receipt was incomplete. |
| `ReceiptStore.CallOrigin` | internal/acceleratorworker/receipt_store.go:48-51 | A call keeps the key and the receipt it was started with. |
| `ReceiptStore.FaultCause` | internal/acceleratorworker/receipt_store.go:54-99 | A Put reports a file-system error only if there was one; the event is exhibited. |
| `ReceiptStore.NoFaultSettles` | internal/acceleratorworker/receipt_store.go:48-109 | A Put that returned and met no error says nil, conflict or incomplete. |
| `ReceiptStore.LostLinkIsReadable` | internal/acceleratorworker/receipt_store.go:91-98 | The read after a lost link always has a receipt to find. |
| `ReceiptStore.StopCommitsNothing` | internal/acceleratorworker/receipt_store.go:52-103 | A crash or a file-system error changes no receipt, and a call stopped before its link is never the author of one. |
| `ReceiptStore.TemporariesCleaned` | internal/acceleratorworker/receipt_store.go:74 | A finished Put leaves no temporary file. |
| `ReceiptStore.PutTakesEffectAtOnce` | internal/acceleratorworker/receipt_store.go:54-103 | Every Put that returned nil or a conflict has one decisive event, the first read if it finds a file and the link otherwise, at which it acts as one atomic create-without-replace: outcome and directory are decided there, and the committed bytes are its own if and only if the key was then free or held the same receipt. |
| `ReceiptStore.Linearized` | internal/acceleratorworker/receipt_store.go:54-103 | In every run, crashes and errors included, the directory is what atomic Puts in the order of the decisive events would have made of it. |
| `ReceiptStore.DecidesOnce` | internal/acceleratorworker/receipt_store.go:54-103 | No call has two decisive events. |
| `ReceiptStore.BothReturnNil` | internal/acceleratorworker/receipt_store.go:90-103 | A run of two processes with one key and digest and two outputs in which both Puts return nil. |
| `SharedDirectory.StepInv` | internal/acceleratorworker/handler.go:140-208 | Every action of any of the handlers keeps each handler's locks and slots balanced and every answer true to the directory: conflicts are conflicts, a 200 is for the committed digest, a replay has the committed bytes. |
| `SharedDirectory.FilesPermanent` | internal/acceleratorworker/receipt_store.go:87-103 | Whichever handler committed it, a receipt stays for the rest of the run. |
| `SharedDirectory.OneWorkerPerHandler` | internal/acceleratorworker/handler.go:137-141 | Each handler has at most one job at work under a key at any time. |
| `SharedDirectory.StoreOncePerHandler` | internal/acceleratorworker/handler.go:137-207 | No handler ever puts a second receipt under a key. |
| `SharedDirectory.AfterCommit` | internal/acceleratorworker/handler.go:142-153 | Once a key is committed by any handler, a job that is not yet at work under it, on any handler, is never executed; its answer is a replay of those bytes, a conflict or an error, decided by its digest. |
| `SharedDirectory.FileOrigin` | internal/acceleratorworker/handler.go:195-200 | Every committed receipt is what an execution on some handler returned, for a job that arrived there with that key and digest. |
| `SharedDirectory.ErrorCause` | internal/acceleratorworker/handler.go:140-208 | On every handler a job answers with an error only if it failed. |
| `SharedDirectory.ReplayExact` | internal/acceleratorworker/handler.go:145-152 | Once any handler has committed a key, a late job on any handler that never fails is answered with those bytes, marked as replayed, if and only if its digest is the committed one, and with a conflict otherwise. |
| `SharedDirectory.CommittedBytesIff` | internal/acceleratorworker/handler.go:149-208 | Every 200 is for the committed digest; it carries the committed bytes if and only if it is a replay, or at its Put, which is exhibited, the key was free or held the same receipt. |
| `SharedDirectory.LoneRun` | internal/acceleratorworker/handler.go:140-208 | The runs of one handler alone over the directory are, event by event, runs of the handler over the memory store. |
| `SharedDirectory.LoneHandlerHonest` | internal/acceleratorworker/handler.go:142-208 | With one handler every 200 carries the committed bytes. |
| `SharedDirectory.TwoAnswers` | internal/acceleratorworker/handler.go:200-208 | A run of two handlers that answer 200 under one key with different bytes. |
| `InterleavedPuts.MoveSimulated` | internal/acceleratorworker/receipt_store.go:48-109 | Every stage of a Put and every other action is one step of the fleet or none: a Put takes effect at the read that finds a file or at the link that succeeds. |
| `InterleavedPuts.RefinesFleet` | internal/acceleratorworker/receipt_store.go:48-109 | However the reads, files and links of all Puts interleave with one another and with all actions of all handlers, errors included, the effects form a run of the fleet in which a Put is one event. |
| `InterleavedPuts.BytesCommittedIff` | internal/acceleratorworker/handler.go:149-208 | In every such interleaving a 200 is for the committed digest, and carries the committed bytes if and only if it is a replay, or at the read or link that decided its Put, which is exhibited, the key was free or held the same receipt. |
| `InterleavedPuts.ErrorCauseInterleaved` | internal/acceleratorworker/handler.go:140-208 | However the stages interleave, a job answers with an error only if it failed. |
| `Autoscale.TargetMeaning` | internal/autoscale/autoscale.go:148-149 | The clamped ceiling is the least allowed replica count that carries the measured load, or the maximum when none does. |
| `Autoscale.FallbackExact` | internal/autoscale/autoscale.go:114-147 | Evidence without an objective, a measurement of each, twenty samples of requests and of a comparable benchmark, and both rates leaves the decision to the queue; any other does not depend on the queue. |
| `Autoscale.EvidenceDecides` | internal/autoscale/autoscale.go:131-188 | Over the numbers measured: outside the cooldown conclusive evidence scales up, or counts towards it, if and only if a p95 exceeds its objective or the load needs more replicas; down if and only if none does and it needs fewer. |
| `Autoscale.QuietHolds` | internal/autoscale/autoscale.go:71-78 | While disabled or less than Cooldown after a change both evaluators hold and reset both counters. |
| `Autoscale.ErrsExactly` | internal/autoscale/autoscale.go:61-69 | Which policies and sizes each evaluator refuses. |
| `Autoscale.DecisionShape` | internal/autoscale/autoscale.go:60-159 | From any in-bounds state both evaluators stay in bounds, scale by exactly one in the direction named, keep at most one counter, and never scale down on a breached objective. |
| `Autoscale.EvidenceTargetShape` | internal/autoscale/autoscale.go:161-188 | The evidence evaluator alone has that shape if and only if it does not scale up towards a target at or below the current size. |
| `Autoscale.MislabelledDecrease` | internal/autoscale/autoscale.go:174-178 | An input on which it calls a decrease a scale-up. |
| `AutoscaleRuns.AlwaysInBounds` | internal/autoscale/controller.go:64-85 | Along every run, whatever scaling or saving fails, the size stays within the policy. |
| `AutoscaleRuns.TickCounters` | internal/autoscale/autoscale.go:70-107 | For both evaluators and both directions the decision is exactly determined by high and low readings: a change happens if and only if the reading completes its counter and the bound allows, and the counters are exact. |
| `AutoscaleRuns.ReadingExact` | internal/autoscale/autoscale.go:71-104 | When a pass reads high and when low, over the numbers measured. |
| `AutoscaleRuns.NothingChanged` | internal/autoscale/controller.go:66-78 | A pass that errs or whose change is refused leaves the state as it was, and one that does not scale changes no size. |
| `AutoscaleRuns.CountersAreWindows` | internal/autoscale/controller.go:70-85 | In every run, whatever was refused or not saved, a counter is the number of recorded passes since the last recorded pass that did not read its way or changed the size. |
| `AutoscaleRuns.OneCounter` | internal/autoscale/autoscale.go:79-104 | In every run at most one counter is nonzero. |
| `AutoscaleRuns.ScalesIffWindowComplete` | internal/autoscale/autoscale.go:79-104 | In every run a pass decides to scale up (down) if and only if it reads high (low), the bound allows, and it completes a window of recorded steady passes with only unrecorded ones between them. |
| `AutoscaleRuns.ConsecutiveIff` | internal/autoscale/controller.go:70-85 | Behind a change the window's passes were consecutive if and only if every unrecorded pass among them was steady too. |
| `AutoscaleRuns.StabilityWindow` | internal/autoscale/autoscale.go:165-187 | With nothing refused or lost inside the window, every scale-up (scale-down) ends at least ScaleUpIntervals (ScaleDownIntervals) consecutive high (low) passes with no scaling, disabled or cooldown pass inside. |
| `AutoscaleRuns.FailedScaleSplitsWindow` | internal/autoscale/controller.go:70-78 | For every policy with windows of one and two, a refused scale-up between two low readings does not reset the scale-down window. |
| `AutoscaleRuns.LastScaledExact` | internal/autoscale/controller.go:75-85 | In every run the time the cooldown counts from is that of the last saved change, which is exhibited, or the initial one if there is none. |
| `AutoscaleRuns.CooldownBetweenChanges` | internal/autoscale/autoscale.go:75-78 | A change of size is at least Cooldown after the last saved change before it, whatever was changed without being saved in between. |
| `AutoscaleRuns.AfterLostSave` | internal/autoscale/controller.go:70-85 | After any unsaved change, by either evaluator and in either direction, only the size has moved, and the next pass changes it again if and only if it reads high (low), the old counter completes the window and the new size leaves room. |
| `AutoscaleRuns.LostSaveSkipsCooldown` | internal/autoscale/controller.go:75-85 | A family of inputs on which an unsaved scale-up is followed at once by another, under any cooldown, and a saved one is not. |
| `AutoscaleRuns.Trajectory` | internal/autoscale/autoscale.go:161-188 | Under constant usable evidence the state after n passes is exact: so many whole intervals, so many replicas moved, so many passes waited. |
| `AutoscaleRuns.Convergence` | internal/autoscale/autoscale.go:148-188 | The loop is at the demand target if and only if at least distance times interval passes have been made: it arrives exactly then and never leaves. |
| `AutoscaleRuns.BreachTrajectory` | internal/autoscale/autoscale.go:150-188 | Under constant usable evidence of a breached objective the state after n passes is exact, whatever the demand. |
| `AutoscaleRuns.BreachConvergence` | internal/autoscale/autoscale.go:150-188 | Under a lasting breach the loop is at MaxReplicas if and only if ScaleUpIntervals passes have been made for each replica it lacked. |
| `LabEvidence.SelectSource` | internal/acceleratorlab/engine.go:690-705 | The two loops return the pin of the first pinned name, implementations that are not bundled before compilers. |
| `LabEvidence.SelectedIsPinned` | internal/acceleratorlab/engine.go:690-705 | There is a source if and only if some name is pinned, and it is the pin of the first such name. |
| `LabEvidence.SelectedExact` | internal/acceleratorlab/engine.go:690-705 | A source is chosen if and only if the candidate names a pinned one, by an implementation that is not bundled or by a compiler, and by an implementation whenever one is pinned. |
| `LabEvidence.FirstExistingChosen` | internal/acceleratorlab/engine.go:691-698 | The first pinned implementation that is not bundled is chosen. |
| `LabEvidence.FirstCompilerChosen` | internal/acceleratorlab/engine.go:699-704 | Without one, the first pinned compiler is chosen. |
| `LabGates.ProfileIff` | internal/acceleratorlab/engine.go:610-615 | A profile is accepted if and only if it is measured, immutable and of this request, field by field. |
| `LabGates.GenerationIff` | internal/acceleratorlab/engine.go:629-653 | A generated source is accepted if and only if it is bound to request, candidate and profile and has provenance, license, artifacts and, under research, a valid receipt that retains it. |
| `LabGates.BuildIff` | internal/acceleratorlab/engine.go:617-627 | A build is accepted if and only if it passed for this request, with named builder and environment, immutable source and receipt, checks and retrievable artifacts. |
| `LabGates.QualificationReasons` | internal/acceleratorlab/engine.go:655-688 | Each reason is given if and only if its own condition on policy and evidence holds, and evidence that does not match gets that reason alone. |
| `LabGates.RequestIff` | internal/acceleratorlab/engine.go:524-608 | A request is accepted if and only if it has none of the fourteen faults that validateAndDigest reports, each stated over its fields. |
| `LabGates.CheckSources` | internal/acceleratorlab/engine.go:560-577 | The loop over the pinned sources with the names seen so far. |
| `LabGates.ValidateRequest` | internal/acceleratorlab/engine.go:524-577 | Accepts exactly the admissible requests. |
| `LabRanking.BetterIsStrictOrder` | internal/acceleratorlab/engine.go:457-466 | The comparator is a strict order whose ties share a candidate ID. |
| `LabRanking.NoWorseIff` | internal/acceleratorlab/engine.go:457-466 | Not being beaten by the comparator means: at least as fast end to end; at the same speed, no more cost regression; at the same cost, an ID that does not come later. |
| `Text.BeforeIff` | internal/acceleratorlab/engine.go:465 | Strings compare by the first position at which they differ. |
| `LabRanking.WinnerUnique` | internal/acceleratorlab/engine.go:457-467 | The winner is the same for any order of the qualified experiments and any others around them. |
| `LabRanking.HeadOfAnySort` | internal/acceleratorlab/engine.go:457-467 | The head of any sort by the comparator, stable or not, is no worse than any qualified experiment. |
| `LabRanking.Winner` | internal/acceleratorlab/engine.go:446-467 | There is a winner if and only if something qualified; no qualified experiment is faster end to end, none as fast regresses cost less, and none equal in both has an earlier ID. |
| `LabVerdicts.ExperimentExact` | internal/acceleratorlab/engine.go:341-444 | For every answer of the workers: each failure code happens for exactly one state of pins, generation, build, measurement and gates, the verdict is the one that goes with it, and the recorded evidence is exactly what was accepted. |
| `LabVerdicts.QualifiedIffBound` | internal/acceleratorlab/engine.go:341-444 | Whatever the workers return, an experiment is qualified if and only if, field by field, its source is pinned or generated for this request, candidate and profile, all evidence carries the request's digest, both measurements match its hardware, topology, image and workload, the measured artifact is a retrievable one of its own trusted build, and the measurement is correct and meets every gate of the policy. |
| `LabVerdicts.FaithfulDocumented` | internal/acceleratorlab/engine.go:341-445 | The list of experiments is in plan order and exactly its bound experiments are qualified. |
| `LabLedger.OnlyQualifiersRebate` | internal/acceleratorlab/engine.go:319-437 | However a campaign ends, what it paid out is the recorded cost plus the rebates, every charge directly follows the call of the worker it pays, and only a qualifier's can be negative. |
| `LabEngine.CheckAuthority` | internal/acceleratorlab/engine.go:757-766 | Reads the clock once and passes exactly before AuthorizedUntil. |
| `LabEngine.Pay` | internal/acceleratorlab/engine.go:720-725 | Adds an accepted cost and passes exactly when the total is within the limit and not negative; only a positive amount is paid out. |
| `LabEngine.Attempt` | internal/acceleratorlab/engine.go:341-445 | One candidate, in place: the experiment is what its evidence makes of it, the cost grows by what is recorded in it and the outlay by what it pays out, never by more than what is due for it, calls are licensed, an early stop has an excuse that concerns this candidate, and one over money only if this candidate cannot be afforded. |
| `LabEngine.Campaign` | internal/acceleratorlab/engine.go:341-445 | The loop over the plan: experiments are faithful and in order; on success all of them are there and paid for one after the other, cost and outlay are their totals, and otherwise the next candidate is named with its excuse. |
| `LabEngine.CaptureProfile` | internal/acceleratorlab/engine.go:295-324 | The baseline: it succeeds only with engine and capabilities in place and a trusted, affordable profile, has paid no more than that, and left alone fails only over money. |
| `LabEngine.CutShort` | internal/acceleratorlab/engine.go:341-445 | A campaign that stops early has paid out no more than the outlay that is due, and if only money can stop it, it could not afford what is due. |
| `LabEngine.Run` | internal/acceleratorlab/engine.go:289-472 | Over every request and environment: nothing is called unless the request is admissible; each worker call directly follows a clock reading before the deadline with recorded spend within the limit, each charge directly follows the call it pays, only a qualifier can lower that spend, experiments are faithful and in plan order, on success there is one per candidate, the cost is the profile's plus theirs, the state is qualified if and only if some experiment is, the winner is no worse than any qualified experiment, and a failure has a cause. Over what the campaign is given: it never pays out more than the profile and the outlay that is due, on success that outlay is within the limit if and only if this sum is, and a campaign that time, reports and intents leave alone succeeds if and only if it can afford its profile and then each charge that is due. |
| `LabOverspend.AdmittedAsIs` | internal/acceleratorlab/engine.go:474-608 | The request of that campaign is one that normalize leaves alone and validateAndDigest accepts. |
| `LabOverspend.Overspend` | internal/acceleratorlab/engine.go:407-437 | On that request a successful campaign, every call licensed, pays out more than MaxCostUSD and records no more than it. |
| `Microusd.SplitOnPoint` | cmd/infercrane/main.go:2960 | The parts have no points, and joined by points they are the text. |
| `Microusd.ParseInt` | cmd/infercrane/main.go:2971-2980 | A digit string's value, or nothing when it exceeds 64 bits. |
| `Microusd.Combine` | cmd/infercrane/main.go:2971-2985 | The 64-bit sum accepts exactly amounts from 1 to 2^63 - 1, wrap-around included. |
| `Microusd.ParseMicrousd` | cmd/infercrane/main.go:2958-2986 | A string is accepted if and only if, trimmed, it is digits with an optional point and up to six more whose value in millionths lies in [1, 2^63 - 1], and that value is returned. |
| `Text.TrimSpaceExact` | cmd/infercrane/main.go:2959 | Trimming takes away the spaces at both ends, all of them and nothing else. |
| `Microusd.DenotesOnce` | cmd/infercrane/main.go:2958-2986 | A string denotes at most one amount. |
| `Microusd.FormatDenotes` | cmd/infercrane/main.go:2988-2990 | A printed amount that is not negative denotes itself and nothing else. |
| `Microusd.FormatShape` | cmd/infercrane/main.go:2988-2990 | An amount that is not negative is printed as its dollars without leading zeros, a point and six digits of millionths. |
| `Microusd.NegativeShape` | cmd/infercrane/main.go:2988-2990 | A negative amount is printed with a minus sign of its own before each part that is not zero. |
| `Microusd.NegativeUnread` | cmd/infercrane/main.go:2988-2990 | A printed negative amount denotes nothing. |
| `Microusd.Reparse` | cmd/infercrane/main.go:2958-2990 | Printing then parsing any 64-bit value returns it if it is at least one, and refuses it otherwise. |
| `Recorder.Recorder.RecordRequest` | internal/accounting/recorder.go:48-59 | Submitting never blocks and queues or drops the record. |
| `Recorder.Recorder.TakeNext` | internal/accounting/recorder.go:62 | A worker takes the oldest queued record. |
| `Recorder.Recorder.Finish` | internal/accounting/recorder.go:64-73 | The sink's answer is counted as persisted or failed. |
| `Recorder.StepInv` | internal/accounting/recorder.go:48-92 | Every step keeps the counters exact, the queue in order of submission, and each record with one fate. |
| `Recorder.Conservation` | internal/accounting/recorder.go:48-75 | In every state of every run, submitted = dropped + queued + in flight + persisted + failed, and each exported counter counts the records it names. |
| `Recorder.DropOnlyWhenFull` | internal/accounting/recorder.go:50-57 | A record is dropped if and only if it is submitted to a full queue. |
| `Recorder.FirstInFirstOut` | internal/accounting/recorder.go:50-62 | A record is never still queued when a later one has left the queue. |
| `Recorder.FateCause` | internal/accounting/recorder.go:48-75 | In every run a record is dropped because it met a full queue, persisted because the sink took it and failed because the sink refused it; the event is exhibited. |
| `Recorder.CloseDrains` | internal/accounting/recorder.go:80-87 | When Close returns nil nothing is queued or in flight and every record was dropped, persisted or failed. |
| `Recorder.CloseTerminates` | internal/accounting/recorder.go:60-92 | No run goes on after Close for more events than the backlog at that moment, and a run cannot go on if and only if all workers have exited. |
| `CapacityLoop.Once` | internal/autoscale/capacity_controller.go:46-93 | For every failure pattern the effects are exactly those owed for every deployment up to the end of the list or of the context, and nil is returned if and only if all were reached and no stage failed. |
| `CapacityLoop.Deployment` | internal/autoscale/capacity_controller.go:59-90 | The effects and the failure of one deployment. |
| `CapacityLoop.ScaleFollowsAdmission` | internal/autoscale/capacity_controller.go:75-80 | Every change of fleet size directly follows the successful admission of a decision with the same target for the same deployment. |
| `CapacityLoop.AdmittedOnce` | internal/autoscale/capacity_controller.go:59-75 | Admission is asked exactly once for every deployment whose demand was read and whose decision was made. |
| `CapacityLoop.ScaledOnce` | internal/autoscale/capacity_controller.go:79-80 | The fleet is asked exactly once for every admitted decision to scale up or down, with its target, and for nothing else. |
| `CapacityLoop.RecordedOnce` | internal/autoscale/capacity_controller.go:75-90 | Each admitted deployment is recorded exactly once, with its decision or as a failed change of size, and no other is. |

## Left out

- Floating point: NaN, infinities and rounding; costs, speedups, loads and thresholds are reals, and the conversion of a huge ratio to a Go int is not modelled.
- Integer widths other than the 64-bit sum of the money parser: counters are unbounded.
- Time: instants are integers, differences do not saturate, and a queue timer or a context may fire whenever its call waits.
- The nil pool, the read-only accessors of the pool (State, RetryBudget, RequestTimeout) and its metrics: easy.
- The HTTP front of the worker (authorization, routes, body limits, artifacts) and JSON: a job starts at its key and digest, and every error answer is one `Fail` event.
- SHA-256: file names stand for keys and digests are opaque, so there are no collisions.
- ReceiptStore.FileReceiptStore.Put: why the file system fails (permissions, decoding, a full disk) is not modelled, only at which stage; the removal of the temporary file does not fail.
- AutoscaleRuns.AlwaysInBounds: the new size is visible to the next pass; the fleet's asynchronous operations are not modelled.
- LabEngine.Run: takes the request after normalize; the capability catalog, the planner and kernel research are inputs, and so is the verdict on a research policy.
- LabRanking.Winner: picks the minimum in one pass where the source sorts; `HeadOfAnySort` shows that any sort yields the same winner.
- The recorder's Close with an expired context, its sink timeouts and its logging.
- EvaluateCapacityEnvelope: its decision is an arbitrary input of the capacity loop.
- Error texts, reasons, progress percentages and logs.
