# A verified model of the cTrader execution engine

The engine under `ctrader-engine/src` takes trade candidates from a stream, sends orders to a
broker, and manages the positions that come of them. Two parts of it are hard, and this project
models both in Dafny and proves what they are for.

**Executing a candidate at most once.** Workers share a store with one record per candidate.
Atomic scripts claim it under a lease, renew the lease, move the record on, complete it, and count
empty broker snapshots. `CandidateRecord`, `CandidateScripts` and `CandidateStore` model the
record, what each script does to it, and the scripts themselves as methods of a class that
rewrites its map in place; `ClaimRules` says what they mean for the workers. `Heartbeat` models
the object that keeps a lease alive. `LeaseProtocol` and `AbsenceQuorum` reason about whole runs
of the scripts with any number of workers, crashes, waiting and key expiry; `Recovery` adds
executors, recovery workers and the broker; `Adoption` decides what one snapshot says;
`GateLimits` and `ReleaseLimits` hold runs that go wrong and say exactly when.

**Managing positions.** `VolumePlanner` and `TargetAllocation` split volume over a ladder of
targets and spread that ladder over entry legs; `VolumeRules` and `AllocationRules` say what their
answers mean. `StopTrail` moves stops behind booked targets. `ScaleIn`, `ScaleInRules` and
`GroupRisk` size additions under a loss ceiling, and `AddLimits` says when the engine adds at all.
`Positions` and `PositionBook` model the mutable book of tracked positions, with ghost logs of
what the broker executed and which stops it accepted; `PositionRules` says what its decisions
mean, and `BookLimits` is a run of that book that goes wrong. `MissingPositions` decides when a
position the broker no longer shows is gone. `CommentCodec` and `PositionComments` write and read
the comment from which a restarted engine rebuilds a position.

Beside these, `StructureStop` places the first protective stop, `Lifecycle` records the state of a
candidate event by event, and `BarSeries` keeps a bounded window of closed bars. `Prices`, `Arith`,
`Sums` and `Common` are shared ground: exact prices, ticks, rounding and sums.

`dafny verify dfyconfig.toml` checks everything.

## What the proofs found

Each of these is the code as it stands, stated as a lemma: a concrete run, the exact condition under
which the code does what it promises, or both.

- The comment in `CandidateExecutionScripts.cs:279-281` says a crashed recovery stays
  recovery-required. A claim and a renewal store the record with a lifetime equal to the lease, so
  the key is gone when the lease runs out and the candidate starts over
  (`LeaseProtocol.EvictionLosesTheCandidate`, `LeaseProtocol.RestartsExactlyAfterEviction`). In every
  run a retry takes either a recovery's release or a claim of such a lost key
  (`LeaseProtocol.RetryTakesReleaseOrEviction`).
- The gate before a broker call (`AutoTradeEngine.cs:8521-8544`) renews and then reads the state
  without looking at the token; the comment there says ownership is proven. That is so while less
  than a lease passes between the two (`GateLimits.TimelyGateReadIsOwn`), and at-most-once holds
  then; for every longer delay there is a run in which the broker accepts an order of two claims
  (`GateLimits.StalledGateLetsTwoClaimsThrough`).
- A crash between the release of an absent candidate and the clearing of its progress leaves the
  old count behind. If the candidate passes the gate again before it is cleared or has run out, one
  snapshot completes the next quorum, and the broker can accept an order of two claims
  (`ReleaseLimits.StaleQuorumLetsTwoClaimsThrough`,
  `ReleaseLimits.FirstCheckCountsFromOneExactlyAfterClear`); otherwise at-most-once holds
  (`Recovery.AtMostOneClaimReachesTheBroker`).
- The group's booked money, from which additions are sized, grows only at targets. Stop-outs and
  owner closes never reach it, so a loss already taken can be risked again
  (`AddLimits.ForgottenLossIsRiskedAgain`), by a run in which every add meets the engine's own
  conditions. The ceiling holds throughout a run exactly when every add
  fits the true headroom (`GroupRisk.CeilingHolds`), so whenever nothing is lost unbooked, net, at
  an add (`GroupRisk.NothingUnbookedHolds`).
- A reported target of a manual group moves the stop at the broker and in the store but not in the
  live book, so a later group protection, planned from the old stop, can loosen it
  (`BookLimits.ReportedStopIsLost`). A reported stop is taken back exactly when the later one is an
  improvement on what the book remembers and the price of the reported target's trail target lies
  beyond it (`Positions.ReportIsTakenBackExactly`); without a report the broker's stops ratchet over
  the whole run (`Positions.NoReportNoLoosening`).
- A leg that joins a group with a total of zero leaves the group's figure right exactly when the
  group had not booked a loss (`Positions.JoiningLegKeepsTheTotal`).
- A manual leg rebuilt from its comment starts over with its first target, which is right exactly
  while its first slice is not closed yet (`PositionComments.ManualStartsOver`,
  `PositionComments.RestartBooksAgain`).
- A size the caps allow but the broker does not take at once is refused as below the broker's minimum,
  not cut down (`VolumeRules.VolumeForLotsIsLargest`, `ScaleInRules.AddIsTheLargestThatFits`).
- A number in a position's comment that is too wide for its field raises an exception nobody catches,
  where any other unreadable comment is passed over (`PositionComments.TooWideEscapes`).
- A lifecycle state that cannot be read counts as none, so a failed read reopens a terminal
  candidate (`Lifecycle.FailedReadReopens`).

## Model

| member | source | states |
|---|---|---|
| CandidateRecord.DecodeEncode | ctrader-engine/src/CandidateExecutionScripts.cs:98-165 | What a script writes, every script reads back: all fields survive, only the legacy mark is lost. |
| CandidateRecord.DecodeNormal | ctrader-engine/src/CandidateExecutionScripts.cs:69-150 | Whatever a key holds, no field is read as an empty text, and an older plain marker never carries a lease. |
| CandidateStore.CandidateStore.Acquire | ctrader-engine/src/CandidateExecutionScripts.cs:214-301 | The answer to a claim in every state, policy and moment; a granted claim leaves a fresh lease for the caller, in `broker_reconciling` when an order may be out, and a refused one leaves the store alone. |
| CandidateStore.CandidateStore.Renew | ctrader-engine/src/CandidateExecutionScripts.cs:304-328 | Renews exactly for the owner of a leased record with its identity, and changes nothing but the lease end, the update time and the key's lifetime. |
| CandidateStore.CandidateStore.Transition | ctrader-engine/src/CandidateExecutionScripts.cs:332-373 | Moves the record on exactly when the caller passes the fence and the table allows the step; a release gives the lease up, any other step extends it. |
| CandidateStore.CandidateStore.Complete | ctrader-engine/src/CandidateExecutionScripts.cs:376-413 | Ends the candidate exactly for its owner, in the terminal state its outcome text names, without a lease. |
| CandidateStore.CandidateStore.RecordAbsenceCheck | ctrader-engine/src/CandidateExecutionScripts.cs:425-485 | Counts a check exactly for the owner of a `broker_reconciling` lease whose interval has passed on the store's clock; a fenced or early caller changes nothing. |
| CandidateStore.CandidateStore.ClearProgress | ctrader-engine/src/RedisBarSink.cs:765-768 | Removes the progress of one candidate and no other. |
| ClaimRules.ClaimsByState | ctrader-engine/src/CandidateExecutionScripts.cs:214-301 | Who is handed a leased record in every state: in execution nobody before the lease has ended and everybody then, with an order possibly out only those who ask for it, after a release everybody, after an end nobody but for rejected ones. |
| ClaimRules.ConflictsExactly | ctrader-engine/src/CandidateExecutionScripts.cs:229-245 | A claim conflicts exactly with a record that cannot be read, is in no listed state, or names another candidate or stream event. |
| ClaimRules.MarkerClaims | ctrader-engine/src/CandidateExecutionScripts.cs:104-150 | What a claim makes of every plain marker older executors wrote. |
| ClaimRules.ClaimLeaves | ctrader-engine/src/CandidateExecutionScripts.cs:267-301 | A claim leaves its claimant the lease until its end, counts one attempt, and goes to reconciling exactly when an order may be out, naming the state it found. |
| ClaimRules.TransitionsExactly | ctrader-engine/src/CandidateExecutionScripts.cs:38-54 | Which states a transition may lead to. |
| ClaimRules.OwnersExactly | ctrader-engine/src/CandidateExecutionScripts.cs:304-413 | Who may renew, complete, record an absence check or move the record on: the owner, in the states the tables name. |
| ClaimRules.RenewalLeaves | ctrader-engine/src/CandidateExecutionScripts.cs:304-328 | A renewal leaves its owner the lease until its new end and changes nothing else. |
| ClaimRules.TransitionLeaves | ctrader-engine/src/CandidateExecutionScripts.cs:332-373 | Given back, a candidate is handed to everybody at once and its owner is fenced out; after any other transition the owner holds a fresh lease. |
| ClaimRules.CompletedIsFinal | ctrader-engine/src/CandidateExecutionScripts.cs:376-413 | A completed candidate is handed to nobody any more under any policy, except a rejected one exactly to those who ask for rejected ones; nobody passes the fence. |
| ClaimRules.OutcomesAgree | ctrader-engine/src/CandidateExecutionScripts.cs:104-150 | A completion and an older marker with the same `ordered:` or `rejected:` text mean the same state and outcome. |
| ClaimRules.SpacedChecksCount | ctrader-engine/src/CandidateExecutionScripts.cs:425-485 | Absence checks that keep their interval all count, from one when no progress of this candidate was left. |
| Heartbeat.ThreeBeatsALease | ctrader-engine/src/CandidateLeaseHeartbeat.cs:82-92 | Whatever interval is asked for, three beats fit into a lease. |
| Heartbeat.IntervalExactly | ctrader-engine/src/CandidateLeaseHeartbeat.cs:82-92 | The interval is a quarter of the lease, 50 ms or a third for very short ones; one that is asked for is kept exactly if three fit. |
| Heartbeat.HeldBetweenBeats | ctrader-engine/src/CandidateLeaseHeartbeat.cs:82-92 | Nobody else is handed the candidate for two more intervals after a renewal, under any policy and in spite of whole-second rounding, for every lease that is long enough. |
| Heartbeat.HeldExactlyWhenLongEnough | ctrader-engine/src/CandidateLeaseHeartbeat.cs:82-92 | Exactly which leases are long enough, all of five seconds and more among them; any shorter one can run out within two thirds of itself. |
| Heartbeat.CandidateLeaseHeartbeat.constructor | ctrader-engine/src/CandidateLeaseHeartbeat.cs:40-59 | A new heartbeat owns its lease and has renewed nothing. |
| Heartbeat.CandidateLeaseHeartbeat.MarkLost | ctrader-engine/src/CandidateLeaseHeartbeat.cs:198-216 | Afterwards ownership is lost and dependent work is cancelled. |
| Heartbeat.CandidateLeaseHeartbeat.RenewOnce | ctrader-engine/src/CandidateLeaseHeartbeat.cs:146-196 | Succeeds exactly when ownership was never lost, the store answers and the fence lets the renewal through; any other answer loses ownership for good. |
| Heartbeat.CandidateLeaseHeartbeat.EnsureOwnership | ctrader-engine/src/CandidateLeaseHeartbeat.cs:109-116 | A yes means the stored lease is this worker's, and with a lease that is long enough no claim by anybody succeeds during the next two intervals: neither the lease nor its key runs out. |
| LeaseProtocol.InvStep | ctrader-engine/src/CandidateExecutionScripts.cs:214-413 | Every script call keeps the invariant: a leased record carries the token and the end of the latest claim, and without a lease no claim is still running. |
| LeaseProtocol.OnlyTheLatestClaimantActs | ctrader-engine/src/CandidateExecutionScripts.cs:199-207 | In every run, with or without key expiry, a renewal, transition, completion or absence record takes effect only for the latest claimant. |
| LeaseProtocol.LeasesNeverOverlap | ctrader-engine/src/CandidateExecutionScripts.cs:243-300 | In every run, with or without key expiry, the lease of an earlier claim has ended when a later claim is made. |
| LeaseProtocol.GoneKeyRestarts | ctrader-engine/src/CandidateExecutionScripts.cs:229-301 | A claim made after the candidate's key has run out is granted to anybody, as a normal one. |
| LeaseProtocol.UncertainStep | ctrader-engine/src/CandidateExecutionScripts.cs:38-62 | One step out of the broker-uncertain states stays there, ends the candidate, is a release by the current recovery owner, or claims a key that has run out. |
| LeaseProtocol.RetryTakesReleaseOrEviction | ctrader-engine/src/CandidateExecutionScripts.cs:229-301 | With or without key expiry, every run from a state in which an order may be at the broker back to normal execution contains a release from `broker_reconciling` by the current recovery owner or a claim made after the key has run out. |
| LeaseProtocol.NoSilentRetry | ctrader-engine/src/CandidateExecutionScripts.cs:229-301 | Without key expiry, such a run passes through a release from `broker_reconciling` by the current recovery owner. |
| LeaseProtocol.EndIsFinal | ctrader-engine/src/CandidateExecutionScripts.cs:229-301 | In every run an ended candidate stays exactly as it ended, with key expiry until its key runs out. |
| LeaseProtocol.RestartsExactlyAfterEviction | ctrader-engine/src/CandidateExecutionScripts.cs:279-300 | With key expiry, an abandoned uncertain candidate is handed out for normal execution if and only if its key's lifetime has passed. |
| LeaseProtocol.EvictionLosesTheCandidate | ctrader-engine/src/CandidateExecutionScripts.cs:326-326 | A concrete run: submit, renew, crash, and two minutes later the candidate starts over with no recovery in between. |
| AbsenceQuorum.QuorumTakesTime | ctrader-engine/src/CandidateExecutionScripts.cs:425-485 | In every run, k confirmations since the last clear are k checks spread over at least (k-1) intervals of store time, each by the owner of a recovery claim, whatever the restarts and changes of worker. |
| Adoption.ClassifySnapshot | ctrader-engine/src/AutoTradeEngine.cs:9034-9202 | A snapshot counts as empty exactly when no object in it carries an expected identity, none without identity names an expected id or has the token in its comment, and none with another identity speaks of the candidate; doubled or foreign identities block both answers; otherwise the first match, positions before orders, names the outcome. |
| Adoption.MatchesExactly | ctrader-engine/src/AutoTradeEngine.cs:9052-9095 | When an object speaks for the candidate and when against it, by the identity it reports and by what its comment and label hold. |
| Recovery.StillOwner | ctrader-engine/src/AutoTradeEngine.cs:8523-8536 | Whoever reads the record within a lease of its own renewal still holds the lease. |
| Recovery.EventStep | ctrader-engine/src/AutoTradeEngine.cs:8521-9023 | Every store call, broker answer and wait that is in time keeps the invariant that at most one claim can still have a live order, the gate taken one store call at a time and release and clear as two. |
| Recovery.AtMostOneClaimReachesTheBroker | ctrader-engine/src/AutoTradeEngine.cs:8874-9023 | In every run in which nobody stalls in the gate for a whole lease and no old count is left when the gate is passed, all orders the broker ever accepts for a candidate were sent under one and the same claim. |
| Recovery.GateOpensOnlyWhenNothingWasAccepted | ctrader-engine/src/AutoTradeEngine.cs:8521-8544 | When a claim passes the gate, by what it reads or by entering `broker_submitting`, no order of any earlier claim was accepted and none ever will be, however late its request arrives. |
| Recovery.FinishedIsFinal | ctrader-engine/src/CandidateExecutionScripts.cs:376-413 | In every run, however badly timed, a candidate its owner has finished stays in the state its outcome names and no claim passes the gate again. |
| GateLimits.TimelyGateReadIsOwn | ctrader-engine/src/AutoTradeEngine.cs:8523-8536 | In every run, with or without key expiry, the gate reads the caller's own lease while less than a lease has passed since its renewal and it has not given the claim up. |
| GateLimits.StalledGateLetsTwoClaimsThrough | ctrader-engine/src/AutoTradeEngine.cs:8531-8536 | For every delay of a lease or more a run, all its other steps in time, in which two claims pass the gate and the broker accepts an order of each. |
| ReleaseLimits.FirstCheckCountsFromOneExactlyAfterClear | ctrader-engine/src/AutoTradeEngine.cs:8986-8996 | A recovery's check counts as the first one if and only if no live progress was left over. |
| ReleaseLimits.StaleQuorumLetsTwoClaimsThrough | ctrader-engine/src/AutoTradeEngine.cs:8986-8996 | A run of executors, recovery and broker in which a worker dies between release and clear: all its steps are in time but the one that passes the gate with the old count still there, a single snapshot completes the quorum, and the broker accepts an order of two claims. |
| VolumePlanner.VolumeForLotsRoundsDown | ctrader-engine/src/VolumePlanner.cs:117-136 | A bought volume is never worth more than the lots asked for, is a step multiple, and lies within the broker's limits. |
| VolumeRules.VolumeForLotsIsLargest | ctrader-engine/src/VolumePlanner.cs:117-136 | The bought volume is the largest one the broker takes that the lots pay for; lots that pay for more than its maximum buy nothing. |
| VolumePlanner.SplitWeighted | ctrader-engine/src/VolumePlanner.cs:224-282 | Succeeds exactly on aligned volumes that give every target its minimum; the slices spend the whole volume, and each is its ideal share rounded down or up to a step, larger remainders first. |
| VolumePlanner.SplitIsTradable | ctrader-engine/src/VolumePlanner.cs:224-282 | Every slice of a fair split is positive, at least the broker's minimum and a step multiple. |
| VolumeRules.SplittableExactly | ctrader-engine/src/VolumePlanner.cs:224-250 | A volume splits exactly when every target can have the least tradable volume. |
| VolumeRules.SplitFollowsWeights | ctrader-engine/src/VolumePlanner.cs:224-282 | In every fair split heavier targets never get less, and of equally heavy ones the earlier gets as much or one step more. |
| VolumeRules.SplitIsProportional | ctrader-engine/src/VolumePlanner.cs:224-282 | Beyond the least volume each slice is its share by weight of what is left to spread, off by at most a step. |
| VolumeRules.LeastVolumeIsLeast | ctrader-engine/src/VolumePlanner.cs:541-545 | The least volume is tradable and no tradable volume is smaller. |
| VolumeRules.PlannableExactly | ctrader-engine/src/VolumePlanner.cs:138-170 | A plan exists exactly for broker steps and positive targets with weights when the volume pays for the only target or two of several. |
| VolumeRules.ExitsExactly | ctrader-engine/src/VolumePlanner.cs:162-168 | A volume pays for as many exits as least volumes fit into it. |
| VolumeRules.SelectedExactly | ctrader-engine/src/VolumePlanner.cs:174-179 | Which targets get a slice, by the number of exits. |
| VolumePlanner.BuildTargetPlan | ctrader-engine/src/VolumePlanner.cs:138-197 | Succeeds exactly on plannable input, with a fair split of the volume into tradable slices under the first targets the volume can pay for (two of three or more: first and third). |
| VolumePlanner.FixFirstLegVolume | ctrader-engine/src/VolumePlanner.cs:199-222 | Exactly when a fixed first slice fits, it is booked first and the rest is split evenly; otherwise the plan is left alone; either way it stays executable. |
| VolumeRules.FirstFitsExactly | ctrader-engine/src/VolumePlanner.cs:199-222 | A fixed first slice fits exactly when every other target can still have the least volume. |
| TargetAllocation.BuildGroupPlan | ctrader-engine/src/AutoTradeEngine.cs:9775-9796 | The ladder of a manual group exists exactly on plannable input; above 0.13 lots it books 0.05 lots first and the rest evenly if that fits, and is split by its weights otherwise. |
| AllocationRules.FixesExactly | ctrader-engine/src/AutoTradeEngine.cs:9775-9796 | A group books the fixed first slice exactly above 0.13 lots and when every other target can still have the least volume next to 0.05 lots. |
| TargetAllocation.BookSlice | ctrader-engine/src/AutoTradeEngine.cs:9826-9880 | One slice is booked over the legs shallow first; on success every leg books exactly the overlap of its interval with the slice's, and a failure means a slice end left dust. |
| AllocationRules.LeftAfterSlice | ctrader-engine/src/AutoTradeEngine.cs:9826-9880 | A leg starts with its volume and every slice takes its share from it. |
| AllocationRules.DustExactly | ctrader-engine/src/AutoTradeEngine.cs:9847-9862 | A slice leaves dust in a leg exactly when it takes from it and leaves something that cannot be closed. |
| TargetAllocation.BookLadder | ctrader-engine/src/AutoTradeEngine.cs:9826-9903 | The whole ladder books if and only if no slice ends just before the end of a leg; then nothing is left on any leg. |
| TargetAllocation.AllocateAcrossLegs | ctrader-engine/src/AutoTradeEngine.cs:9811-9934 | The allocation succeeds if and only if it is dust-free or has one leg; leg j of slice s gets the overlap of their prefix-sum intervals, and only the shallow leg is asked for a runner. |
| TargetAllocation.LegPlanSpendsTheLeg | ctrader-engine/src/AutoTradeEngine.cs:9905-9929 | Every leg's slices are positive, sum to its entry volume, and stand under strictly increasing target numbers of the group. |
| TargetAllocation.SliceIsMetExactly | ctrader-engine/src/AutoTradeEngine.cs:9826-9880 | The legs' shares of every slice add up to that slice. |
| TargetAllocation.LegsBookTheGroup | ctrader-engine/src/AutoTradeEngine.cs:9826-9903 | Without the runner the legs together book at each target exactly what the group's plan gives it. |
| TargetAllocation.ReserveRunner | ctrader-engine/src/AutoTradeEngine.cs:9936-9980 | The backward search finds the last slice of twice the reserve and splits it, and otherwise leaves the plan alone. |
| AllocationRules.RunnerExactly | ctrader-engine/src/AutoTradeEngine.cs:9936-9980 | The shallow leg gets a runner exactly when the group has four targets or more, the last is not its own, and one of its slices can spare a least volume and keep one; the last such slice gives it, and the runner stands under the group's last target. |
| AllocationRules.ReserveIsLeast | ctrader-engine/src/AutoTradeEngine.cs:9955-9958 | The reserve is the least tradable volume. |
| TargetAllocation.RunnerMovesOneVolume | ctrader-engine/src/AutoTradeEngine.cs:9936-9980 | The reserve keeps the leg's total and the order of its targets; the volume booked at each target changes only by one tradable reserve moved from a donor, which stays tradable, to the final target. |
| TargetAllocation.AllocationKeepsTargets | ctrader-engine/src/AutoTradeEngine.cs:9905-9980 | Over all legs of an allocation each target books what the group's plan gives it, up to one tradable volume that the runner moves from a target of the shallow leg to the final one. |
| StopTrail.GroupStopSuffices | ctrader-engine/src/StopTrailPlanner.cs:50-98 | The group stop, rounded, brings in at least what is not yet funded, loosens no stop and lies on the tick grid. |
| StopTrail.GroupStopIsLeast | ctrader-engine/src/StopTrailPlanner.cs:50-98 | No price on the grid short of the group stop does: there the clips bring in less than what is not yet funded, or some clip has a better stop. |
| StopTrail.UnfundedInPrice | ctrader-engine/src/StopTrailPlanner.cs:50-70 | What is not yet funded is, in price, the buffer on the whole group less what it has booked. |
| StopTrail.PlannedGroupStop | ctrader-engine/src/StopTrailPlanner.cs:22-104 | A planned stop is that stop, and some clip does not hold it. |
| StopTrail.GroupLocksTheBuffer | ctrader-engine/src/StopTrailPlanner.cs:22-104 | After a group protection, move or no move, buy or sell, what is booked plus all that is left stopped out earns each unit of the given group volume the buffer, after rounding. |
| StopTrail.TrailOnlyImproves | ctrader-engine/src/StopTrailPlanner.cs:130-198 | A planned stop is on the grid and strictly better than the one in place; no plan means the one in place was good enough. |
| StopTrail.FirstTargetProtectsTheEntry | ctrader-engine/src/StopTrailPlanner.cs:200-239 | After the first target a stop-out gains the buffer, exactly for an on-grid entry and up to half a tick otherwise. |
| StopTrail.LaterTargetsLockEarlierOnes | ctrader-engine/src/StopTrailPlanner.cs:130-198 | After the second target a stop-out gains what the first is worth, after any later one what the one two numbers behind is worth, exactly for a price on the grid and up to half a tick otherwise; a clip that knows no price for it keeps its stop. |
| StopTrail.WorthIsLocked | ctrader-engine/src/StopTrailPlanner.cs:263-310 | What a target number is worth: its row's absolute price when prices go by row, else the group's price with its number, else its row's pips. |
| StopTrail.EachTargetLocksMore | ctrader-engine/src/StopTrailPlanner.cs:130-198 | On a climbing ladder each target from the third on locks more than the one before, always behind the price of the target just booked. |
| StopTrail.PlainLadderLocks | ctrader-engine/src/StopTrailPlanner.cs:130-198 | On a ladder of pips the n-th target but the last locks the buffer, then the first target's pips, then those of target n - 2. |
| StopTrail.GroupLadderLocks | ctrader-engine/src/StopTrailPlanner.cs:130-198 | Once a leg of a group books its target number n, from 3 on and not its last, it locks the group's price n - 2, whether or not it books that one itself. |
| StopTrail.FindRow | ctrader-engine/src/StopTrailPlanner.cs:263-285 | The search returns the first row with a group-wide number, or none when there is none. |
| StopTrail.RequireTickSize | ctrader-engine/src/StopTrailPlanner.cs:241-261 | The loop yields the number that times ten to the digits is one. |
| ScaleIn.PlanKeepsTheCeiling | ctrader-engine/src/ScaleInPlanner.cs:30-245 | The internal assertions never fire, the breached-ceiling branch is dead, and an allowed add keeps exposure, loss ceiling, its own cap and its ratio. |
| ScaleIn.SizeWithinCaps | ctrader-engine/src/ScaleInPlanner.cs:61-140 | The bought volume respects all four caps after rounding to broker steps. |
| ScaleInRules.AddIsTheLargestThatFits | ctrader-engine/src/ScaleInPlanner.cs:61-140 | An allowed add fits the table, the group's headroom, its own part of the budget and its ratio to the first tranche, all in terms of the inputs, and no larger volume the broker takes does; one refused as too small leaves none that fits, unless the caps pay for more than the broker takes at once. |
| ScaleInRules.AllowedKeeps | ctrader-engine/src/ScaleInPlanner.cs:142-190 | What the group loses if it is stopped out after an allowed add, and that this is at most its budget, or nothing in risk-free mode. |
| ScaleInRules.RefusedExactly | ctrader-engine/src/ScaleInPlanner.cs:47-90 | Which inputs, which headroom and which exposure refuse an add, in this order. |
| ScaleInRules.OtherRefusals | ctrader-engine/src/ScaleInPlanner.cs:100-187 | The remaining refusals, and that nothing is thrown. |
| ScaleIn.PlanWithLadder | ctrader-engine/src/ScaleInPlanner.cs:30-207 | An add is allowed exactly when it comes with a ladder that closes exactly its volume in tradable slices. |
| GroupRisk.AddFitsExactly | ctrader-engine/src/ScaleInPlanner.cs:61-187 | An allowed add keeps the group within its loss ceiling if and only if its risk fits the true headroom; the planner's headroom is off by exactly what was never booked. |
| GroupRisk.CeilingHolds | ctrader-engine/src/ScaleInPlanner.cs:61-187 | Over every run of adds, profit-ward stop moves and closes no worse than the stop, the group stays within its ceiling throughout if and only if every add fits the true headroom when it is made; exposure stays within the table in any case. |
| GroupRisk.MissedByTheUnbooked | ctrader-engine/src/AutoTradeEngine.cs:5809-5837 | The ceiling is missed by at most the deepest net loss that was unbooked at some add. |
| GroupRisk.NothingUnbookedHolds | ctrader-engine/src/AutoTradeEngine.cs:5809-5837 | When nothing is lost unbooked, net, at any add, the ceiling is the budget throughout, stop-outs or not. |
| GroupRisk.BookedClosesForgetNothing | ctrader-engine/src/AutoTradeEngine.cs:5809-5837 | In particular when every close is booked at its target. |
| AddLimits.NoAddAveragesDown | ctrader-engine/src/ScaleInTriggerPlanner.cs:57-103 | When the shared conditions of an add hold, the first tranche stopped out gains its buffer, the group is in profit, and the add enters in its direction at a better price. |
| AddLimits.ForgottenLossIsRiskedAgain | ctrader-engine/src/AutoTradeEngine.cs:5151-5230 | For every loss up to the budget a run of an example account whose adds all meet the shared add conditions (better entry, first target booked, breakeven stop, group in profit, tranches left) at every quote ahead of the first stop, and whose closes reach no stop of a tranche that stays open: an unbooked stop-out leaves the true headroom smaller by that loss than the planner's, and the ceiling is kept if and only if the loss is at most what the first tranche has secured. |
| GroupRisk.InitialTrancheFits | ctrader-engine/src/VolumePlanner.cs:25-86 | A first tranche sized by the smaller of risk and table starts a group within its ceiling. |
| ScaleInRules.InitialIsLargest | ctrader-engine/src/VolumePlanner.cs:25-86 | A first tranche is the largest volume within the caps its mode asks for, table, budget or both. |
| ScaleInRules.EquityBands | ctrader-engine/src/VolumePlanner.cs:95-113 | The bands and ramps of the equity table. |
| ScaleInRules.ClosedAtItsStop | ctrader-engine/src/ScaleInPlanner.cs:209-221 | Closed at its stop a tranche earns what sizing expects of it. |
| Positions.CarriedIsTotal | ctrader-engine/src/AutoTradeEngine.cs:5442-5444 | The maximum over the legs is the sum of signed pips times volume over every close of the group. |
| Positions.JoiningLegKeepsTheTotal | ctrader-engine/src/AutoTradeEngine.cs:5442-5444 | A leg joining with nothing booked keeps the group's figure right if and only if the total is not negative. |
| Positions.StartsCarrying | ctrader-engine/src/AutoTradeEngine.cs:5454-5464 | A group whose legs carry the sums of their initial volumes carries its original volume, and its first tranche's. |
| Positions.OriginalVolumes | ctrader-engine/src/AutoTradeEngine.cs:5454-5464 | Whatever legs are left, what the engine computes as the group's initial volume, and as its first tranche's, is what they were at the start. |
| Positions.BookingKeepsVolumes | ctrader-engine/src/AutoTradeEngine.cs:5825-5865 | Booking a target leaves every live leg with the group's original volumes. |
| Positions.OwnerCloseKeepsVolumes | ctrader-engine/src/AutoTradeEngine.cs:1206-1225 | So does an owner's close. |
| Positions.CloseManaged | ctrader-engine/src/AutoTradeEngine.cs:5809-5865 | Any one close whose total is shared out leaves every live leg with the new total, loses no volume, and keeps stops. |
| Positions.BookingManaged | ctrader-engine/src/AutoTradeEngine.cs:5809-5865 | Booking at a target keeps the book in agreement with the broker, and with exact fills leaves no position below the minimum volume. |
| Positions.OwnerCloseManaged | ctrader-engine/src/AutoTradeEngine.cs:1169-1225 | An owner's close is booked once and right, even from a copy taken before siblings closed. |
| Positions.VanishManaged | ctrader-engine/src/AutoTradeEngine.cs:6845-6872 | A leg that vanished adds its last volume to the carried figure, and the legs that stay learn it. |
| Positions.VolumeIsConserved | ctrader-engine/src/AutoTradeEngine.cs:5809-5865 | Over any operation initial volume is remaining plus closed, and what left the book was closed in full. |
| Positions.ProtectedGroupLocks | ctrader-engine/src/AutoTradeEngine.cs:6173-6216 | A group protection the broker went along with locks the buffer for the figures it was planned with. |
| Positions.PlansWithTheTruth | ctrader-engine/src/AutoTradeEngine.cs:6179-6216 | Those figures are the sum over every close there was and all the volume the group started with, legs that have left included. |
| Positions.ManagedTransitive | ctrader-engine/src/AutoTradeEngine.cs:5577-6039 | What one operation keeps, any sequence of operations keeps: stops, volume, the group's original volumes, reported targets and the log. |
| Positions.BrokerStopsRatchet | ctrader-engine/src/AutoTradeEngine.cs:6378-6489 | On the log of every run, each stop the broker accepts for a position is at least as protective as any before it, as long as the engine plans from the stop at the broker. |
| Positions.ReportIsTakenBackExactly | ctrader-engine/src/AutoTradeEngine.cs:6106-6156 | After a target from the second on was reported and its stop granted, a later protection takes that stop back if and only if the stop the book remembers does not hold the protection's and the rounded price of the trail target (absolute or in pips) lies beyond it. |
| Positions.TakenBackIsOnTheLog | ctrader-engine/src/AutoTradeEngine.cs:6259-6329 | Such a protection, when granted, is on the log as an amendment that loosens. |
| Positions.LoosensOnlyAfterReport | ctrader-engine/src/AutoTradeEngine.cs:6106-6156 | On the log of every run, an amendment that loosens was planned from another stop than the broker's, and a target of that position was reported before. |
| Positions.NoReportNoLoosening | ctrader-engine/src/AutoTradeEngine.cs:6378-6489 | As long as no target of a position is reported without being booked, its stops at the broker ratchet over the whole run. |
| BookLimits.ReportedStopIsLost | ctrader-engine/src/AutoTradeEngine.cs:6106-6156 | A whole run of the book's methods on a three-leg ladder: a deep leg's stop goes to 110 for a reported target and back to 100 when the next target is booked. |
| Positions.StopMoveTrails | ctrader-engine/src/AutoTradeEngine.cs:6331-6353 | After a stop move the stop the target calls for is in place or was asked for. |
| Positions.BooksWhatStopsLock | ctrader-engine/src/AutoTradeEngine.cs:10164-10195 | The price a target is booked at is the price that later stops lock for it. |
| PositionRules.RangeExitIsBooked | ctrader-engine/src/AutoTradeEngine.cs:10190-10195 | Without prices of its own a position with a range exit books every target there. |
| Positions.BookedTargetsPay | ctrader-engine/src/AutoTradeEngine.cs:5640-5672 | A target is booked only at a quote on the right side that reaches its price, and left there it earns at least what it promises, a sell at a whole price up to 0.1 less. |
| PositionRules.BookableExactly | ctrader-engine/src/AutoTradeEngine.cs:5621-5700 | When a target is booked, by the quote, its price and the volume the close would leave, and how much is closed. |
| PositionRules.PassedExactly | ctrader-engine/src/AutoTradeEngine.cs:6049-6082 | When a manual position reports a target nobody books. |
| PositionRules.SelectedByLegs | ctrader-engine/src/AutoTradeEngine.cs:5592-5600 | Which targets a group books: those some leg of it has the number of. |
| PositionRules.LeftExactly | ctrader-engine/src/AutoTradeEngine.cs:5808-5809 | What the broker's answers to a target's and an owner's close say is left. |
| PositionRules.PricedExactly | ctrader-engine/src/AutoTradeEngine.cs:5810-5813 | At which price a target's and an owner's close count. |
| PositionRules.MoneyIsWhatSizingCounts | ctrader-engine/src/AutoTradeEngine.cs:5813-5821 | The money a close books is what sizing counts for the same volume at the same price. |
| PositionRules.GroupLegsAre | ctrader-engine/src/AutoTradeEngine.cs:6279-6286 | The legs the shallow fill is taken from: the manual ones still open and the one just booked. |
| PositionRules.ShallowEntryIsBest | ctrader-engine/src/AutoTradeEngine.cs:6287-6300 | The most protective fill among the first tranche's legs, or among all when none of those is left. |
| PositionRules.LadderCloses | ctrader-engine/src/AutoTradeEngine.cs:5676-5690 | A position that holds what its remaining targets will close books exactly the next slice and never leaves dust. |
| PositionRules.BookedStaysOnLadder | ctrader-engine/src/AutoTradeEngine.cs:5808-5834 | Booked in full at its next target it stays such a position, or is closed. |
| PositionRules.RestartAgreesExactly | ctrader-engine/src/AutoTradeEngine.cs:10540-10562 | A restarted engine goes on with the target the live book would book next if and only if the closes so far end within it, so always for such a position. |
| Positions.StillSettled | ctrader-engine/src/AutoTradeEngine.cs:5601-5626 | Work on one position leaves nothing to book at another that had nothing to book. |
| PositionBook.PositionBook.constructor | ctrader-engine/src/AutoTradeEngine.cs:5421-5457 | A book of fresh positions agrees with an empty log. |
| PositionBook.PositionBook.PropagateGroupMetadata | ctrader-engine/src/AutoTradeEngine.cs:5233-5261 | Every leg of the source's group, and no other position, takes over all its group figures; a leg keeps its own risk stop distance when the source has none. |
| PositionRules.InheritsExactly | ctrader-engine/src/AutoTradeEngine.cs:5242-5257 | What a leg takes over of its group, and what it keeps. |
| PositionBook.PositionBook.SyncGroupRealizedPipVolume | ctrader-engine/src/AutoTradeEngine.cs:5271-5283 | Every other leg of the group takes over the new pip-volume and nothing else changes. |
| PositionBook.PositionBook.ApplyStopTrailMove | ctrader-engine/src/AutoTradeEngine.cs:6378-6489 | The broker accepts and the copy has the new stop, which goes on the log with the stop it replaced, or refuses and the copy is as before; either way it was asked. |
| PositionBook.PositionBook.ProtectByGroupStop | ctrader-engine/src/AutoTradeEngine.cs:6179-6216 | One stop for all legs of a manual ladder: only stops change, none is loosened, and when the broker goes along the buffer is locked for the figures it was planned with; mixed directions move nothing. |
| PositionBook.PositionBook.ProtectRemainingGroupStopsAtBreakEven | ctrader-engine/src/AutoTradeEngine.cs:6167-6253 | Manual ladders get the group stop, and when it is in place the buffer is locked on all the group started with, by all it has closed; in any other group every leg has its own breakeven stop or the broker was asked for it. |
| PositionBook.PositionBook.ProtectGroup | ctrader-engine/src/AutoTradeEngine.cs:5998-6030 | After the first target a manual group is asked for one stop and every leg of any other group for its breakeven, after the second a manual group for the shallow fill, and no other target touches the group. |
| PositionBook.PositionBook.ProtectRemainingManualGroupStopsAtShallowEntry | ctrader-engine/src/AutoTradeEngine.cs:6259-6329 | Every leg of a manual ladder has its stop at the shallow fill or better, or was asked; other groups are left alone. |
| PositionBook.PositionBook.NotifySkippedTargets | ctrader-engine/src/AutoTradeEngine.cs:6041-6104 | Exactly the passed targets below the last booked one are reported, each new one with the stop it calls for in place or asked for; only this position's marks and stop change and the copy's stop never loosens. |
| PositionBook.PositionBook.NotifyTargetReached | ctrader-engine/src/AutoTradeEngine.cs:6106-6156 | A target is reported once; the book learns that and keeps the stop it had, the moved stop stays in the copy. |
| PositionBook.PositionBook.BookClose | ctrader-engine/src/AutoTradeEngine.cs:5677-5865 | A confirmed close executes exactly one close of the target's volume, advances the target, shares the group's total, money and first-tranche figures out, and removes the position exactly when nothing is left; legs that agree on the money booked so far agree on that plus what the close earned; an unconfirmed one changes nothing. |
| PositionBook.PositionBook.AfterTarget | ctrader-engine/src/AutoTradeEngine.cs:5998-6036 | The group is protected as its target asks, or this position's own stop trails to where the target calls for and after the first target the others' are at breakeven. |
| PositionBook.PositionBook.SkipToLast | ctrader-engine/src/AutoTradeEngine.cs:5680-5709 | A target that would leave dust closes nothing; a manual position has reported it, with its stop, and the position rides to its last target. |
| PositionBook.PositionBook.TargetStep | ctrader-engine/src/AutoTradeEngine.cs:5621-6037 | One pass does exactly one of four things: skip a scale-out booked before, stop when nothing is due, ride to the last target, or book one close at the quote and then move the stops that follow. |
| PositionBook.PositionBook.BookTarget | ctrader-engine/src/AutoTradeEngine.cs:5795-6036 | One close of the target's volume, the group's figures shared, and then the group's protection or the own trailing stop. |
| PositionBook.PositionBook.BookReached | ctrader-engine/src/AutoTradeEngine.cs:5621-6037 | The loop ends on every quote, with the position gone or settled, other positions' targets untouched and the book in agreement with the broker. |
| PositionBook.PositionBook.ProcessTargets | ctrader-engine/src/AutoTradeEngine.cs:5577-6039 | After a quote every remaining position is settled and every manual one has reported what it should, volume and totals are conserved, no remembered stop is looser, and remaining volumes stay tradable. |
| PositionBook.PositionBook.ApplyOwnerClose | ctrader-engine/src/AutoTradeEngine.cs:1169-1254 | The executed volume is booked, siblings learn the total, and nothing else about them changes. |
| PositionBook.PositionBook.CloseAll | ctrader-engine/src/AutoTradeEngine.cs:1107-1140 | Closing everything from copies taken at the start books every close once and right; when all are confirmed every position is gone or smaller, and gone when the broker fills them all. |
| PositionBook.PositionBook.CloseVanished | ctrader-engine/src/AutoTradeEngine.cs:6845-6872 | One vanished leg leaves the book, its last volume enters the log, and the returned figure is the group's total. |
| PositionBook.PositionBook.DropVanished | ctrader-engine/src/AutoTradeEngine.cs:6656-6872 | Several legs missing in one snapshot: each group's carried figure is its total even when its last leg is gone. |
| PositionBook.PositionBook.Run | ctrader-engine/src/AutoTradeEngine.cs:5577-6039 | Over any run of quotes, owner closes and vanishing legs every leg carries its group's total and goes on carrying its original volumes, no volume is lost, no remembered stop is loosened, no reported target is forgotten, and the log of accepted amendments is in order. |
| MissingPositions.DroppedOnlyWhenGone | ctrader-engine/src/AutoTradeEngine.cs:6670-6847 | A position is dropped only after the configured number of spaced snapshots in a row missed it, with none showing it in between, and only at a deal's price or, after the wait, at a known stop. |
| MissingPositions.DroppedHasBeenGone | ctrader-engine/src/AutoTradeEngine.cs:6681-6711 | A dropped position has been absent for at least (confirmations - 1) recheck intervals. |
| MissingPositions.NeverDroppedBlind | ctrader-engine/src/AutoTradeEngine.cs:6768-6816 | Without a deal and without a known stop the engine never gives up. |
| MissingPositions.DropsExactly | ctrader-engine/src/AutoTradeEngine.cs:6681-6816 | Exactly when a snapshot drops a position, and at which price. |
| MissingPositions.PatienceRunsOut | ctrader-engine/src/AutoTradeEngine.cs:6681-6711 | Of spaced snapshots that all miss a position, the one that completes the confirmations drops it if its deal is known, and none before does. |
| MissingPositions.MissingPositions.Observe | ctrader-engine/src/AutoTradeEngine.cs:6681-6846 | One snapshot moves one position's record on by exactly one step and touches no other. |
| MissingPositions.MissingPositions.Reconcile | ctrader-engine/src/AutoTradeEngine.cs:6646-6847 | One snapshot moves every tracked position on by exactly one step; dropped ones, and only they, stop being tracked. |
| PositionComments.NextTarget | ctrader-engine/src/AutoTradeEngine.cs:10540-10551 | The accumulating loop stops at the first slice the closed volume does not cover. |
| PositionComments.NextIsFirstOpen | ctrader-engine/src/AutoTradeEngine.cs:10540-10562 | The rebuilt next target is k if and only if the first k slices are closed and the next is not. |
| PositionComments.RoundTrip | ctrader-engine/src/AutoTradeEngine.cs:10265-10327 | A tranche or zone comment is read back as written exactly when its ladder is valid and its tokens hold no separator; otherwise it is not recognised at all. |
| PositionComments.RestartGoesOn | ctrader-engine/src/AutoTradeEngine.cs:10484-10582 | After the first k slices closed, the rebuilt position carries the same volume, slices, targets, ordinals, bar time, candidate and group tokens, tranche or zone leg, and goes on with target k. |
| PositionComments.RewritesItsComment | ctrader-engine/src/AutoTradeEngine.cs:10265-10327 | Whatever is left of its volume, a rebuilt position writes the comment it was rebuilt from. |
| PositionComments.LadderWritten | ctrader-engine/src/AutoTradeEngine.cs:10265-10327 | The text of a tranche or zone comment, part by part, and that it is written exactly if it fits into a hundred characters. |
| PositionComments.RebuiltIsSane | ctrader-engine/src/AutoTradeEngine.cs:10527-10538 | Whatever a comment says, what is rebuilt from it has a ladder of positive slices and targets with numbers in order. |
| PositionComments.TooWideEscapes | ctrader-engine/src/AutoTradeEngine.cs:10500-10582 | A number too wide for its field escapes as an exception. |
| PositionComments.OldCommentsRead | ctrader-engine/src/AutoTradeEngine.cs:10484-10525 | What is read of the two older formats: a first tranche, its group named after its candidate, and targets numbered from one when they have no numbers. |
| CommentCodec.ReadPadded | ctrader-engine/src/AutoTradeEngine.cs:10500-10525 | Blanks around a number and a plus before it do not matter. |
| PositionComments.ManualRoundTrip | ctrader-engine/src/AutoTradeEngine.cs:10329-10482 | A manual comment is read back as the leg it was written for, with its expiry, if and only if its tokens hold no separator, its ladder is valid and so is its leg number, as far as that fitted into 100 characters; a leg that did not fit comes back as 1 of 1. |
| PositionComments.ManualCarriesOn | ctrader-engine/src/AutoTradeEngine.cs:10387-10461 | A rebuilt manual leg carries everything that was written, one of one when its leg number did not fit, and writes the same comment again. |
| PositionComments.ManualWritten | ctrader-engine/src/AutoTradeEngine.cs:10329-10385 | The text of a manual comment, and when it is written in full, without its leg number, or not at all. |
| PositionComments.ManualStartsOver | ctrader-engine/src/AutoTradeEngine.cs:10387-10461 | For every manual comment and whatever is left of the position, the rebuilt next target is the first open one if and only if less than the first slice is closed. |
| PositionComments.RestartBooksAgain | ctrader-engine/src/AutoTradeEngine.cs:10387-10461 | A concrete comment whose rebuilt leg has its booked first target due again. |
| StructureStop.BaseGeometry | ctrader-engine/src/StructureStopPlanner.cs:72-174 | A base plan is on the grid, on the losing side, and between minimum and maximum for on-grid inputs, within half a tick otherwise. |
| StructureStop.BasePlannedExactly | ctrader-engine/src/StructureStopPlanner.cs:86-140 | When a base stop is refused, in terms of the inputs. |
| StructureStop.RawIsInvalidation | ctrader-engine/src/StructureStopPlanner.cs:99-134 | The price asked for: behind the structure by its buffer and, after a sweep, behind the wick by its own, whichever is farther. |
| StructureStop.BaseStopIsInvalidation | ctrader-engine/src/StructureStopPlanner.cs:99-174 | A base stop lies there, or at the minimum or maximum when that is nearer or farther, up to half a tick. |
| StructureStop.NotInsideTheWick | ctrader-engine/src/StructureStopPlanner.cs:99-174 | Clamping never brings a stop inside the sweep wick by more than half a tick. |
| StructureStop.PushLandsBehind | ctrader-engine/src/StructureStopPlanner.cs:187-250 | A push lands at the zone's edge or behind it and never nearer to entry than the base stop. |
| StructureStop.PushedIs | ctrader-engine/src/StructureStopPlanner.cs:212-222 | A pushed stop lies behind the zone's edge by its buffer, up to half a tick. |
| StructureStop.PushedExactly | ctrader-engine/src/StructureStopPlanner.cs:187-250 | A stop held by an execution-grade zone is pushed or refused, exactly when. |
| StructureStop.PlanGeometry | ctrader-engine/src/StructureStopPlanner.cs:32-250 | A returned plan, pushed or not, is on the grid, within minimum and maximum and not inside an execution-grade zone: exactly so, and on the losing side, when entry, pip and zone edges are on the grid, and up to half a tick (a tick for the minimum) otherwise. |
| Lifecycle.GivesWay | ctrader-engine/src/AutoTradeLifecycle.cs:132-262 | Exactly which recorded states give way to which others, in terms of recovery, terminal states and rank. |
| Lifecycle.StagesInOrder | ctrader-engine/src/AutoTradeLifecycle.cs:37-60 | A trade moves forward through its nine stages, over any of them, never back; from each it can end and no stage follows an end. |
| Lifecycle.RecoversExactly | ctrader-engine/src/AutoTradeLifecycle.cs:211-231 | Which transitions count as recoveries. |
| Lifecycle.LedTo | ctrader-engine/src/AutoTradeLifecycle.cs:71-112 | For each state, exactly the events that lead to it. |
| Lifecycle.TerminalStays | ctrader-engine/src/AutoTradeLifecycle.cs:196-262 | In every run of events with readable states, once a terminal state is recorded every later one is terminal. |
| Lifecycle.RankNeverFalls | ctrader-engine/src/AutoTradeLifecycle.cs:37-60 | Between visits to the recovery states the rank never falls. |
| Lifecycle.RecoveryNeverTraps | ctrader-engine/src/AutoTradeLifecycle.cs:211-231 | From a recovery state every state an event names can be reached. |
| Lifecycle.FailedReadReopens | ctrader-engine/src/AutoTradeEngine.cs:9360-9415 | A terminal state stays terminal under an event if and only if it could be read or the event names no non-terminal state. |
| BarSeries.WriteKeeps | ctrader-engine/src/RedisBarSink.cs:306-330 | Any write, late or repeated, leaves exactly the newest times ever written, each with its last bar. |
| BarSeries.LatestIsMaximum | ctrader-engine/src/RedisBarSink.cs:437-448 | The latest time of the bounded series is the maximum over everything ever written. |
| BarSeries.NewestOfSorted | ctrader-engine/src/RedisBarSink.cs:425-429 | Trimming a series in time order keeps the newest entries in order, and everything it drops is older than a full series. |
| BarSeries.BarSeries.RemoveByScore | ctrader-engine/src/RedisBarSink.cs:412-416 | Exactly the bars of one time go. |
| BarSeries.BarSeries.Add | ctrader-engine/src/RedisBarSink.cs:418-423 | The bar lands at its place in time order. |
| BarSeries.BarSeries.TrimToNewest | ctrader-engine/src/RedisBarSink.cs:425-429 | Exactly the newest entries stay. |
| BarSeries.BarSeries.WriteClosedBar | ctrader-engine/src/RedisBarSink.cs:306-330 | Remove, add and trim together keep the window over the whole history. |
| BarSeries.BarSeries.LatestTimestamp | ctrader-engine/src/RedisBarSink.cs:332-336 | The answer is a time that was written, no written time is later, and a non-empty history has one. |

## Left out

- Recovery.AtMostOneClaimReachesTheBroker: assumes the record is kept until it is rewritten, that nobody stalls in the gate for a whole lease or gives a claim up while in it, that a released candidate's progress is cleared or has run out before the gate is passed again, and that a snapshot and its recorded check are one step; `LeaseProtocol.EvictionLosesTheCandidate`, `GateLimits` and `ReleaseLimits` show what each of the first three costs. Of the broker it assumes that an accepted order is in every snapshot taken `(confirmations - 1) * interval` seconds or more after its claim's last ownership check.
- LeaseProtocol.NoSilentRetry: assumes the record is kept until it is rewritten; `LeaseProtocol.RetryTakesReleaseOrEviction` does without.
- LeaseProtocol.OnlyTheLatestClaimantActs: lease tokens are taken to be distinct; the source draws 24 random bytes.
- GroupRisk.CeilingHolds: fixed balance, fills at plan, closes no worse than the stop.
- AddLimits.ForgottenLossIsRiskedAgain: the market conditions of an add (regime, displacement, structure break, pullback zone, cooldown) depend on bars and zones, not on the group, and are taken as met.
- StructureStop.PlanGeometry: a zone's buffer is taken not to be negative; the engine passes it the same setting that base planning refuses when negative.
- GroupRisk.InitialTrancheFits: states the default sizing mode; the table and risk modes each drop one of the two caps on purpose.
- PositionBook.PositionBook.Run: fixed group membership; legs that join or are adopted during a run are not part of it, for the reason `Positions.JoiningLegKeepsTheTotal` gives. Totals need exact fills, volume conservation does not.
- PositionBook.PositionBook.ProcessTargets: one symbol, one pip size and one minimum volume, where the source reads them from the session, from the position and from the options in different places; a close the broker does not confirm ends the pass, as the exception does.
- PositionBook.PositionBook.ApplyStopTrailMove: the broker's answer is arbitrary; the order in which an outcome is published and stored is not modelled.
- Positions.OriginalVolumes: that the legs of a group start with the sum of their initial volumes is a condition on the starting book; filling orders is not part of the model.
- PositionBook.PositionBook.BookClose: the volume, price and time kept for the scale-out report are not modelled, only that it was booked.
- PositionComments.RoundTrip: tokens are the first ten characters of an id; two ids with the same token are not told apart.
- Heartbeat.CandidateLeaseHeartbeat.RenewOnce: the semaphore that serialises renewals is implicit in running methods one at a time.
- BarSeries.BarSeries.WriteClosedBar: the remove, add and trim commands of one write run without another writer between them; publishing, and the throttle on spot writes, are not modelled.
- TargetAllocation.AllocateAcrossLegs: the pass over residual volume and the check of leg totals are left out because on success there is nothing for them to do.
- Flip rendezvous keys, rejected-reclaim claims and the range-flip close path: they use records without a stream identity that the scripts treat apart.
- The candidate stream's cursor and `RejectAsync`, which ignores a refused completion.
- The mapping of script answers to claim results, and durable copies of positions and group plans in the store.
- Order placement, routing, zone fills, reward-risk checks and the trade-plan runtime.
- Configuration, manifests, the network client, the store's connection, logging, metrics, events and message texts.
- Decimal precision limits and overflow of volumes: arithmetic is exact, except that comments are read in the platform's integer widths; a number's trailing null characters are not stripped.
- Real clocks: executor time and store time are the same abstract clock.
