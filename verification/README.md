# Verification of the accruvia harness kernels

This project models the small protocols and state machines at the heart of the accruvia harness and
proves what they keep over whole runs: the crash-safe telemetry journal, the control plane, the LLM
router and its availability gate, startup recovery, loop detection, the run budget, the retry loop, the
merge gate, task lineage, the UI event bus and the atomicity gate.

`dafny verify dfyconfig.toml` checks everything. Objects that the harness updates in place are classes
here, and each of their methods is proved against a specification function on the object's stored value.
The laws below are lemmas about those functions, over every run. Files, tables, queues and the commit
graph are sequences and maps. Clocks, fresh ids, worker outcomes, executor answers, probe results, git
answers and crash damage are inputs that may be anything, unless a lemma says otherwise.

| file | what it holds |
|---|---|
| `TelemetryProtocol.dfy` | the journal as a machine of micro-steps, with a crash allowed between any two |
| `TelemetrySink.dfy` | the sink's own methods, each walking through those micro-steps, and the summary's folds |
| `ControlModel.dfy` | the control plane's operations as functions, and the laws of its runs |
| `ControlCalls.dfy` | what each control-plane call does to the switch, the freeze, the lanes and the log |
| `ControlPlane.dfy` | the control plane object, each call proved to end where the model says |
| `LLMRouter.dfy` | backend order, retry, failover and learned demotion |
| `AvailabilityGate.dfy` | cached probing with exponential backoff |
| `StaleStateRecovery.dfy` | recovery of leases, runs, worker runs and tasks |
| `LoopDetection.dfy` | the bounded same-state window against the full history |
| `RunBudget.dfy` | sliding-window usage and the escalation it raises |
| `RetryPolicy.dfy` | analyzer, decider, the retry loop, branching and the time budget |
| `MergeGate.dfy` | check, merge, run the suite, step back, on a commit graph |
| `Lineage.dfy` | ancestor walk and descendant recursion |
| `EventBus.dfy` | bounded queues and their broadcast |
| `Atomicity.dfy` | classification, scoring and action for a set of changed files |

## What the code does otherwise than it says

Five promises do not hold of the code as written. Each is modelled as the code has it, with an instance in
which it fails and the exact condition under which it holds.

- `mark_degraded` is undone inside the same call: the closing reconciliation recomputes the state from
  the lanes (`ControlModel.DegradedMarkIsUndone`, instance `ControlModel.DegradedMarkExample`). The system
  ends degraded with the given reason exactly when the first blocked lane gives that reason of its own
  (`ControlModel.DegradedMarkStandsIff`).
- A freeze is documented as an emergency halt (CONTROL-PLANE-PLAN.md:512), but a lane may enter a
  cooldown while frozen, and when the cooldown runs out that lane is put back to work under the freeze
  (`ControlModel.CooldownOutlivesFreeze`). `ControlModel.FrozenLaneRunsIff` is the exact condition and
  `ControlModel.FrozenMeansQuiet` what remains true over whole runs.
- An outcome with no backend available is commented as not costing an attempt
  (src/accruvia_harness/services/run_service.py:435), but the next attempt number is one above the highest
  recorded one, so it does, except when the next attempt is already the last allowed one
  (`RetryPolicies.OutageCostsNothingIff`). Such outcomes alone never end the loop
  (`RetryPolicies.StopsExactlyWhen`, instance `RetryPolicies.OutageHasNoBudget`); `RetryPolicies.RetryIsBounded`
  and `RetryPolicies.BudgetSuffices` say what they add to the bound and to the time.
- A failed merge steps back to `HEAD~1` on the assumption that the merge made a commit. When the branch
  was already contained in the target it made none, and the step removes an earlier commit
  (instance `MergeGates.StepBackExample`, practical case `MergeGates.RetryAfterSuccessUndoesIt`).
  `MergeGates.FailureLeavesTheTip` is the exact condition.
- A branch run whose worker reports failure is judged by its artifacts alone, so it can win the branching
  and complete the task (instance `RetryPolicies.FailedBranchExample`). It does so exactly when the best of
  the usable branches is such a one (`RetryPolicies.FailedBranchWinsIff`).

## Model

| member | source | states |
|---|---|---|
| TelemetryProtocol.ExactlyOnce | src/accruvia_harness/telemetry.py:211-287 | After any interleaving of records, crashes between any two micro-steps (also inside recovery, also losing the watermark file) and restarts, once the sink is up a channel reads back as exactly the records accepted on it, each once, in call order |
| TelemetryProtocol.ReadersSeeAPrefix | src/accruvia_harness/telemetry.py:211-238 | In every intermediate state the deduplicated channel file is a prefix of the journal's entries of that channel, missing at most the newest journal entry |
| TelemetryProtocol.SequencesIncrease | src/accruvia_harness/telemetry.py:240-254 | Journal sequence numbers strictly increase whatever the wall clock does, also backwards, and ids never repeat |
| TelemetryProtocol.WatermarkIsBehind | src/accruvia_harness/telemetry.py:362-386 | Every journal entry at or below the saved watermark is already readable in its channel file, in every reachable state |
| TelemetryProtocol.JournalHoldsAccepted | src/accruvia_harness/telemetry.py:240-254 | Over any legal run the journal's entries of a channel are what was there before followed by the records accepted, nothing lost or reordered |
| TelemetryProtocol.RunKeepsInv | src/accruvia_harness/telemetry.py:240-386 | The write-ahead invariant (complete, or only the newest entry missing and above the mark) survives every legal run |
| TelemetryProtocol.CrashKeepsInv | src/accruvia_harness/telemetry.py:350-386 | A crash in any phase, with the watermark file damaged or not, leaves a disk that recovery can complete |
| TelemetryProtocol.MaterializeReadBack | src/accruvia_harness/telemetry.py:289-337 | Writing a journal entry to its channel file again is invisible to readers, and writing the one missing entry completes the file |
| TelemetryProtocol.ReplayMaterializeKeepsInv | src/accruvia_harness/telemetry.py:256-287 | One replayed entry above the watermark keeps the invariant, wherever in the journal replay stands |
| TelemetryProtocol.WatermarkOnlyRises | src/accruvia_harness/telemetry.py:350-386 | Between crashes the watermark a load finds, or that is about to be written back, never moves down, over any legal run of records and recoveries |
| TelemetryProtocol.WatermarkIsTheNewest | src/accruvia_harness/telemetry.py:256-287 | Whatever the history of records, crashes and lost watermarks, between calls both halves of the watermark are exactly the sequence of the newest journal entry |
| TelemetryProtocol.SequenceFollowsTheClock | src/accruvia_harness/telemetry.py:240-254 | The next record gets the clock's reading as its sequence if that is above the newest entry's, and otherwise one more than the newest, with its own id, channel and payload |
| TelemetryProtocol.RecoveryHealsInterruption | src/accruvia_harness/telemetry.py:240-287 | A call that ends half-way in a caught error is as harmless as a crash if the next call reads: both recoveries start alike |
| TelemetryProtocol.RecordAfterErrorCompletes | src/accruvia_harness/telemetry.py:240-254 | If the failed call had reached the channel file, a next record leaves every channel complete |
| TelemetryProtocol.RecordAfterErrorSkips | src/accruvia_harness/telemetry.py:240-254 | If it had not and the next call records, its entry stays out of the channel file, and replay will pass it by if and only if the new record's clock or the old watermark has reached its sequence |
| TelemetryProtocol.SkippedStaysSkipped | src/accruvia_harness/telemetry.py:256-287 | An entry passed by that way stays missing through every call, recovery included, until a crash costs the watermark |
| TelemetryProtocol.DedupIds | src/accruvia_harness/telemetry.py:211-238 | Deduplication by record id keeps exactly the ids of the file |
| TelemetryProtocol.ProjectionIds | src/accruvia_harness/telemetry.py:289-337 | A record id occurs in a channel exactly when a journal entry of that channel carries it |
| TelemetrySinks.TelemetrySink.constructor | src/accruvia_harness/telemetry.py:68-82 | Opening a sink on whatever a crash left recovers it to a complete state without touching the journal, with the watermark at the larger of the one found and the newest entry's sequence |
| TelemetrySinks.TelemetrySink.RecordEnvelope | src/accruvia_harness/telemetry.py:240-254 | Recording takes exactly the micro-steps journal, channel file, truncate, save, in that order; it adds one entry, numbered by the clock or one above the watermark, and the watermark becomes that number |
| TelemetrySinks.TelemetrySink.RecoverFromJournal | src/accruvia_harness/telemetry.py:256-287 | Recovery is a legal sequence of micro-steps from either a crash or an open sink and ends complete; the saved watermark is the larger of the one found and the newest entry's sequence, and on an open sink no file but the watermark's is written and the watermark stays |
| TelemetrySinks.TelemetrySink.MaterializeEnvelope | src/accruvia_harness/telemetry.py:289-337 | Appends the entry to its channel's file and to nothing else; an unknown channel writes nothing |
| TelemetrySinks.TelemetrySink.WriteState | src/accruvia_harness/telemetry.py:362-386 | Truncation and write are two separate micro-steps; what is written is the maximum of the new pair and the pair held before the truncation |
| TelemetrySinks.TelemetrySink.Load | src/accruvia_harness/telemetry.py:211-238 | A load returns exactly the journal's entries of the channel, in journal order, each once, and leaves the files and the watermark as they were |
| TelemetrySinks.TelemetrySink.Summarize | src/accruvia_harness/telemetry.py:111-187 | Metric totals, averages, cost totals, span counts and span averages equal those of the journal itself, whatever the crash history; the sequences reported are the watermark's, which stays, and the backlog is none |
| TelemetrySinks.FoldMetrics | src/accruvia_harness/telemetry.py:117-133 | The single pass over metrics yields a total and an average for exactly the names that occur, and the four cost totals |
| TelemetrySinks.FoldSpans | src/accruvia_harness/telemetry.py:134-143 | The single pass over spans counts exactly the names that occur, and averages those that have a duration |
| TelemetrySinks.AverageTimesCount | src/accruvia_harness/telemetry.py:141-143 | The averages are means: times the number of values they are the total |
| TelemetrySinks.ReadLines | src/accruvia_harness/telemetry.py:211-238 | The reading loop skips blank and corrupt lines and keeps the first line of each record id |
| ControlModel.EveryCallSettles | src/accruvia_harness/control_plane.py:254-337 | From any state, every call that returns leaves FROZEN, OFF, DEGRADED or HEALTHY as the switch and lanes dictate, with DEGRADED's reason taken from the first blocked lane; a call raises only for an unknown lane or a lane that may not resume, and then nothing changes |
| ControlModel.StatusIdempotent | src/accruvia_harness/control_plane.py:254-330 | At a fixed clock a second status call changes nothing, not even the log |
| ControlModel.DegradedMarkIsUndone | src/accruvia_harness/control_plane.py:94-106 | The degraded mark leaves no trace but its event: the call ends where plain status passes at the same clocks end |
| ControlModel.DegradedMarkStandsIff | src/accruvia_harness/control_plane.py:94-106 | After marking, the system is DEGRADED with the given reason if and only if it is on, not frozen, and the first lane still blocked at the call's clocks has that very reason |
| ControlModel.DegradedMarkExample | src/accruvia_harness/control_plane.py:304-337 | With its one lane at work a marked system ends HEALTHY without a reason |
| ControlModel.LanesStaySafe | src/accruvia_harness/control_plane.py:31-176 | Over every run: with the switch off no lane is RUNNING, and a lane has a cooldown end exactly while it is in COOLDOWN |
| ControlModel.DisabledLaneUntouched | src/accruvia_harness/control_plane.py:31-176 | A disabled lane's row changes only under a call that names it |
| ControlModel.FreezeSurvives | src/accruvia_harness/control_plane.py:67-133 | The freeze, its reason and the switch survive every call except freeze, thaw, turn-on and turn-off |
| ControlModel.FrozenMeansQuiet | src/accruvia_harness/control_plane.py:67-92 | From a freeze on, over any calls that neither unfreeze nor enter a cooldown, no lane enabled at the freeze runs |
| ControlModel.FrozenLaneRunsIff | src/accruvia_harness/control_plane.py:154-176 | A call puts a lane to work under a freeze if and only if the switch is on and a cooldown runs out under that call |
| ControlModel.CooldownOutlivesFreeze | src/accruvia_harness/control_plane.py:154-176 | Whenever a cooldown is entered under a freeze with the switch on, the first status after its end leaves the system FROZEN with that lane RUNNING |
| ControlModel.LogReplaysToState | src/accruvia_harness/control_plane.py:345-358 | Replaying the events of any run over the initial view gives the switch, the freeze with its reason and every lane's state and reason, resumes by cooldown expiry included |
| ControlModel.StateIsAFunctionOfTheLog | README.md:53-60 | The switch, the global state with its reason, and every lane's state and reason are determined by the initial view and the event log, over every run |
| ControlModel.CooldownEndsAreNotLogged | src/accruvia_harness/control_plane.py:154-176 | The ends of cooldowns are not so determined: a cooldown entered at two times leaves equal logs and different lane rows |
| ControlModel.SettledIsAFunctionOfView | src/accruvia_harness/control_plane.py:304-330 | In a settled state the global state and its reason follow from the switch, the freeze and the lanes alone |
| ControlModel.RunWellFormed | src/accruvia_harness/control_plane.py:31-176 | Lane names stay distinct, lanes stay safe and a freeze always carries a reason, over every run |
| ControlCalls.TurnOnDoes | src/accruvia_harness/control_plane.py:31-47 | From every state: the switch is on, a freeze is lifted, every enabled lane runs with its cooldown cleared, the system is HEALTHY, and the log gains exactly the one event |
| ControlCalls.TurnOffDoes | src/accruvia_harness/control_plane.py:49-65 | From every state: the switch is off, a freeze is lifted, every enabled lane is paused, the system is OFF, and the log gains exactly the one event |
| ControlCalls.FreezeDoes | src/accruvia_harness/control_plane.py:67-92 | From every state: FROZEN for the given reason, every enabled lane paused, the switch as before, and the log gains exactly the one event |
| ControlCalls.MarkDegradedDoes | src/accruvia_harness/control_plane.py:94-106 | The switch, the freeze and all lanes but those whose cooldown runs out are as before; the event is logged unless frozen |
| ControlCalls.MarkHealthyDoes | src/accruvia_harness/control_plane.py:108-113 | The switch, the freeze and all lanes but those whose cooldown runs out are as before; the event is logged unless frozen or off |
| ControlCalls.ThawOnDoes | src/accruvia_harness/control_plane.py:115-133 | With the switch on the freeze is lifted, every enabled lane runs and the system is HEALTHY |
| ControlCalls.ThawOffDoes | src/accruvia_harness/control_plane.py:115-133 | With the switch off the freeze is lifted and the system is OFF, but no lane is rewritten |
| ControlCalls.PauseDoes | src/accruvia_harness/control_plane.py:135-141 | The named lane is paused for the given reason, whatever it was doing; no other lane changes but by its cooldown running out |
| ControlCalls.ResumeDoes | src/accruvia_harness/control_plane.py:143-152 | The named lane runs if and only if the switch is on and is paused otherwise; no other lane changes but by its cooldown running out |
| ControlCalls.CooldownDoes | src/accruvia_harness/control_plane.py:154-176 | The named lane cools down until max(seconds, 0) after the call, unless the call's own clocks overtake that; no other lane changes but by its cooldown running out |
| ControlCalls.EscalationAndStatusDo | src/accruvia_harness/control_plane.py:240-290 | An escalation adds its event and a status none; neither touches the switch, the freeze or any lane but those whose cooldown runs out |
| ControlCalls.ExpiryLogsEachOnce | src/accruvia_harness/control_plane.py:292-302 | Expiry logs one resume for each lane whose cooldown is over, in lane order, and nothing else |
| ControlPlanes.ControlPlane.constructor | src/accruvia_harness/control_plane.py:25-29 | A first start stores the switch off and every lane paused, a well-formed state |
| ControlPlanes.ControlPlane.ExpireCooldowns | src/accruvia_harness/control_plane.py:292-302 | The expiry loop resumes exactly the lanes whose cooldown has run out, with one event each, in lane order |
| ControlPlanes.ControlPlane.ReconcileSystemState | src/accruvia_harness/control_plane.py:304-330 | The stored system row becomes the reconciled one, lanes and log untouched |
| ControlPlanes.ControlPlane.GetStatus | src/accruvia_harness/control_plane.py:254-290 | Stored rows end settled and the report shows exactly the stored state and the lanes cooling down |
| ControlPlanes.CooldownsAreThoseCooling | src/accruvia_harness/control_plane.py:258-267 | A lane is reported with the end of its cooldown exactly when it is cooling down |
| ControlPlanes.ControlPlane.SyncGlobalState | src/accruvia_harness/control_plane.py:332-337 | Expiry, reconciliation and status compose to the model's settling step |
| ControlPlanes.ControlPlane.RewriteEnabled | src/accruvia_harness/control_plane.py:31-92 | The bulk loops rewrite every enabled lane and no disabled one |
| ControlPlanes.ControlPlane.TurnOnSystem | src/accruvia_harness/control_plane.py:31-47 | Switch on, every enabled lane put to work, the event logged, then settled with the report showing the stored rows |
| ControlPlanes.ControlPlane.TurnOffSystem | src/accruvia_harness/control_plane.py:49-65 | Switch off, every enabled lane paused, the event logged, then settled; lifts a freeze |
| ControlPlanes.ControlPlane.FreezeSystem | src/accruvia_harness/control_plane.py:67-92 | The freeze with its reason, every enabled lane paused, the event logged; the switch stays |
| ControlPlanes.ControlPlane.MarkSystemDegraded | src/accruvia_harness/control_plane.py:94-106 | Nothing while frozen; otherwise the mark and its event, and then the settling that undoes the mark |
| ControlPlanes.ControlPlane.MarkSystemHealthy | src/accruvia_harness/control_plane.py:108-113 | Nothing but a status while frozen or off; otherwise the event and the settling |
| ControlPlanes.ControlPlane.ThawSystem | src/accruvia_harness/control_plane.py:115-133 | The freeze lifted, enabled lanes put to work only with the switch on, the event logged, then settled |
| ControlPlanes.ControlPlane.PauseOneLane | src/accruvia_harness/control_plane.py:135-141 | Raises exactly for an unknown lane; otherwise that lane is paused, whatever it was, and the system settled |
| ControlPlanes.ControlPlane.ResumeOneLane | src/accruvia_harness/control_plane.py:143-152 | Raises exactly while frozen or for an unknown lane; otherwise that lane runs if the switch is on and is paused if not |
| ControlPlanes.ControlPlane.CoolDownLane | src/accruvia_harness/control_plane.py:154-176 | Raises exactly for an unknown lane; otherwise that lane cools down from the call's time on, also under a freeze |
| ControlPlanes.ControlPlane.RecordHumanEscalation | src/accruvia_harness/control_plane.py:240-252 | Logs the escalation and settles |
| LLMRouting.ChainIsStablePartition | src/accruvia_harness/llm.py:397-427 | The chain is a duplicate-free permutation of the configured backends, healthy before demoted, preference order kept in each half |
| LLMRouting.StablePartitionIsUnique | src/accruvia_harness/llm.py:397-427 | Those laws determine the chain completely |
| LLMRouting.LLMRouter.AutoBackend | src/accruvia_harness/llm.py:472-481 | Under GitHub Actions prefers accruvia_client, then command; in all other cases picks the first configured candidate; raises exactly when none is configured |
| LLMRouting.LLMRouter.ResolveChain | src/accruvia_harness/llm.py:397-427 | Raises exactly when no usable backend is configured; otherwise yields the healthy-first chain of a preference order of exactly the usable backends, headed for "auto" by accruvia_client or command under GitHub Actions and else by the first configured candidate, and for a named backend by that one |
| LLMRouting.LLMRouter.CallBackend | src/accruvia_harness/llm.py:441-466 | A backend is called until its first answer that is not a transient failure, three times at most |
| LLMRouting.TransientIff | src/accruvia_harness/llm.py:415-431 | A failure is transient exactly when its message contains one of the eleven signals, in any ASCII case |
| LLMRouting.LLMRouter.ExecuteChain | src/accruvia_harness/llm.py:433-470 | Returns the first backend in chain order that succeeds within three tries, raises exactly if none does, and leaves demoted = old + permanent failures before the winner - winner |
| LLMRouting.LLMRouter.Execute | src/accruvia_harness/llm.py:433-470 | Resolution fails exactly when no usable backend is configured, and then calls nobody and demotes nobody; otherwise the usable backends are executed in the resolved order, which for "auto" is headed by the automatic choice |
| LLMRouting.DemotedExactlyWhen | src/accruvia_harness/llm.py:433-470 | After a call, successful or not, a backend is demoted if and only if it was before, or failed permanently with none before it succeeding, and it is not the first to succeed |
| LLMRouting.RoundCost | src/accruvia_harness/llm.py:433-470 | What one call costs in failing invocations, and which backends it leaves demoted, when one backend is good |
| LLMRouting.FailoverIsAmortised | src/accruvia_harness/llm.py:397-470 | Over any number of calls, each in its own preference order of the same backends, in which one backend always answers and the others fail permanently within t tries, failing invocations total at most t times (backends - 1) |
| LLMRouting.TransientFailuresAreNeverLearned | src/accruvia_harness/llm.py:429-470 | Failures that look transient are never learned from: a first backend that keeps failing that way costs three calls in every round, without bound |
| AvailabilityGates.LLMAvailabilityGate.IsAvailable | src/accruvia_harness/llm_availability.py:29-59 | Answer and new gate state are those of the model; a probe round records exactly the configured commands up to the first that answers, and no other call touches the record |
| AvailabilityGates.ProbesExactlyWhenDue | src/accruvia_harness/llm_availability.py:29-59 | Over every run a call probes if and only if there was no round yet, or the latest is a cache lifetime old and, if it failed, its backoff is over; the answer is that round's, or the latest round's when none is due |
| AvailabilityGates.LatestResultWins | src/accruvia_harness/llm_availability.py:40-46 | Where probed commands share a name, the recorded result is the latest one's own |
| AvailabilityGates.ResetStartsAfresh | src/accruvia_harness/llm_availability.py:61-66 | After a reset the gate and its rounds are those of a new gate, so every law of runs without resets holds between one reset and the next |
| AvailabilityGates.ResetProbesAtOnce | src/accruvia_harness/llm_availability.py:61-66 | A reset gives up the spacing across it: the next call probes whatever backoff and cache said, at any time that is not negative |
| AvailabilityGates.PositiveAnswersStayFresh | src/accruvia_harness/llm_availability.py:29-66 | Over every run with resets a positive answer still means a success now or less than a cache lifetime ago |
| AvailabilityGates.RoundsAreSpaced | src/accruvia_harness/llm_availability.py:29-59 | Consecutive probe rounds are at least a cache lifetime apart, and a failed round is followed by at least its backoff |
| AvailabilityGates.BackoffFollowsStreak | src/accruvia_harness/llm_availability.py:48-59 | After k failed rounds in a row the backoff is min(30 * 2^k, the maximum), and 30 before the first failure, for every run |
| AvailabilityGates.StreakTakesTime | src/accruvia_harness/llm_availability.py:29-59 | A streak of k failed rounds lasts at least the sum of max(cache lifetime, backoff) over its rounds before the next round |
| AvailabilityGates.PositiveAnswersAreFresh | src/accruvia_harness/llm_availability.py:29-46 | A positive answer means the latest round succeeded, now or less than a cache lifetime ago |
| AvailabilityGates.BackoffIsQuiet | src/accruvia_harness/llm_availability.py:30-33 | Any number of calls inside a backoff window probe nothing and change nothing |
| StaleStateRecovery.SQLiteHarnessStore.RecoverStaleState | src/accruvia_harness/store.py:64-135 | The four tables end as recovered from the tables before, row by row, and the counts are those of stale rows and expired leases |
| StaleStateRecovery.EverythingActiveIsLeased | src/accruvia_harness/store.py:64-135 | Afterwards every active task and every in-progress run is under a live lease |
| StaleStateRecovery.EveryRunEndedOrLeased | src/accruvia_harness/store.py:64-135 | In the tables' own terms: afterwards every run is completed, failed, blocked or disposed, or its task has a lease that ends after now, and so for tasks |
| StaleStateRecovery.StaleRowsEnd | src/accruvia_harness/store.py:64-135 | A stale run fails with the crash summary at this time; its worker run ends "failed", classified and ended as it was or else as a system failure now; a stale task is pending; other worker runs are unchanged |
| StaleStateRecovery.OnlyStaleWorkChanges | src/accruvia_harness/store.py:64-135 | Work under a live lease and finished runs are unchanged; the only changes are active to pending, which the domain allows, and in-progress to failed; classification and end time already set are kept |
| StaleStateRecovery.CountsAreChanges | src/accruvia_harness/store.py:64-135 | The reported counts equal the numbers of runs and tasks whose status changed and of leases deleted |
| StaleStateRecovery.SecondRecoveryIsIdle | src/accruvia_harness/store.py:64-135 | A second recovery at the same time changes nothing and counts nothing |
| StaleStateRecovery.LaterRecoveryAbsorbsEarlier | src/accruvia_harness/store.py:64-135 | Recovering early and again later ends in the same leases, runs and task states as recovering once, later, and the counts add up |
| LoopDetection.WindowRefinesHistory | src/accruvia_harness/control_watch.py:311-326 | Over any passes the windowed count is the length of the maximal run of the present state in the full history, cut off at the hard maximum, so the rule fires exactly from the threshold-th consecutive identical pass |
| LoopDetection.HistoryIsObserved | src/accruvia_harness/control_watch.py:456-496 | The snapshot log of an entity is exactly what the passes observed of it, whatever else is logged between |
| LoopDetection.ControlWatch.SameStateLoop | src/accruvia_harness/control_watch.py:498-511 | The counting loop returns the smaller of the hard maximum and the true run length |
| LoopDetection.ControlWatch.RunOnce | src/accruvia_harness/control_watch.py:80-99 | A pass matches exactly the entities at or above the threshold and appends exactly one snapshot per recorded state |
| LoopDetection.ControlWatch.constructor | src/accruvia_harness/control_watch.py:69-70 | The threshold is at least one and the hard maximum at least the threshold |
| LoopDetection.FingerprintsDecideStates | src/accruvia_harness/control_watch.py:513-521 | Two task fingerprints are equal if and only if status, latest run, latest artifact kind and lease are |
| RunBudget.RunBudgetObserver.RecordBudgetUsage | src/accruvia_harness/control_plane.py:178-205 | Recording adds one use to the history, whether its window already has a row or not, so that every query over rows still equals the query over the history |
| RunBudget.RunBudgetObserver.ExpensiveCodingBudgetExhausted | src/accruvia_harness/control_plane.py:207-226 | True exactly when more uses than the limit were recorded in the trailing hour |
| RunBudget.RunBudgetObserver.HandleRunCreated | src/accruvia_harness/control_runtime.py:31-58 | An event escalates exactly when its objective has started at least its fourth run in the trailing hour, this one included |
| RunBudget.UpdateAdds | src/accruvia_harness/control_plane.py:178-205 | Adding to one row adds exactly that to every query that selects it, for all scopes, keys and cutoffs |
| RunBudget.UsageCountsRuns | src/accruvia_harness/control_runtime.py:31-58 | For an objective the recorded usage in any trailing window is the number of its runs started in it |
| RunBudget.UnownedRunsCountForTheWorker | src/accruvia_harness/control_runtime.py:31-48 | Runs of tasks without an objective are counted, all together, against the worker's own budget |
| RetryPolicies.PromoteMeansDelivered | src/accruvia_harness/policy.py:98-199 | A run is promoted if and only if its worker reports success and every required artifact kind is present among a non-empty set |
| RetryPolicies.RetryMeansAttemptsRemain | src/accruvia_harness/policy.py:158-199 | A run is retried if and only if it is not promotable and attempts remain |
| RetryPolicies.LastAttemptBranchesOrFails | src/accruvia_harness/policy.py:158-199 | From the attempt limit on, work that is not promoted branches exactly if more than one branch is allowed, the run is no branch itself, and the worker was neither blocked nor failed on infrastructure; all other work fails |
| RetryPolicies.RunLeaves | src/accruvia_harness/services/run_service.py:545-628 | An ordinary run adds one record, numbered one above the highest attempt, with the run status its outcome deserves, and the task completed, pending, active or failed exactly as promotion, the limit and the branching decide |
| RetryPolicies.HighestAttemptIsReached | src/accruvia_harness/persistence/run_records.py:10-16 | The highest attempt counted is some run's own, or zero without runs |
| RetryPolicies.StopsExactlyWhen | src/accruvia_harness/services/run_service.py:1048-1087 | The loop stops at the first turn with some backend available that was promoted or reached the attempt limit, and at no other |
| RetryPolicies.RetryIsBounded | src/accruvia_harness/services/run_service.py:1048-1087 | For every stream of outcomes a loop takes at most max(attempts left, 1) runs plus one for each run at or past the last allowed attempt that finds no backend; a loop that gets to the last allowed attempt stops there if and only if it finds one |
| RetryPolicies.OutageCostsNothingIff | src/accruvia_harness/persistence/run_records.py:10-16 | A run without a backend takes the next attempt number, and leaves as many runs as before if and only if that was already the last allowed one |
| RetryPolicies.BranchesAtMostOnce | src/accruvia_harness/services/branch_service.py:57-89 | A loop branches at most once, only when more than one branch is allowed, with exactly that many branch runs, and then stops |
| RetryPolicies.BudgetSuffices | src/accruvia_harness/temporal_backend.py:58-70 | With runs within the timeout plus a minute and branch runs within the timeout, all time spent fits the Temporal budget but for the runs at or past the attempt limit that find no backend, and outright once any run from the last allowed attempt up to the limit finds one |
| RetryPolicies.BudgetIsTight | src/accruvia_harness/temporal_backend.py:58-70 | The budget is no longer than it must be: a new task whose runs and branch runs use all their time takes exactly the budget, but for its floor of 300 seconds |
| RetryPolicies.UnavailableTurnsNeverStop | src/accruvia_harness/services/run_service.py:435-445 | Any number of turns without a backend leaves the task pending, with its attempt number advanced by each |
| RetryPolicies.OutageUsesUpTheRetries | src/accruvia_harness/persistence/run_records.py:10-16 | After an outage as long as the attempt limit the first run on a working backend is the last |
| RetryPolicies.OutageHasNoBudget | src/accruvia_harness/services/run_service.py:435-445 | For every number of seconds there is a loop without backends that lasts that long and has not ended |
| RetryPolicies.CompletionIsBacked | src/accruvia_harness/services/run_service.py:590-628 | A task the loop completes has, among the runs of that loop, a promoted, completed one with every required artifact present |
| RetryPolicies.BranchingCompletesIff | src/accruvia_harness/services/branch_service.py:127-196 | A branched task completes if and only if some branch was not blocked and delivered, even one whose worker reported failure |
| RetryPolicies.FailedBranchWinsIff | src/accruvia_harness/services/branch_service.py:127-196 | Branching promotes a run whose worker reported failure if and only if the best of the usable branches, by artifacts and then by order, is such a run |
| RetryPolicies.FailedBranchExample | src/accruvia_harness/services/branch_service.py:127-196 | A concrete loop in which every worker reports failure and the task is completed |
| RetryPolicies.RunService.Once | src/accruvia_harness/services/run_service.py:545-628 | One run appends one record with the next attempt number and sets the task's state as its decision requires |
| RetryPolicies.RunService.CreateBranches | src/accruvia_harness/services/branch_service.py:57-156 | Appends exactly the allowed number of branch runs, each judged by its artifacts unless blocked |
| RetryPolicies.RunService.SelectWinner | src/accruvia_harness/services/branch_service.py:158-243 | Promotes the completed branch with the most artifacts, the earliest of equals, disposes of all others, and fails the task exactly if none completed |
| RetryPolicies.RunService.RunUntilStable | src/accruvia_harness/services/run_service.py:1048-1087 | Watched for any number of turns, the loop follows the model's turns one by one and is either terminal or still going |
| MergeGates.Repository.ExecuteMerge | src/accruvia_harness/merge_gate.py:217-299 | The repository and the result are those of the model, for every way git and the suite can answer |
| MergeGates.MergesExactlyWhen | src/accruvia_harness/merge_gate.py:228-299 | A call merges if and only if it is a repository, both branches exist, the tree is clean, the target is checked out or can be, the merge goes through or has nothing to do, and the suite passes |
| MergeGates.RefusedCallsChangeNothing | src/accruvia_harness/merge_gate.py:228-252 | A call that fails a check leaves the whole repository as it was, the checked-out branch included, and reports the first check it fails |
| MergeGates.CheckedCallsReport | src/accruvia_harness/merge_gate.py:249-294 | A call that passes the checks leaves the target checked out; a failed merge reports its conflicts and moves nothing, a suite that does not pass is reported |
| MergeGates.FailureLeavesTheTip | src/accruvia_harness/merge_gate.py:245-294 | A call that does not merge leaves the target's tip where it was if and only if it is not a call with nothing to merge, a suite that did not pass and a parent to step back to |
| MergeGates.SteppingBackLosesTheTip | src/accruvia_harness/merge_gate.py:280-294 | In that failing family the tip becomes its first parent and is lost from the target's history |
| MergeGates.StepBackExample | src/accruvia_harness/merge_gate.py:280-294 | A concrete two-commit repository on which a failed call moves the target |
| MergeGates.SuccessIsOneMergeCommit | src/accruvia_harness/merge_gate.py:249-299 | Success on a branch not yet contained advances the target by one commit whose first parent is the old tip and whose history is exactly both histories; that commit is reported |
| MergeGates.SuccessContainsTheBranch | src/accruvia_harness/merge_gate.py:217-299 | After a success the branch is contained in the target |
| MergeGates.OnlyTheTargetMoves | src/accruvia_harness/merge_gate.py:217-299 | No commit ever disappears from the graph and no branch but the target moves |
| MergeGates.FailureCanBeRetried | src/accruvia_harness/merge_gate.py:217-299 | After a failure on a branch not contained, a second call merges or again leaves every tip alone |
| MergeGates.RetryAfterSuccessUndoesIt | src/accruvia_harness/merge_gate.py:276-294 | After a success, a second call whose suite does not pass takes the finished merge off the target |
| MergeGates.HistoryOnlyGrows | src/accruvia_harness/merge_gate.py:217-299 | Over any series of calls outside the failing family, every branch keeps everything it ever had in its history |
| Lineages.Ancestors | src/accruvia_harness/interrogation.py:109-117 | The walk ends and yields the complete chain of parents, root first |
| Lineages.Descendants | src/accruvia_harness/interrogation.py:119-129 | The recursion ends and yields exactly the children of each task, in creation order, each with its own complete subtree |
| Lineages.ChildrenInCreationOrder | src/accruvia_harness/persistence/project_task.py:363-376 | Of any two children listed the earlier was created first |
| Lineages.TaskLineage | src/accruvia_harness/interrogation.py:104-134 | Raises exactly for an unknown task, otherwise reports that task's chain and tree |
| Lineages.DescendantsMirrorAncestors | src/accruvia_harness/interrogation.py:104-134 | A task is among the descendants of another if and only if the other is among its ancestors |
| Lineages.TreeNoRepeats | src/accruvia_harness/interrogation.py:119-129 | Each descendant is reported exactly once |
| Lineages.AncestorsAreRootFirst | src/accruvia_harness/interrogation.py:109-117 | The first ancestor has no stored parent, each is the parent of the next, the last is the task's own |
| Lineages.LineageIsUnique | src/accruvia_harness/interrogation.py:109-117 | A task has only one ancestor list |
| Lineages.WalksEndIffAcyclic | src/accruvia_harness/interrogation.py:110-116 | The ancestor walk ends for every task if and only if the parent relation has no cycle |
| EventBuses.EventBus.Subscribe | src/accruvia_harness/ui_routes.py:34-38 | Registers a fresh, empty queue and changes no other |
| EventBuses.EventBus.Unsubscribe | src/accruvia_harness/ui_routes.py:40-45 | Takes the queue off the list, and ignores one that is not on it |
| EventBuses.EventBus.Publish | src/accruvia_harness/ui_routes.py:47-59 | Every registered queue with room gets the event, every full one is dropped, no other queue changes |
| EventBuses.Receive | src/accruvia_harness/ui_routes.py:177-185 | A stream's turn takes the oldest waiting event of its own queue, or none |
| EventBuses.SubscribingJoins | src/accruvia_harness/ui_routes.py:34-38 | A new subscriber is registered with nothing published or delivered yet, and nothing changes for anybody else |
| EventBuses.DeliveryIsGapFree | src/accruvia_harness/ui_routes.py:27-59 | Over every interleaving, what a subscriber received and what waits for it is exactly what was published since it subscribed while it is registered, and a prefix of that ever after |
| EventBuses.LeavesExactlyWhen | src/accruvia_harness/ui_routes.py:40-59 | A subscriber leaves exactly by unsubscribing, or by a publish while 32 events are outstanding |
| EventBuses.NothingAfterLeaving | src/accruvia_harness/ui_routes.py:47-59 | After leaving it is never registered again, and everything it will ever receive is what it had been given by then |
| EventBuses.KeepingUpMissesNothing | src/accruvia_harness/ui_routes.py:47-59 | A subscriber that never has 32 events outstanding is never dropped and misses nothing |
| AtomicityGates.SurfaceClasses | src/accruvia_harness/atomicity.py:110-143 | The loop collects exactly the classes that some changed path has |
| AtomicityGates.SubsystemCount | src/accruvia_harness/atomicity.py:146-159 | The loop counts the distinct subsystems of the paths that are neither tests nor documents |
| AtomicityGates.CountUnselectedTests | src/accruvia_harness/atomicity.py:184-187 | The number of changed tests outside the selected validation targets |
| AtomicityGates.AtomicityGate | src/accruvia_harness/atomicity.py:174-277 | Score, flags, action and effective mode depend on the changed files only as a set, and are those of the model |
| AtomicityGates.RiskIsMonotone | src/accruvia_harness/atomicity.py:232-268 | With all else fixed, enlarging the changed-file set never lowers the score and never weakens the action |
| AtomicityGates.ScoreIs | src/accruvia_harness/atomicity.py:232-256 | The score is the sum of its seven conditions at their weights: 1, 1, 1, 2, 3, 1, 1 |
| AtomicityGates.ScoreDecides | src/accruvia_harness/atomicity.py:257-268 | Narrow validation from a score of two, narrow scope from four, and blocked exactly for self-referential changes |
| AtomicityGates.SubsystemInside | src/accruvia_harness/atomicity.py:146-159 | Inside the harness a path counts for the entry below its directory, file or directory |
| AtomicityGates.SubsystemOutside | src/accruvia_harness/atomicity.py:146-159 | Anywhere else a path counts for its top directory, or for itself at the top |
| AtomicityGates.DirectoriesDecide | src/accruvia_harness/atomicity.py:110-136 | Each of the seven directories has its own area, whatever follows |
| AtomicityGates.ClassesByPrefix | src/accruvia_harness/atomicity.py:110-143 | Each surface class is a matter of what the path starts with, and for the control plane also of its name; the order of the tests matters only for documents |
| AtomicityGates.BasenameIs | src/accruvia_harness/atomicity.py:119-124 | The name compared is what follows the last slash |
| AtomicityGates.PolicyIsControlPlane | src/accruvia_harness/atomicity.py:10-22 | Every validation-policy file is in the control plane, so touching one in the harness itself scores at least three |
| AtomicityGates.FlagsAreTheConditions | src/accruvia_harness/atomicity.py:232-256 | A flag is reported exactly when its condition holds |
| AtomicityGates.BlockedExactlyWhenSelfReferential | src/accruvia_harness/atomicity.py:197-201 | An attempt is blocked exactly when it touches a validation-policy file under one of the three known modes, however small the change |
| AtomicityGates.NarrowedModeMeansNoPolicyFile | src/accruvia_harness/atomicity.py:257-277 | The mode is changed only for default-focused attempts of middling score, and never when a validation-policy file was touched, so that clause of the mode choice never decides |
| AtomicityGates.EffectiveModeIs | src/accruvia_harness/atomicity.py:257-277 | A default-focused attempt of score two or three without validation-policy files is validated as an operator's by its strategy or files, else as a repair if it touches the control plane; every other attempt keeps its mode |

## Left out

- The telemetry journal across processes and with torn lines: one process and atomic line appends are assumed; a line cut in half would swallow the next record, and another process's watermark could pass an entry not yet materialized.
- A caught error in a telemetry call is not a step of the journal's machine: the four lemmas on it say what the next call makes of it, not what a whole run of such errors leaves.
- Control events whose key collides: two equal events in one microsecond violate the unique key (src/accruvia_harness/migrations.py:359), and the call raises after its row was written.
- Export to OpenTelemetry, whose warnings carry no record id.
- Floating-point rounding: averages, scores, clocks and lifetimes are exact reals or integers.
- Recovery-action and cooldown history rows of the control plane, and the active task and last merge fields of its status.
- `ControlRuntimeObserver._set_worker_lane` and `_apply_classification_policy`: they bypass the event log and the freeze, so the lane laws are about the control plane's own calls.
- `LLMRouting.LLMRouter.ExecuteChain`: the per-backend details in the text of the final error, and the pauses between tries.
- `LLMRouting.LLMRouter.CallBackend`: error texts are lower-cased for ASCII letters only.
- `AvailabilityGates.BackoffFollowsStreak`: a negative maximum backoff is not modelled.
- `LoopDetection.FingerprintsDecideStates`: task fingerprints only; a promotion's fingerprint joins free-form artifact kinds with commas, so different kinds can give one text.
- `LoopDetection.WindowRefinesHistory`: events with one and the same time stamp are taken newest first in insertion order, and a pass sees each entity at most once.
- `RetryPolicies.RunService.RunUntilStable`: a worker that raises, concurrent runs of one task, workspace preparation and external validation; a run's outcome is what the decider sees after them.
- `RetryPolicies.BudgetSuffices`: the 60 seconds beside the timeout are taken per ordinary run, and time between runs is part of them.
- `MergeGates.Repository.ExecuteMerge`: branch names stand for local branches, tags and commit hashes are not resolved; the contents of commits are whatever makes git and the suite answer as they do. The policy check before the merge (`evaluate_run`) is a list of independent tests.
- `EventBuses.EventBus.Publish`: runs under the bus's lock, and a queue's own put and get are each one step; threads waiting for either are not modelled.
- `AtomicityGates.AtomicityGate`: collecting the changed files from git, the telemetry record and the rationale texts.
- `Lineages.Descendants`: the other fields of a task and its serialization.
- Subprocesses, SQL, HTTP, prompts, the command line, migrations, codecs and status tables, cost ledgers, exploration policy, benchmarks, the sa-watch launcher and repair flow.
