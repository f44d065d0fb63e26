# Compute-Sentry in Dafny

Compute-Sentry watches GPU training pods. A spy library inside the pod times NCCL calls and queues them; an agent on
the node judges each pod's health; an operator injects the spy, taints nodes and evicts pods. This project models the
parts that carry state or arithmetic and proves what they do over whole runs.

| files | what they hold |
|---|---|
| `TimeLists`, `EvaluatorTables` | the evaluator's four tables and what each locked region does to them |
| `HealthEvaluatorObject` | the evaluator as a class: maps updated in place, map loops in any order |
| `EvaluatorRuns`, `EvaluatorConfigs`, `EvaluatorMarks`, `EvaluatorCounting`, `EvaluatorRecovery`, `EvaluatorSchedules`, `EvaluatorTracking` | runs of the evaluator with the full history beside the tables, and the laws over them |
| `RingQueue`, `RingProtocol`, `ModArith` | the ring buffer as a class, and its concurrent protocol step by step |
| `WireFormat`, `CollectorObject`, `PodIdentity`, `Pipeline` | the datagram, the collector's reused buffer as a class, the pod name in fixed buffers, the lossy chain from hook to evaluator |
| `JsonMergePatch`, `NodeTaints` | merge patches (section 2 of RFC 7396) and the taint list |
| `Policies`, `HealthController`, `HealthControllerObject`, `HealthControllerLaws`, `ThrottleOverlap` | policy choice, one reconcile as a function and as a class, and laws over any sequence of reconciles |
| `PodMutator`, `PodMutatorLaws` | the admission webhook and repeated admission |

`dafny verify dfyconfig.toml` checks everything.

## Where the code departs from what it says

- **Recovery.** `RecoveryMultiplier` is documented as the quiet time before a pod is marked healthy
  (agent/collector/evaluator.go:21-23). The first tick that finds the window empty deletes the list the quiet-time test
  reads. `RecoversIff` says, for every run, tick and pod and whatever syncs do to the window, exactly when a tick
  recovers the pod: it is unhealthy, its last violation is out of the window and older than three windows, and every
  earlier tick since that violation found it still inside the window of that moment. It follows which tick schedules
  allow recovery. Only windows at ticks that find violations of the pod matter. For all defaults and every config a pod
  may have, or none, with a positive window W that stays: some tick must come more than 3W after the start and more than
  2W + 1 after the tick before it, in nanoseconds (`RecoveryReachableIff`). With ticks at most two seconds apart a tick
  recovers a pod, with a window of a second or more, only if the window shrank since the tick before
  (`PunctualRecoveryNeedsShrink`), so a pod whose window does not shrink never recovers (`PunctualTicksNeverRecover`).
  A sync can shrink it: then a tick more than three of the smallest windows after the start is enough, however punctual
  and whatever the defaults (`AnyWindowReachableIff`, `PunctualTicksCanRecover`).
- **Counting.** The documented rule counts violations in the window (docs/governance-architecture.md:54). The code counts
  what ticks have left over. It never counts more; it counts as many exactly when no violation inside the evaluation's
  window was out of the window of an earlier tick (`CountAgrees`, `VerdictAgreesIff`). That holds while no evaluation
  looks further back than an earlier tick that had violations of the pod to prune, so also for a window that grows by no
  more than the time gone by, and in particular for one that never grows, whatever the default was before the pod's
  config was known (`AdvancingCutoffsSuffice`). It can fail after a larger growth (`GrowingWindowMissesBreach`).
- **Untainting.** docs/K8S_TEST_PLAN.md:206-215 expects the taint to go when pods are healthy. `untaintNode` passes the
  filtered copy to `MergeFrom` and the node as read to `Patch`, so its patch restores the list it read: no sequence of
  reconciles removes the taint (`UntaintFresh`, `NeverRemoved`, `TaintStays`).
- **Throttling.** docs/K8S_TEST_PLAN.md:251 expects part of the unhealthy pods to be evicted. A policy that starts within
  its limit loses at most one pod or 5%, whatever other policies share its pods (`EvictionBound`). Of a policy that
  governs its unhealthy pods, all on known nodes, every run evicts exactly the unhealthy pods it reconciles if the policy
  starts within its limit, and none otherwise (`EvictedIffReconciled`, `EvictsAllOrNone`). A policy over its limit loses
  a pod exactly when another policy within its own limit governs and evicts that pod (`OverLimitLosesIff`); that can
  exceed the bound (`OverlapEscapesThrottle`).
- **Admission.** The webhook is registered for updates too and does not look at its own `injected` annotation, so it is
  idempotent only for pods it leaves alone (`IdempotentIffNotInjected`, `RepeatedAdmission`).
- **Queue.** `Push` is called from a hook any application thread may enter. The queue's laws hold when pushes do not
  overlap. From every state such runs reach with room for an item, at any capacity, two pushes that do overlap both
  succeed and leave one item (`OverlappingPushesLoseAnItem`).
- **Names.** A pod name survives the two 63-byte copies for sure exactly when it has at most 62 bytes (`SurvivesIff`).

## Conventions

Time is integer nanoseconds, non-decreasing, one reading per `time.Now()`; 0 is Go's zero time. Integers are unbounded
where the source's do not wrap in practice. Percentages and the 5% test are exact rationals. In the evaluator's runs a
sync may fall between any two steps; marking a pod healthy and deleting its entry are one step. In the controller's runs
the reads of one reconcile are consistent and evictions take effect at once; `NodeTaints` treats stale reads. In the
queue's runs, pushes that do not overlap are taken to be synchronised with each other even when they come from
different threads: each sees the tail the one before it stored, and no older head than that one saw.

## Model

| member | source | states |
|---|---|---|
| HealthEvaluatorObject.HealthEvaluator.constructor | agent/collector/evaluator.go:57-69 | a new evaluator has empty tables; the default window is the argument in seconds |
| HealthEvaluatorObject.HealthEvaluator.RecordSeen | agent/collector/evaluator.go:145-148 | first locked region: the pod is seen now, nothing else changes, and the cached config is returned |
| HealthEvaluatorObject.HealthEvaluator.FetchAndCachePodConfig | agent/collector/evaluator.go:287-314 | a fetched config is cached and returned; a failed fetch changes nothing |
| HealthEvaluatorObject.HealthEvaluator.CountViolationsLocked | agent/collector/evaluator.go:185-194 | the count is the number of kept violations strictly after the cutoff |
| HealthEvaluatorObject.HealthEvaluator.JudgeDuration | agent/collector/evaluator.go:166-183 | second locked region: a slow event is recorded, and the pod is marked exactly when it newly exceeds the limit |
| HealthEvaluatorObject.HealthEvaluator.JudgeUnder | agent/collector/evaluator.go:155-183 | the same in config fields: maxNcclLatencyUs is the threshold, windowSize seconds the window and errorCountLimit the limit, or the three defaults without a config |
| HealthEvaluatorObject.HealthEvaluator.FindConfig | agent/collector/evaluator.go:147-153 | the config as first read or, without one, as fetched; syncs before and after the fetch change the cache only |
| HealthEvaluatorObject.HealthEvaluator.EvaluateKey | agent/collector/evaluator.go:150-183 | with syncs before and after the fetch, the event is judged by the config first read or, without one, by the one fetched |
| HealthEvaluatorObject.HealthEvaluator.ProcessKey | agent/collector/evaluator.go:145-183 | both locked regions together, for one pod key |
| HealthEvaluatorObject.HealthEvaluator.ProcessEvent | agent/collector/evaluator.go:129-183 | the whole event in the source's fields: which events are ignored, which config decides, when a violation is recorded, when the pod turns unhealthy and is marked, what syncs in between do to the cache |
| HealthEvaluatorObject.HealthEvaluator.SplitTimes | agent/collector/evaluator.go:212-221 | the inner loop yields the readings after the cutoff and the latest reading |
| HealthEvaluatorObject.HealthEvaluator.PruneEntry | agent/collector/evaluator.go:203-232 | one visit of the first map loop: rewrite or delete the entry, and report whether the pod recovers |
| HealthEvaluatorObject.HealthEvaluator.PruneViolations | agent/collector/evaluator.go:200-232 | whatever order the keys are visited in, the final map and the pods to recover are the same closed form of the prior state |
| HealthEvaluatorObject.HealthEvaluator.DropStale | agent/collector/evaluator.go:234-247 | the same for the second map loop: exactly the stale keys leave the three maps |
| HealthEvaluatorObject.HealthEvaluator.SweepLocked | agent/collector/evaluator.go:196-248 | the locked part of a tick equals one closed form over the state before it |
| HealthEvaluatorObject.HealthEvaluator.RecoverPods | agent/collector/evaluator.go:250-259 | exactly the recovering pods whose key splits in two are marked and leave the unhealthy map |
| HealthEvaluatorObject.HealthEvaluator.SyncNodePods | agent/collector/evaluator.go:331-341 | configs are overwritten in list order by the pods that carry one |
| EvaluatorTables.PruneStep | agent/collector/evaluator.go:203-232 | visiting one more key, whichever it is, advances the partial sweep without disturbing other keys |
| EvaluatorTables.SweepMeans | agent/collector/evaluator.go:196-248 | a tick key by key: what stays inside the window in seconds, who is forgotten after three windows, who recovers |
| EvaluatorTables.JudgeByConfig | agent/collector/evaluator.go:160-183 | what the second locked region does to each table, in the fields of the pod's config or the defaults |
| EvaluatorTables.SyncTakesLast | agent/collector/evaluator.go:331-341 | a sync leaves a pod the config of the last listed pod with its key that carries one, whatever else the list holds |
| EvaluatorTables.SyncPasses | agent/collector/evaluator.go:331-341 | a sync that lists no config for a key changes nothing for it |
| EvaluatorTables.MarkReachesItsPod | agent/collector/evaluator.go:142-142 | splitting a key gives back namespace and name exactly when neither holds a slash; other pods are never marked healthy |
| TimeLists.SortedSplits | agent/collector/evaluator.go:212-217 | pruning a sorted list discards a prefix: discarded then kept is the whole list |
| TimeLists.AfterCounts | agent/collector/evaluator.go:188-192 | the count is the number of recorded readings strictly after the cutoff |
| TimeLists.LatestIsGreatest | agent/collector/evaluator.go:213-221 | the latest violation is the greatest reading, zero for an empty list |
| EvaluatorRuns.SweepKeepsTables | agent/collector/evaluator.go:196-248 | a tick keeps violations inside last-seen keys, sorted and no later than last seen; both loops using the same window is what makes this hold |
| EvaluatorRuns.InvStep | agent/collector/evaluator.go:105-119 | every step keeps the invariant of tables, log and event in progress |
| EvaluatorRuns.ReachableTables | agent/collector/evaluator.go:145-177 | in every reachable state violation and unhealthy keys are last-seen keys, lists are non-empty, sorted and bounded, and log is discarded plus kept |
| EvaluatorConfigs.SettingsOrigin | agent/collector/evaluator.go:146-164 | in every run, whatever syncs fall in between, an event is judged by the config cached when it was taken up or, without one, by what its fetch brought, field by field |
| EvaluatorConfigs.JudgedAsConfigured | agent/collector/evaluator.go:129-183 | in every run an evaluation records a violation if and only if the call took longer than that config's maxNcclLatencyUs, and turns the pod unhealthy if and only if more than errorCountLimit are kept from the last windowSize seconds |
| EvaluatorConfigs.StepsOfAnEvent | agent/collector/evaluator.go:129-183 | the run steps of one event, with syncs between them, leave the tables that the object's method leaves |
| EvaluatorMarks.MarkStep | agent/collector/evaluator.go:175-179 | every step keeps the mark discipline |
| EvaluatorMarks.UnhealthyIffLastMarked | agent/collector/evaluator.go:175-179 | a pod is in the unhealthy map exactly while the latest thing that happened to it is an unhealthy mark |
| EvaluatorMarks.HealthyAnswersUnhealthy | agent/collector/evaluator.go:223-228 | each healthy mark answers an unhealthy mark of that pod with no mark between |
| EvaluatorMarks.UnhealthyMarksSeparated | agent/collector/evaluator.go:235-257 | two unhealthy marks of a pod have a recovery or a stale removal between them |
| EvaluatorTracking.LastSeenIsLatestEvent | agent/collector/evaluator.go:146-146 | the last-seen time is that of the pod's latest event in the run |
| EvaluatorTracking.ForgottenIffSilent | agent/collector/evaluator.go:234-247 | a tick forgets a pod exactly when all its events are more than three windows old, and then no table holds it |
| EvaluatorCounting.PrunedByTick | agent/collector/evaluator.go:209-231 | in every reachable state a violation is discarded if and only if some earlier tick found it recorded and outside the window of that moment |
| EvaluatorCounting.CountAgreesExactly | agent/collector/evaluator.go:185-194 | in every reachable state the kept list never counts more than the full log, and counts the same from a cutoff on if and only if no violation after the cutoff was out of the window of an earlier tick |
| EvaluatorCounting.CountAgrees | agent/collector/evaluator.go:160-194 | the same at every evaluation, with the recount's own clock reading and the event's settings |
| EvaluatorCounting.VerdictAgreesIff | agent/collector/evaluator.go:172-175 | an evaluation decides as the documented rule would, for every limit, if and only if it misses nothing in that sense |
| EvaluatorCounting.AdvancingCutoffsSuffice | agent/collector/evaluator.go:186-216 | nothing is missed while no evaluation looks further back than an earlier tick that had violations of the pod to prune; a window that never grows is a case of it, and windows at other ticks do not matter |
| EvaluatorCounting.TurnsUnhealthyOnBreach | agent/collector/evaluator.go:166-181 | no step turns a pod unhealthy without a breach of the documented rule; an evaluation that misses nothing turns it unhealthy, with one mark, exactly on a breach |
| EvaluatorCounting.UnhealthyIffBreached | docs/governance-architecture.md:51-54 | over any stretch of a run in which no evaluation of the pod misses anything and nothing clears it, it is unhealthy at the end if and only if a breach happened |
| EvaluatorCounting.EmptyWindowTurnsIff | agent/collector/evaluator.go:172-177 | with a window of 0 or less an evaluation turns the pod unhealthy if and only if the event is slow and the limit negative |
| EvaluatorCounting.EmptyWindowNeverMarks | operator/api/v1/computesentrypolicy_types.go:80-89 | with a window of at most 0 and a limit of at least 0, as when evalConfig is omitted, no run ever marks the pod |
| EvaluatorCounting.GrowingWindowMissesBreach | agent/collector/evaluator.go:185-231 | a reachable state in which the rule is breached and the code does not mark the pod, after its window grew |
| EvaluatorRecovery.SafeRecovery | agent/collector/evaluator.go:209-228 | whenever a pod is marked healthy every violation ever recorded for it is more than three windows old, and the zero-time case does not arise |
| EvaluatorRecovery.KeptIffSpared | agent/collector/evaluator.go:209-231 | in every reachable state violations of a pod are kept if and only if the last one recorded was inside the window at every tick since |
| EvaluatorRecovery.RecoversIff | agent/collector/evaluator.go:203-232 | in every run, whatever happens to the window, a tick takes a pod up for recovery if and only if it is unhealthy, its last violation is out of the window and older than three windows, and every tick since found that violation inside its window |
| EvaluatorRecovery.RecoveryNeedsLateTick | agent/collector/evaluator.go:203-232 | a run that marks a pod healthy has a late tick for its window, if that window is the same at every tick that finds violations of the pod |
| EvaluatorRecovery.PunctualRecoveryNeedsShrink | agent/collector/evaluator.go:105-119 | with ticks at most two seconds apart, a tick recovers a pod with a window of a second or more only if the window shrank since the tick before, which found the last violation inside |
| EvaluatorRecovery.PunctualTicksNeverRecover | agent/collector/evaluator.go:105-119 | with ticks at most two seconds apart no pod is ever marked healthy whose window, at ticks that find violations of it, is at least a second and does not shrink from one to the next; policy windows and the default alike |
| EvaluatorSchedules.LateTickRecovers | agent/collector/evaluator.go:196-260 | for every schedule with a late tick, all defaults and every config of the pod, or none, a run on that schedule recovers it |
| EvaluatorSchedules.RecoveryReachableIff | agent/collector/evaluator.go:21-23 | for all defaults and every config a pod may have, or none, with a positive window: a tick schedule allows its recovery if and only if it has a late tick for that window |
| EvaluatorSchedules.ShrinkingWindowRecovers | agent/collector/evaluator.go:316-341 | on every schedule, however punctual, with a tick more than three small windows after the start, and for all defaults, a run in which a sync makes the window that small recovers a pod |
| EvaluatorSchedules.AnyWindowReachableIff | agent/collector/evaluator.go:203-232 | when syncs may change the window down to some number of seconds, a schedule allows recovery, for all defaults, if and only if it has a tick more than three windows of that size after the start |
| EvaluatorSchedules.PunctualTicksCanRecover | agent/collector/evaluator.go:105-119 | for all defaults, a run with ticks exactly two seconds apart and a window that a sync shrinks marks a pod healthy |
| RingQueue.LockFreeQueue.constructor | spy/include/queue.h:15-15 | a new queue is empty |
| RingQueue.LockFreeQueue.Push | spy/include/queue.h:17-26 | Push fails exactly when capacity - 1 items are held and otherwise appends |
| RingQueue.LockFreeQueue.Pop | spy/include/queue.h:28-36 | Pop fails exactly on an empty queue, leaving its argument, and otherwise removes the oldest item |
| RingProtocol.InvStep | spy/include/queue.h:17-36 | every atomic step of either side keeps the protocol invariant, with stale monotone views of the other index |
| RingProtocol.SlotsInRange | spy/include/queue.h:18-34 | in every run, overlapping pushes included, only slots of the buffer are addressed |
| RingProtocol.Fifo | spy/include/queue.h:17-36 | in every interleaving what was popped followed by what the buffer holds is what was pushed, in order |
| RingProtocol.NoRace | spy/include/queue.h:23-33 | no slot is written while it holds an unread item or is being read |
| RingProtocol.ExactTests | spy/include/queue.h:18-31 | at its load Push fails exactly when capacity - 1 items are live for the value loaded, Pop exactly when none is, through any number of wraparounds |
| RingProtocol.HistoryGrows | spy/include/queue.h:17-36 | what was pushed and popped is never revised |
| RingProtocol.OverlappingPushesLoseAnItem | spy/src/spy.cpp:112-131 | from every state of a serial run with room for an item, any capacity, any two idle producers and any two items, overlapping pushes both succeed and the buffer gains the second item only |
| WireFormat.RoundTrip | agent/collector/collector.go:20-31 | decoding inverts the 184-byte layout for every event, any padding and any trailing bytes |
| WireFormat.Layout | spy/include/queue.h:44-57 | the offset of every field in the 184 bytes |
| WireFormat.LittleEndian | agent/collector/collector.go:84-84 | byte i of an integer weighs 256 to the power i |
| WireFormat.TwosComplement | agent/collector/collector.go:23-31 | signed fields are two's complement |
| WireFormat.InverseRoundTrip | spy/include/queue.h:44-57 | every 184-byte datagram is the layout of the event it decodes to |
| WireFormat.DecodesExactly | agent/collector/collector.go:79-88 | a datagram decodes if and only if it starts with a layout; one under 24 bytes is skipped and one under 184 fails to decode |
| CollectorObject.Collector.Listen | agent/collector/collector.go:68-92 | any number of passes of the listen loop send exactly the events of the datagrams read, in order; bytes an earlier datagram left in the reused buffer never matter |
| CollectorObject.StreamRoundTrip | agent/collector/collector.go:72-91 | a stream of laid-out events comes out of the loop event for event |
| PodIdentity.CopyString | spy/src/spy.cpp:30-30 | strncpy in place: string bytes, zeros up to the count, the rest untouched |
| PodIdentity.DetectName | spy/src/spy.cpp:27-39 | the static buffer after detection, terminated at byte 63 |
| PodIdentity.NameReceived | spy/src/spy.cpp:124-130 | both copies and bytesToString together give the name, or its first 63 bytes and possibly the unwritten byte |
| PodIdentity.SurvivesIff | spy/src/spy.cpp:126-128 | a NUL-free name comes back from both copies and bytesToString, whatever the event's memory held, if and only if it has at most 62 bytes |
| PodIdentity.EndToEnd | agent/collector/evaluator.go:121-136 | the same from environment to decoded event |
| Pipeline.InvStep | spy/src/spy.cpp:88-95 | every stage step keeps order and conservation |
| Pipeline.Conservation | agent/collector/collector.go:72-91 | in every state each produced event is in exactly one place: evaluated, in flight, or lost at one of the three drop points, pushes refused for a stale head included |
| Pipeline.RoomKept | agent/main.go:84-93 | no stage holds more than its room: 4095 in the ring, 1000 in each channel |
| Pipeline.RoomExactly | agent/collector/collector.go:90-90 | a push can be accepted exactly below 4095 waiting items, and the listener waits exactly while its channel holds 1000 |
| Pipeline.LostOnlyThere | agent/main.go:85-93 | events are lost only at a refused push, a failed send, or a forward to a channel that holds 1000 |
| Pipeline.EvaluatedInOrder | agent/main.go:84-93 | evaluated events are an ordered subsequence without repetition of those produced |
| JsonMergePatch.DiffApply | operator/internal/controller/health_controller.go:200-207 | applying the merge patch between two documents to the first gives the second |
| JsonMergePatch.ApplyMember | operator/internal/controller/health_controller.go:207-207 | section 2 of RFC 7396 member by member: null removes, objects merge, anything else replaces, the rest stays |
| JsonMergePatch.PatchesOnlyChanges | operator/internal/controller/health_controller.go:200-207 | laid over a third document, the patch between two others changes only what differs between them |
| NodeTaints.PatchSetsTaints | operator/internal/controller/health_controller.go:199-207 | a patch between two versions of a node that differ in taints sets the server's list whole and nothing else |
| NodeTaints.PatchSent | operator/internal/controller/health_controller.go:199-207 | the patch sent holds the whole new list under spec.taints, null when empty, and nothing else |
| NodeTaints.TaintSent | operator/internal/controller/health_controller.go:201-205 | what taintNode appends to that list, field by field |
| NodeTaints.HasOursMeans | operator/internal/controller/health_controller.go:193-198 | a node counts as tainted exactly when some taint has the key compute-sentry.aiguard.io/unhealthy |
| NodeTaints.OthersConcat | operator/internal/controller/health_controller.go:236-244 | filtering drops exactly the taints with our key and keeps the order of the rest |
| NodeTaints.TaintFresh | operator/internal/controller/health_controller.go:180-208 | with a fresh read taintNode adds the taint compute-sentry.aiguard.io/unhealthy=true:NoSchedule if there was none of our key, and keeps all others in order |
| NodeTaints.TaintStale | operator/internal/controller/health_controller.go:185-207 | a stale read keeps the other taints exactly when it agrees with the server on them |
| NodeTaints.UntaintFresh | operator/internal/controller/health_controller.go:229-253 | untaintNode leaves the list as it was, and so does what it is meant to exactly when there is nothing to remove |
| NodeTaints.UntaintStale | operator/internal/controller/health_controller.go:229-253 | a stale read with our key overwrites the server's list; others' taints survive exactly if the lists agree on them, and the meant list results exactly if neither holds our key |
| NodeTaints.UntaintMeant | operator/internal/controller/health_controller.go:228-253 | the patch in the other direction would remove our taints and only ours |
| NodeTaints.NeverTwice | operator/internal/controller/health_controller.go:180-253 | our key never appears twice, with reads from any earlier state |
| NodeTaints.NeverRemoved | operator/internal/controller/health_controller.go:180-253 | no call removes our taint, with reads from any earlier state |
| Policies.FirstMatchIsFirst | operator/internal/webhook/v1/pod_mutator.go:44-56 | the chosen policy is the first valid matching one, and none is chosen exactly when none matches |
| Policies.RequirementMeans | operator/internal/controller/health_controller.go:167-173 | what the four operators say about a pod's labels |
| Policies.MatchLabelsMean | operator/internal/controller/health_controller.go:167-173 | a matchLabels entry is an In requirement with one value |
| Policies.RequirementsCombine | operator/internal/controller/health_controller.go:167-173 | requirements are combined by and; an empty selector selects every pod |
| Policies.InvalidMeans | operator/internal/controller/health_controller.go:168-171 | exactly which selectors do not parse |
| HealthControllerObject.Controller.FindMatchingPolicy | operator/internal/controller/health_controller.go:159-177 | the controller's search yields the first valid matching policy |
| HealthControllerObject.Controller.GetNodePodsHealthStatus | operator/internal/controller/health_controller.go:295-315 | totals of the node's pods, split into unhealthy and the rest |
| HealthControllerObject.Controller.CheckEvictionThrottling | operator/internal/controller/health_controller.go:128-156 | throttles if and only if more than one listed pod and more than 5% of them are unhealthy; an invalid selector lists all pods |
| HealthControllerObject.Controller.IsTainted | operator/internal/controller/health_controller.go:325-331 | finds our key if and only if it is there |
| HealthControllerObject.Controller.EvaluateNodeTaintDecision | operator/internal/controller/health_controller.go:318-377 | taints exactly an untainted node whose threshold is met and untaints exactly a tainted one whose threshold is not: any unhealthy pod without a threshold, else the minimum count or the minimum percentage of a node that has pods |
| HealthControllerObject.Controller.Patch | operator/internal/controller/health_controller.go:252-252 | the stored node becomes the document the merge patch gives |
| HealthControllerObject.Controller.TaintNodeFrom | operator/internal/controller/health_controller.go:180-208 | taintNode on the server's list for any read |
| HealthControllerObject.Controller.FilterTaints | operator/internal/controller/health_controller.go:236-244 | the loop keeps exactly the taints with other keys, in order, and reports whether ours was there |
| HealthControllerObject.Controller.UntaintNodeFrom | operator/internal/controller/health_controller.go:229-253 | untaintNode on the server's list for any read, with its patch direction as written |
| HealthControllerObject.Controller.UntaintNodeIfTaintedByUs | operator/internal/controller/health_controller.go:256-278 | a missing node is ignored; a tainted one is handed to untaintNode |
| HealthControllerObject.Controller.ReconcilePod | operator/internal/controller/health_controller.go:43-125 | one reconcile of the object is the reconcile function on its value, outcome included |
| HealthControllerLaws.ListCounts | operator/internal/controller/health_controller.go:142-147 | the counted pods are the positions that pass the filter, the unhealthy ones those annotated "unhealthy" |
| HealthControllerLaws.FiltersMean | operator/internal/controller/health_controller.go:130-134 | the throttle lists the pods the selector matches, all if it does not parse; the taint decision lists the node's |
| HealthControllerLaws.DecideExactly | operator/internal/controller/health_controller.go:353-377 | the taint decision in numbers, both directions |
| HealthControllerLaws.ReconcileExactly | operator/internal/controller/health_controller.go:87-122 | one reconcile in full: which taint is added to which list, which pod goes and what is returned, in counts, thresholds and flags |
| HealthControllerLaws.ReconcileIdle | operator/internal/controller/health_controller.go:43-83 | the reconciles that change nothing: no pod, no node name, no tainting policy, no such node |
| HealthControllerLaws.StepPods | operator/internal/controller/health_controller.go:107-122 | a reconcile removes at most the one unhealthy pod it is for and never touches policies |
| HealthControllerLaws.ThrottleSeesThePod | operator/internal/controller/health_controller.go:128-140 | when the throttle is consulted the selector has parsed and at least one listed pod is unhealthy |
| HealthControllerLaws.EvictsIffAllowed | operator/internal/controller/health_controller.go:107-122 | such a pod is evicted if and only if at most one or at most 5% of the pods listed for its policy are unhealthy, and throttled otherwise |
| HealthControllerLaws.EvictsIff | operator/internal/controller/health_controller.go:66-122 | a reconcile evicts the pod it is for if and only if the pod is annotated unhealthy on a known node and its governing policy taints and evicts and has at most one or at most 5% unhealthy pods |
| HealthControllerLaws.OverLimitLosesIff | operator/internal/controller/health_controller.go:107-156 | a policy over its limit loses a listed pod in a reconcile if and only if another policy, within its own limit, governs and evicts that pod |
| HealthControllerLaws.AllowedStep | operator/internal/controller/health_controller.go:149-153 | no reconcile takes a policy from within its limit to over it |
| HealthControllerLaws.BlockedRun | operator/internal/controller/health_controller.go:110-115 | a policy over its limit that governs its unhealthy pods keeps all its pods through any run |
| HealthControllerLaws.EvictionsAccount | operator/internal/controller/health_controller.go:107-122 | what a listing loses in a run is exactly the evicted pods, all unhealthy |
| HealthControllerLaws.EvictionBound | operator/internal/controller/health_controller.go:107-156 | no run evicts more than one pod or 5% of the pods of a policy that starts within its limit, however policies overlap, or that governs its unhealthy pods; in the second case none if it starts over its limit |
| HealthControllerLaws.EvictedIffReconciled | operator/internal/controller/health_controller.go:107-156 | after any run a pod of such a policy is gone if and only if it is annotated unhealthy, the run reconciles it, and at the start at most one or at most 5% of the policy's pods were unhealthy |
| HealthControllerLaws.EvictsAllOrNone | operator/internal/controller/health_controller.go:149-153 | for a policy that governs its unhealthy pods, all on known nodes: within its limit a run clears it of unhealthy pods if and only if it reconciles each of them; over its limit no run evicts even one |
| HealthControllerLaws.AllEvictable | operator/internal/controller/health_controller.go:107-156 | some run clears a policy within its limit that governs its unhealthy pods of all of them: reconciling every pod once does |
| ThrottleOverlap.OverlapEscapesThrottle | operator/internal/controller/health_controller.go:158-177 | with an earlier overlapping policy, a policy over its limit still loses more than the bound |
| HealthControllerLaws.NodeActionTaint | operator/internal/controller/health_controller.go:93-105 | after the decision the node is tainted exactly if it was before or the decision wants it |
| HealthControllerLaws.UntaintNodeDoesNothing | operator/internal/controller/health_controller.go:229-253 | untaintNode leaves the whole cluster as it was |
| HealthControllerLaws.StepTaint | operator/internal/controller/health_controller.go:66-105 | after a reconcile a node is tainted if and only if it was before or the reconciled pod is on it, its policy taints and the policy's threshold, in numbers, is met |
| HealthControllerLaws.RunTaint | operator/internal/controller/health_controller.go:66-105 | after any run, whatever the policies, a node is tainted if and only if it was at the start or some reconcile of the run wanted it |
| HealthControllerLaws.TaintStays | operator/internal/controller/health_controller.go:72-105 | no run of reconciles removes the taint |
| HealthControllerLaws.EvictedTaintExact | operator/internal/controller/health_controller.go:87-122 | the evicted pod's node is tainted afterwards exactly if it was before or its pods met the threshold |
| HealthControllerLaws.EvictedFromTainted | operator/internal/controller/health_controller.go:87-122 | a pod whose own policy sets no node threshold is never evicted from a node lacking our taint |
| HealthControllerLaws.EvictedNodesStayTainted | operator/internal/controller/health_controller.go:295-351 | over a run, every node such a pod was evicted from is tainted at the end |
| HealthControllerLaws.WantedShrinks | operator/internal/controller/health_controller.go:353-365 | evicting an unhealthy pod never turns the taint predicate from false to true, for any count and percentage |
| HealthControllerLaws.FinalTaint | operator/internal/controller/health_controller.go:317-377 | when a node's pods agree on their taint setting, its final taint depends on the start and on whether it is touched at all, not on the order of reconciles |
| PodMutator.PodObject.MatchPolicy | operator/internal/webhook/v1/pod_mutator.go:44-56 | the webhook's search yields the same policy as the controller's |
| PodMutator.DecisionMeans | operator/internal/webhook/v1/pod_mutator.go:62-71 | an inject annotation decides, "true" alone meaning yes, whatever the policies; without one the first policy whose selector parses and matches decides by its spy flag; without that no |
| PodMutator.PodObject.DecideInjection | operator/internal/webhook/v1/pod_mutator.go:62-71 | the decision as the webhook computes it |
| PodMutator.PodObject.InjectOne | operator/internal/webhook/v1/pod_mutator.go:103-154 | one container rewritten in place, the others untouched |
| PodMutator.PodObject.Handle | operator/internal/webhook/v1/pod_mutator.go:58-211 | injects exactly when the annotation says "true" or, without an annotation, the first matching policy enables the spy; otherwise the whole pod stays as it was |
| PodMutatorLaws.InjectedContainer | operator/internal/webhook/v1/pod_mutator.go:103-154 | every variable and mount a container gains, and that nothing else of it changes |
| PodMutatorLaws.InjectedPod | operator/internal/webhook/v1/pod_mutator.go:102-197 | the three volumes and one init container a pod gains, labels and order kept |
| PodMutatorLaws.InjectedAnnotations | operator/internal/webhook/v1/pod_mutator.go:199-211 | the injected annotation, and all other annotations kept |
| PodMutatorLaws.InjectedPrecheck | operator/internal/webhook/v1/pod_mutator.go:77-100 | the precheck container, with a variable for each bandwidth threshold that is not 0 |
| PodMutatorLaws.DecimalReadsBack | operator/internal/webhook/v1/pod_mutator.go:90-98 | a threshold written as text reads back as the same number |
| PodMutatorLaws.PolicyReachesAgent | operator/internal/webhook/v1/pod_mutator.go:81-84 | the config the webhook writes makes the agent judge by the matched policy's latency threshold, window and limit, whatever its defaults |
| PodMutatorLaws.DecisionStable | operator/internal/webhook/v1/pod_mutator.go:62-71 | mutation changes neither the governing policy nor the decision to inject |
| PodMutatorLaws.RepeatedAdmission | operator/internal/webhook/v1/pod_mutator.go:102-211 | k admissions give k library prefixes on the first LD_PRELOAD, k sets of variables and mounts, k init containers and 3k volumes, all original entries in place and order |
| PodMutatorLaws.IdempotentIffNotInjected | operator/internal/webhook/v1/pod_mutator.go:73-75 | admission is idempotent if and only if the pod is not injected |
| PodMutatorLaws.AdmissionKeepsMounts | operator/internal/webhook/v1/pod_mutator.go:144-197 | every mount still names a volume of the pod |

## Left out

- Kubernetes client calls, contexts, timeouts and errors other than a missing object; a failed API call has no effect in the model.
- JSON marshalling of objects other than a node's taint list, and the admission patch: the governance config reaches the agent as the value it encodes.
- Admission requests that do not decode, and failures to list policies: they end in an error response without a rewrite.
- Character-level validation of label keys and values: one flag of the selector stands for it.
- The C++ memory model beyond stale, monotone index views; `Push` and `Pop` on the same slot are shown never to meet.
- IEEE rounding in the percentage and 5% tests: 29 of 100 is exactly 29 percent here and slightly less in the code.
- int64 overflow of a window in seconds times a nanosecond factor.
- Controller runs with stale reads beyond the taint list: eviction and taint laws assume consistent reads within one reconcile.
- HealthControllerLaws.EvictionBound: for a policy over its limit, asks that it govern its unhealthy pods; OverlapEscapesThrottle shows why.
- The race between the sender thread filling the name buffers and hooks that copy them early.
- The gpu_model field's own two copies, which follow the pod name's pattern with 31 and 32 bytes.
- When exactly a push is refused in the chain: Pipeline allows a refusal at any time, RingProtocol.ExactTests says when one happens.
- Pushes by different threads that do not overlap and yet see each other's stores late.
- Datagrams from other processes on the shared socket, and several spies feeding one collector.
- The drain loop and the forwarding loop are steps of a state machine on values, since they never return; CollectorObject.Collector.Listen runs the listen loop over finitely many reads, and a send on a full channel waits in the state machine only.
- Library loading, GPU detection, timing, the Prometheus exporter, topology lookup, file copying, start-up, the precheck script and the scaffolded policy reconciler and webhooks.
