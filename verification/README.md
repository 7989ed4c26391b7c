# Helix intermediate-state calculation, modelled in Dafny

This project models the intermediate-state stage of the Apache Helix controller. For every
resource, in priority order, the stage works out the placement the controller may move to in
this tick on the way to the best-possible placement. The steps are:

1. Classify every partition as needing recovery, needing load balance, or settled.
2. Copy the best-possible map of each settled partition.
3. Charge every pending state transition against the throttle quotas.
4. Decide whether only downward load-balance transitions may proceed, because too many
   partitions are in error or recovery.

When a per-instance maximum is configured, a capacity guard then counts the replicas assigned
to each instance. It reports an overflow, and asks for maintenance mode if none is active yet.

The modules follow the components of the stage:

- `HelixTypes` (types.dfy): instances, states, messages, the state model, the ideal state and
  the per-resource view of current, best-possible and pending placements.
- `ThrottleLedger` (ledger.dfy): the throttle controller's counters and quotas, kept abstract.
  The counters are a multiset of (scope, rebalance type) charges. A quota whose limit is absent
  is unlimited.
- `RebalanceClassifier` (classifier.dfy): the per-partition and per-message rebalance type.
- `PendingCharger` (charger.dfy): charging the pending transitions.
- `ReplicaAdmission` (admission.dfy): the per-replica throttle check, the downward-transition
  predicate, the per-message recovery and load rebalance, and the downward-only switch.
- `ResourcePrioritizer` (priority.dfy): the priority field, Java's `Integer.parseInt`, and the
  stable descending sort.
- `CapacityGuard` (guard.dfy): `validateMaxPartitionsPerInstance`.
- `PriorityComparators` (comparators.dfy): the message and partition comparators.
- `IntermediateStage` (stage.dfy): the per-resource computation, the loop over resources in
  priority order, and `process`.

The source iterates over hash maps and hash sets. The methods model that iteration with an
unspecified choice, so every contract holds for every iteration order. The charges, the
intermediate placement and the guard's pass or fail verdict are the same for every order.
When the guard fails, which over-limit instance and resource it reports may depend on the
order, as in the source, where it is whichever instance the hash map iteration first pushes
past the limit.

Exceptions are modelled as `Failure` results. A missing preference list makes the source throw
a NullPointerException. A preference list that names an instance twice makes its `toMap`
collector throw. Neither is a `HelixException`, so either one stops the whole computation.

## Model

| member | source | states |
|---|---|---|
| HelixTypes.SetState | helix-core/src/main/java/org/apache/helix/controller/stages/IntermediateStateCalcStage.java:481 | writing one replica's state sets that entry and leaves every other partition and replica as it was |
| ThrottleLedger.FreshLedger | helix-core/src/main/java/org/apache/helix/controller/stages/IntermediateStateCalcStage.java:114-115 | a ledger created for a tick has every counter at zero and is within every quota; the stage starts each tick from one |
| ThrottleLedger.Charge | helix-core/src/main/java/org/apache/helix/controller/stages/IntermediateStateCalcStage.java:475-477 | a charge adds exactly one count to the named counter and leaves the switch and limits alone |
| ThrottleLedger.ChargeKeepsQuota | helix-core/src/main/java/org/apache/helix/controller/stages/IntermediateStateCalcStage.java:577-582 | charging a counter whose quota is not yet full keeps the ledger within every quota |
| RebalanceClassifier.GetRebalanceType | helix-core/src/main/java/org/apache/helix/controller/stages/IntermediateStateCalcStage.java:601-656 | recovery exactly when some required state, other than DROPPED, ERROR or the initial state, has fewer non-disabled current replicas than expected; otherwise no rebalance exactly when the current map equals the best-possible map, and load balance exactly when it differs |
| RebalanceClassifier.RequiredStatesMatchExpected | helix-core/src/main/java/org/apache/helix/controller/stages/IntermediateStateCalcStage.java:685-705 | for a preference list without repeats, the required-state counts equal the expected counts that getRebalanceType uses, so the two agree |
| RebalanceClassifier.EnabledCountOfDistinct | helix-core/src/main/java/org/apache/helix/controller/stages/IntermediateStateCalcStage.java:699-701 | counting the enabled live entries of a list without repeats gives the size of the set of active instances |
| RebalanceClassifier.ConsumeRequiredStates | helix-core/src/main/java/org/apache/helix/controller/stages/IntermediateStateCalcStage.java:667-677 | after subtracting the current replicas, a state remains exactly when it is still outstanding, with the required count minus the replicas in that state |
| RebalanceClassifier.GetRebalanceTypePerMessage | helix-core/src/main/java/org/apache/helix/controller/stages/IntermediateStateCalcStage.java:665-683 | a message is a recovery transition exactly when its target state is still outstanding once the current replicas are subtracted; otherwise it is load balance |
| PendingCharger.EnumeratePending | helix-core/src/main/java/org/apache/helix/controller/stages/IntermediateStateCalcStage.java:464-465 | lists each pending message of a partition exactly once, and the charges of the list are the partition's charges taken in no particular order |
| PendingCharger.ChargesAmongRemove | helix-core/src/main/java/org/apache/helix/controller/stages/IntermediateStateCalcStage.java:466-480 | the charges of a partition's pending messages can be summed starting from any instance, so they do not depend on any order |
| PendingCharger.PendingChargesComplete | helix-core/src/main/java/org/apache/helix/controller/stages/IntermediateStateCalcStage.java:472-480 | every pending message that really changes its replica's state, on an instance not disabled, is charged at cluster, resource and instance scope |
| PendingCharger.PendingChargesSound | helix-core/src/main/java/org/apache/helix/controller/stages/IntermediateStateCalcStage.java:472-480 | every charge comes from such a message, and carries that message's rebalance type |
| PendingCharger.PendingChargesClusterMatchesResource | helix-core/src/main/java/org/apache/helix/controller/stages/IntermediateStateCalcStage.java:475-477 | the cluster and resource scopes receive the same charges |
| PendingCharger.PendingChargesOrderFree | helix-core/src/main/java/org/apache/helix/controller/stages/IntermediateStateCalcStage.java:466-480 | the charges do not depend on the order in which the messages are sorted |
| PendingCharger.ChargeMessagesOrderFree | helix-core/src/main/java/org/apache/helix/controller/stages/IntermediateStateCalcStage.java:466-481 | the ledger and the intermediate map after charging do not depend on the message order, so the comparator's order does not affect the result |
| PendingCharger.ChargeMessagesWrites | helix-core/src/main/java/org/apache/helix/controller/stages/IntermediateStateCalcStage.java:481 | after charging, every pending message's target replica holds the message's target state |
| PendingCharger.ChargeMessagesKeeps | helix-core/src/main/java/org/apache/helix/controller/stages/IntermediateStateCalcStage.java:469-482 | entries that no message targets are left unchanged |
| PendingCharger.TargetsOrderFree | helix-core/src/main/java/org/apache/helix/controller/stages/IntermediateStateCalcStage.java:469-482 | the set of written replicas does not depend on the message order |
| PendingCharger.ChargePendingTransition | helix-core/src/main/java/org/apache/helix/controller/stages/IntermediateStateCalcStage.java:450-484 | fails exactly when some partition lacks a usable preference list. On success the ledger gains exactly the charges of the resource's pending messages. Every pending target is written, every other entry of the intermediate map is kept, and each row holds exactly its earlier entries plus the targets of its pending messages |
| PendingCharger.ResourcePendingChargesComplete | helix-core/src/main/java/org/apache/helix/controller/stages/IntermediateStateCalcStage.java:470-480 | every pending message of the resource that really changes its replica's state, on an instance not disabled, charges its instance, the resource and the cluster, in its own rebalance type |
| PendingCharger.ResourcePendingChargesSound | helix-core/src/main/java/org/apache/helix/controller/stages/IntermediateStateCalcStage.java:470-480 | every charge of the resource comes from such a message, in its type, at the cluster, the resource or the message's instance |
| ReplicaAdmission.ThrottleStateTransitionsForReplica | helix-core/src/main/java/org/apache/helix/controller/stages/IntermediateStateCalcStage.java:550-589 | a replica is held back exactly when the resource quota is full, or the instance quota is full and the instance is not disabled. A held-back message leaves its partition's dispatch list once and joins the throttled set; the call fails only when that list is missing. An admitted message is charged at cluster and resource scope and its target state is written |
| ReplicaAdmission.RemoveFirst | helix-core/src/main/java/org/apache/helix/controller/stages/IntermediateStateCalcStage.java:586 | removes exactly one occurrence of the message; the result is the list with its element at the first occurrence left out, the rest in order |
| ReplicaAdmission.FirstIndex | helix-core/src/main/java/org/apache/helix/controller/stages/IntermediateStateCalcStage.java:586 | the position found holds the message and no earlier position does |
| ReplicaAdmission.ResourceQuotaDecidesFirst | helix-core/src/main/java/org/apache/helix/controller/stages/IntermediateStateCalcStage.java:555-562 | with a full resource quota the replica is held back, with the ledger unchanged, whatever the instance quota says |
| ReplicaAdmission.DisabledSkipsInstanceQuota | helix-core/src/main/java/org/apache/helix/controller/stages/IntermediateStateCalcStage.java:563-574 | for a disabled instance only the resource quota decides |
| ReplicaAdmission.DisabledThrottleAdmitsAll | helix-core/src/main/java/org/apache/helix/controller/stages/IntermediateStateCalcStage.java:577-582 | with throttling switched off every replica is admitted |
| ReplicaAdmission.AdmissionNeverOvercharges | helix-core/src/main/java/org/apache/helix/controller/stages/IntermediateStateCalcStage.java:577-582 | a counter already above its limit receives no further charge |
| ReplicaAdmission.AdmissionKeepsQuota | helix-core/src/main/java/org/apache/helix/controller/stages/IntermediateStateCalcStage.java:577-582 | admission keeps a ledger that was within its quotas within them |
| ReplicaAdmission.IsLoadBalanceDownwardStateTransition | helix-core/src/main/java/org/apache/helix/controller/stages/IntermediateStateCalcStage.java:429-445 | as written: true only when the state model is known and both states have a priority, and then the two states differ; the lemmas below show it accepts exactly the transitions to a MORE important state |
| ReplicaAdmission.DownwardAsWrittenPromotes | helix-core/src/main/java/org/apache/helix/controller/stages/IntermediateStateCalcStage.java:440-441 | whatever the predicate as written accepts moves to a state with a lower priority value, which the source calls the higher priority |
| ReplicaAdmission.PromotionCountsAsDownward | helix-core/src/main/java/org/apache/helix/controller/stages/IntermediateStateCalcStage.java:432-445 | with MASTER at 0 and SLAVE at 1, SLAVE to MASTER counts as downward as written, while the corrected predicate accepts MASTER to SLAVE and rejects SLAVE to MASTER |
| ReplicaAdmission.IsDownwardStateTransition | helix-core/src/main/java/org/apache/helix/controller/stages/IntermediateStateCalcStage.java:424-445 | the corrected predicate accepts a transition exactly when the predicate as written accepts its reverse, so the target is always strictly less important than the source |
| ReplicaAdmission.DownwardIsAsymmetric | helix-core/src/main/java/org/apache/helix/controller/stages/IntermediateStateCalcStage.java:440-441 | a transition and its reverse are never both accepted by the predicate as written |
| ReplicaAdmission.DownwardComposes | helix-core/src/main/java/org/apache/helix/controller/stages/IntermediateStateCalcStage.java:440-441 | two transitions in a row accepted by the predicate as written make one it accepts, from the first state to the last |
| ReplicaAdmission.RecoveryRebalance | helix-core/src/main/java/org/apache/helix/controller/stages/IntermediateStateCalcStage.java:498-504 | a recovery message goes through the throttle check with the recovery type |
| ReplicaAdmission.LoadRebalance | helix-core/src/main/java/org/apache/helix/controller/stages/IntermediateStateCalcStage.java:520-532 | corrected: with downward-only on, a message to a strictly less important state is written with no check or charge; anything else goes through the throttle check with the load-balance type |
| ReplicaAdmission.LoadRebalanceAsWritten | helix-core/src/main/java/org/apache/helix/controller/stages/IntermediateStateCalcStage.java:520-532 | as written: with downward-only on, whatever the predicate as written accepts has its target state written with no check or charge, dispatch lists and throttled set untouched; anything else goes through the throttle check |
| ReplicaAdmission.AsWrittenAdmitsPromotion | helix-core/src/main/java/org/apache/helix/controller/stages/IntermediateStateCalcStage.java:520-532 | in downward-only mode with the load quota used up, the code as written lets a promotion through uncharged, while the corrected admission throttles it and leaves the placement alone |
| ReplicaAdmission.DownwardOnlyGatesPromotions | helix-core/src/main/java/org/apache/helix/controller/stages/IntermediateStateCalcStage.java:396-398 | in downward-only mode the corrected admission never lets a transition to an equally or more important state past a used-up load quota |
| ReplicaAdmission.LoadRebalanceSparesRecovery | helix-core/src/main/java/org/apache/helix/controller/stages/IntermediateStateCalcStage.java:520-532 | load admission, both the corrected and the as-written member, never changes a recovery counter |
| ReplicaAdmission.RebalanceKeepsQuota | helix-core/src/main/java/org/apache/helix/controller/stages/IntermediateStateCalcStage.java:498-532 | both load admissions (corrected and as written) and recovery admission keep a ledger within every quota |
| ReplicaAdmission.LoadBalanceThreshold | helix-core/src/main/java/org/apache/helix/controller/stages/IntermediateStateCalcStage.java:383-394 | the threshold is the error-or-recovery threshold when it is set (not -1), else the error threshold when it is set (not 0), else 1 |
| ReplicaAdmission.OnlyDownwardLoadBalance | helix-core/src/main/java/org/apache/helix/controller/stages/IntermediateStateCalcStage.java:383-399 | downward-only is on exactly when the partitions in error (plus those in recovery, if the error-or-recovery threshold is set) exceed the threshold |
| ReplicaAdmission.OnlyDownwardIsMonotone | helix-core/src/main/java/org/apache/helix/controller/stages/IntermediateStateCalcStage.java:396-399 | more partitions in error never switch downward-only off |
| ReplicaAdmission.RecoveryIgnoredWithoutNewThreshold | helix-core/src/main/java/org/apache/helix/controller/stages/IntermediateStateCalcStage.java:387-394 | when the error-or-recovery threshold is unset, recovery partitions do not affect the decision |
| ResourcePrioritizer.ParseInt | helix-core/src/main/java/org/apache/helix/controller/stages/IntermediateStateCalcStage.java:768-775 | any value accepted lies in the 32-bit range and comes from a non-empty text; the lemmas below say which texts are accepted and rejected |
| ResourcePrioritizer.ParseFormatRoundTrip | helix-core/src/main/java/org/apache/helix/controller/stages/IntermediateStateCalcStage.java:768-775 | every 32-bit integer written in decimal parses back to itself |
| ResourcePrioritizer.OutOfRangeRejected | helix-core/src/main/java/org/apache/helix/controller/stages/IntermediateStateCalcStage.java:768-775 | a decimal number outside the 32-bit range is rejected |
| ResourcePrioritizer.ParseIntRejectsNonDigit | helix-core/src/main/java/org/apache/helix/controller/stages/IntermediateStateCalcStage.java:768-775 | a text with a character other than a digit anywhere but as a leading sign is unparsable |
| ResourcePrioritizer.ParseIntNeedsADigit | helix-core/src/main/java/org/apache/helix/controller/stages/IntermediateStateCalcStage.java:768-775 | a text with no digit, such as an empty text or a lone sign, is unparsable |
| ResourcePrioritizer.ParseIntSound | helix-core/src/main/java/org/apache/helix/controller/stages/IntermediateStateCalcStage.java:768-775 | a text that parses is a spelling of its value: without a `+`, leading zeros and the sign of zero it is exactly the decimal text of the value |
| ResourcePrioritizer.ParseIntNonCanonical | helix-core/src/main/java/org/apache/helix/controller/stages/IntermediateStateCalcStage.java:768-775 | a leading `+` or extra leading zeros do not change what a text parses to |
| ResourcePrioritizer.SetPriority | helix-core/src/main/java/org/apache/helix/controller/stages/IntermediateStateCalcStage.java:768-775 | a parsable value replaces the priority and an unparsable one leaves it unchanged |
| ResourcePrioritizer.ResolvePriority | helix-core/src/main/java/org/apache/helix/controller/stages/IntermediateStateCalcStage.java:126-141 | the resource config's value is used when present, else the ideal state's, else the lowest priority |
| ResourcePrioritizer.SortByPriority | helix-core/src/main/java/org/apache/helix/controller/stages/IntermediateStateCalcStage.java:143 | the sort is a permutation of its input |
| ResourcePrioritizer.SortSorted | helix-core/src/main/java/org/apache/helix/controller/stages/IntermediateStateCalcStage.java:778-783 | the result is in descending priority order |
| ResourcePrioritizer.SortStable | helix-core/src/main/java/org/apache/helix/controller/stages/IntermediateStateCalcStage.java:143 | resources of equal priority keep their original relative order |
| ResourcePrioritizer.StableSortUnique | helix-core/src/main/java/org/apache/helix/controller/stages/IntermediateStateCalcStage.java:143 | any two stable descending sorts of the same list are equal, so the order is fully determined |
| ResourcePrioritizer.Prioritize | helix-core/src/main/java/org/apache/helix/controller/stages/IntermediateStateCalcStage.java:120-145 | one entry per listed resource; without a priority field the resources keep their listed order at the lowest priority |
| ResourcePrioritizer.PrioritizeOrder | helix-core/src/main/java/org/apache/helix/controller/stages/IntermediateStateCalcStage.java:126-144 | with a priority field the order is descending, is a permutation of the resolved priorities, and keeps the listed order within each priority |
| ResourcePrioritizer.PrioritizeIsTheStableSort | helix-core/src/main/java/org/apache/helix/controller/stages/IntermediateStateCalcStage.java:143 | the prioritised order is the stable descending sort of the resolved priorities |
| ResourcePrioritizer.PrioritizeKeepsNames | helix-core/src/main/java/org/apache/helix/controller/stages/IntermediateStateCalcStage.java:120-145 | a resource appears in the prioritised order exactly when it was listed |
| CapacityGuard.CountPartition | helix-core/src/main/java/org/apache/helix/controller/stages/IntermediateStateCalcStage.java:227-275 | reports an overflowing instance only if it holds a counted replica and its load exceeds the maximum |
| CapacityGuard.CountResource | helix-core/src/main/java/org/apache/helix/controller/stages/IntermediateStateCalcStage.java:224-276 | the same, over all partitions of one resource |
| CapacityGuard.ValidateMaxPartitionsPerInstance | helix-core/src/main/java/org/apache/helix/controller/stages/IntermediateStateCalcStage.java:210-279 | passes exactly when no instance holds more non-DROPPED replicas of non-task resources than the maximum; a reported instance is over the maximum on a replica it really holds; maintenance is requested exactly when a manager is present and maintenance is not already on |
| CapacityGuard.ExceededWitness | helix-core/src/main/java/org/apache/helix/controller/stages/IntermediateStateCalcStage.java:240-275 | an overflow verdict names an instance and resource that really hold a counted replica |
| PriorityComparators.CompareStrings | helix-core/src/main/java/org/apache/helix/controller/stages/IntermediateStateCalcStage.java:810 | zero exactly for equal names, and its sign orders the names lexicographically |
| PriorityComparators.CompareStringsAntisymmetric | helix-core/src/main/java/org/apache/helix/controller/stages/IntermediateStateCalcStage.java:810 | swapping the names flips the sign |
| PriorityComparators.CompareStringsTransitive | helix-core/src/main/java/org/apache/helix/controller/stages/IntermediateStateCalcStage.java:810 | the name order is transitive |
| PriorityComparators.PreferenceIndex | helix-core/src/main/java/org/apache/helix/controller/stages/IntermediateStateCalcStage.java:789-794 | the index map exists exactly when the list has no repeats, and maps every entry to its position |
| PriorityComparators.PreferenceIndexInverse | helix-core/src/main/java/org/apache/helix/controller/stages/IntermediateStateCalcStage.java:789-794 | the index of an entry picks that entry back out of the list |
| PriorityComparators.MessageCompare | helix-core/src/main/java/org/apache/helix/controller/stages/IntermediateStateCalcStage.java:797-811 | same target state and both ranked: the preference order; different target states: the state priority order, undefined when a state has no priority; otherwise the instance names |
| PriorityComparators.MessageCompareAntisymmetric | helix-core/src/main/java/org/apache/helix/controller/stages/IntermediateStateCalcStage.java:797-811 | swapping the two messages flips the sign of the comparison |
| PriorityComparators.MessageCompareIsKeyOrder | helix-core/src/main/java/org/apache/helix/controller/stages/IntermediateStateCalcStage.java:803-808 | when every instance is ranked, every target state has a priority, and distinct target states have distinct priorities, the comparison is a lexicographic order on (state priority, preference index) |
| PriorityComparators.MessageCompareTransitiveWhenRanked | helix-core/src/main/java/org/apache/helix/controller/stages/IntermediateStateCalcStage.java:797-811 | under the same condition the comparison is transitive |
| PriorityComparators.MessageCompareCycle | helix-core/src/main/java/org/apache/helix/controller/stages/IntermediateStateCalcStage.java:803-810 | with an instance missing from the preference list, three messages form a cycle, so the comparison is not transitive in general |
| PriorityComparators.MissTopStateIndex | helix-core/src/main/java/org/apache/helix/controller/stages/IntermediateStateCalcStage.java:849-856 | 1 exactly when some current replica is in the top state, else 0 |
| PriorityComparators.CurrentActiveReplicas | helix-core/src/main/java/org/apache/helix/controller/stages/IntermediateStateCalcStage.java:858-879 | the number of current replicas whose state is matched by a best-possible replica, counting states with multiplicity |
| PriorityComparators.ActiveReplicasBounds | helix-core/src/main/java/org/apache/helix/controller/stages/IntermediateStateCalcStage.java:858-879 | that number is at most the size of either map, and equals the current size when the two maps agree |
| PriorityComparators.IdealStateMatched | helix-core/src/main/java/org/apache/helix/controller/stages/IntermediateStateCalcStage.java:881-893 | the number of instances whose current state equals the best-possible state |
| PriorityComparators.MatchedAllIffEqual | helix-core/src/main/java/org/apache/helix/controller/stages/IntermediateStateCalcStage.java:881-893 | every best-possible replica is matched, with the same instances, exactly when the two maps are equal |
| PriorityComparators.ComparePartitions | helix-core/src/main/java/org/apache/helix/controller/stages/IntermediateStateCalcStage.java:829-847 | compares (miss-top-state index, active replicas, matched replicas) lexicographically |
| PriorityComparators.PartitionKeyOrder | helix-core/src/main/java/org/apache/helix/controller/stages/IntermediateStateCalcStage.java:829-847 | the partition comparison is antisymmetric and transitive, and zero exactly on equal keys |
| IntermediateStage.ClassifyPartitions | helix-core/src/main/java/org/apache/helix/controller/stages/IntermediateStateCalcStage.java:313-352 | each partition lands in recovery, load balance or settled according to its rebalance type, never in two of them; partitions holding an ERROR replica are noted |
| IntermediateStage.ComputeIntermediatePartitionState | helix-core/src/main/java/org/apache/helix/controller/stages/IntermediateStateCalcStage.java:293-399 | an unthrottled resource returns its best-possible map and the ledger unchanged. Otherwise it fails exactly when a preference list is unusable. On success the recovery and load sets are exactly those partitions, and the ledger gains exactly the resource's pending charges. The intermediate map holds exactly the settled partitions and those with pending messages; each holds exactly the best-possible replicas (when settled) and the pending targets, with those states. Downward-only follows the thresholds |
| IntermediateStage.ComputeNext | helix-core/src/main/java/org/apache/helix/controller/stages/IntermediateStateCalcStage.java:153-185 | one resource of the loop fails exactly when it fails on its own; otherwise the computed prefix, its ledger and its outputs extend by that resource (or stay put when it has no best-possible map) |
| IntermediateStage.ComputeInOrder | helix-core/src/main/java/org/apache/helix/controller/stages/IntermediateStateCalcStage.java:150-186 | fails exactly when some listed resource with a view fails. Otherwise it computes every such resource as above from the ledger carried along, and the ledger gains exactly the charges of the throttled resources |
| IntermediateStage.Compute | helix-core/src/main/java/org/apache/helix/controller/stages/IntermediateStateCalcStage.java:108-196 | starts from a fresh ledger; the output holds exactly the listed resources that have a best-possible map, each computed as above, and the ledger holds exactly the charges of the throttled resources, taken in priority order |
| IntermediateStage.Process | helix-core/src/main/java/org/apache/helix/controller/stages/IntermediateStateCalcStage.java:66-95 | fails exactly when some resource fails. On success the output is exactly the placement and ledger the computation in priority order produces. The guard runs on that output only when the maximum is positive, and then passes exactly when every instance is within it |

## Left out

- The calls at :371-374 and :401-404 do not compile as written. The per-message signatures
  (:498-501, :520-524) take a partition as their second argument and a message as their fourth,
  but the calls pass other stage objects in those places. Both methods return void, yet each call
  assigns its result to a set of partitions. The per-resource model stops once the downward-only
  decision is made. The per-message recovery and load rebalance are modelled on their own.
- `handlePendingStateTransitionsForThrottling` (:903-920) is never called.
- The message sort inside the charger is not modelled. Instead, the charger is proved
  independent of the message order, and the comparator is modelled separately.
- ChargePendingTransition: does not fail when the pending-message sort (:467-468) throws. That
  happens when two pending messages of one partition have different target states and one of
  those states has no priority (:808). The charges and writes do not depend on the message order.
- ComputeIntermediatePartitionState: assumes the resource's state model definition exists. When
  the lookup at :308 finds none, the source throws a NullPointerException in getRebalanceType
  (:620-621) for a resource with at least one partition. The model does not represent that failure.
- Compute and Process assume well-formed inputs (`WellFormedView`): each resource lists a
  partition once, and each pending message is filed under the instance it targets, as the
  current-state output builds it. The charger's order independence relies on the second part.
- MessageCompare: a target state missing from the state priority map makes the source throw a
  NullPointerException. The model returns None instead.
- CompareStrings: returns only the sign of Java's `String.compareTo`, and compares characters
  as plain values. The UTF-16 order of supplementary characters is not modelled.
- Collections.sort may throw when a comparator breaks its contract. That is not modelled.
- The substitution of an empty ideal state when none exists (:165-173) is not modelled. The
  view always carries an ideal state.
- ComputeInOrder: no modelled operation throws `HelixException`, so the list of failed
  resources (:175-185) is always empty and is not kept.
- Missing event attributes throw a `StageException` (:76-82). This is left out. The inputs are
  parameters.
- Logging, `logPartitionMapState` and the `ClusterStatusMonitor` calls are not modelled.
- `HelixManager`: the manager's presence and the maintenance signal are boolean parameters.
  Entering maintenance mode is reported in the verdict rather than performed.
- `StateTransitionThrottleController` is not part of this model. It is modelled as an
  abstract ledger of counters and limits.
- `StateModelDefinition.getStateCountMap` and `IdealState.getReplicaCount` are not part of
  this model. They are given as functions of the inputs.
- ParseInt: only ASCII digits are accepted. Java also accepts other Unicode decimal digits.
- CurrentActiveReplicas, IdealStateMatched, ComparePartitions: require that a partition with a
  current map also has a best-possible map. Without one the source throws a
  NullPointerException.

## Findings

| source | as written | input that shows it | evidently intended | confidence | as-written member | corrected member |
|---|---|---|---|---|---|---|
| helix-core/src/main/java/org/apache/helix/controller/stages/IntermediateStateCalcStage.java:432-445 | `isLoadBalanceDownwardStateTransition` returns true when the source state's priority value is larger than the target's. A lower value is the higher priority (:437), so it accepts upward transitions (ReplicaAdmission.DownwardAsWrittenPromotes, ReplicaAdmission.PromotionCountsAsDownward) | state model {MASTER: 0, SLAVE: 1}, a SLAVE to MASTER load-balance message, downward-only mode on, load quota used up: it is admitted uncharged (ReplicaAdmission.AsWrittenAdmitsPromotion) | accept only transitions to a strictly less important state, as the name and javadoc at :424, the "not strictly downward by default" remark at :438-439 and the downward-only rule at :397 say, given that a lower value is the higher priority (:437), so promotions wait for quota (ReplicaAdmission.IsDownwardStateTransition, ReplicaAdmission.DownwardOnlyGatesPromotions) | medium; not executed | ReplicaAdmission.LoadRebalanceAsWritten | ReplicaAdmission.LoadRebalance |
