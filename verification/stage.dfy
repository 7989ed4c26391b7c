/**
  The stage itself. For every resource, in priority order, it classifies the
  partitions (recovery, load balance, or nothing to do, noting those holding
  an ERROR replica), copies the best-possible map of every partition with
  nothing to do, charges the pending transitions, and decides whether only
  downward load balance is allowed. Resources not throttled (throttling off,
  or not in full-auto mode) take the best-possible placement unchanged.
  After all resources, the capacity guard checks the result when a maximum
  is configured.
 */
module IntermediateStage {
  import opened HelixTypes
  import opened ThrottleLedger
  import opened RebalanceClassifier
  import opened PendingCharger
  import opened ReplicaAdmission
  import opened ResourcePrioritizer
  import opened CapacityGuard

  /** Throttling applies to a resource only when enabled and in full-auto mode. */
  predicate Throttled(l: Ledger, v: ResourceView)
  {
    l.enabled && v.idealState.rebalanceMode == FullAuto
  }

  /** The partition's current placement differs from its best-possible placement. */
  predicate Unsettled(v: ResourceView, p: Partition)
  {
    CurrentStateOf(v, p) != BestPossibleOf(v, p)
  }

  /** Some current replica of the partition is in the ERROR state. */
  predicate HoldsError(v: ResourceView, p: Partition)
  {
    ERROR in CurrentStateOf(v, p).Values
  }

  /** The classifier's answer for a partition, in closed form. */
  ghost function RebalanceOf(v: ResourceView, enabledLive: set<Instance>, p: Partition): RebalanceType
  {
    if NeedsRecovery(CurrentStateOf(v, p), PreferenceListOf(v, p), v.stateModel, v.idealState,
                     enabledLive, DisabledOf(v, p))
    then RecoveryBalance
    else if CurrentStateOf(v, p) == BestPossibleOf(v, p) then NoRebalance
    else LoadBalance
  }

  /**
    What the classification loop gathers: the partitions needing recovery,
    needing load balance, holding an ERROR replica, and the best-possible
    copies of the partitions that need nothing.
   */
  datatype Classification = Classification(
    needRecovery: set<Partition>,
    needLoad: set<Partition>,
    withError: set<Partition>,
    settled: PartitionStateMap)

  /** Classifies one partition given the classifier's answer `t`. */
  function ClassifyOne(c: Classification, p: Partition, t: RebalanceType, current: StateMap, best: StateMap)
    : Classification
  {
    var c1 := if ERROR in current.Values then c.(withError := c.withError + {p}) else c;
    if t == RecoveryBalance && current != best then c1.(needRecovery := c1.needRecovery + {p})
    else if t == LoadBalance then c1.(needLoad := c1.needLoad + {p})
    else c1.(settled := c1.settled[p := best])
  }

  /** The classification of the partitions `done`, in closed form. */
  ghost predicate ClassifiedAs(v: ResourceView, enabledLive: set<Instance>, done: seq<Partition>, c: Classification)
  {
    && SortedAs(v, enabledLive, done, c)
    && ErrorsAs(v, done, c)
    && SettledAs(v, done, c)
  }

  /** The partitions of `done` needing recovery, and those needing load balance. */
  ghost predicate SortedAs(v: ResourceView, enabledLive: set<Instance>, done: seq<Partition>, c: Classification)
  {
    && (forall p :: p in c.needRecovery <==> p in done && RebalanceOf(v, enabledLive, p) == RecoveryBalance
                                              && Unsettled(v, p))
    && (forall p :: p in c.needLoad <==> p in done && RebalanceOf(v, enabledLive, p) == LoadBalance)
  }

  /** The partitions of `done` holding an ERROR replica. */
  ghost predicate ErrorsAs(v: ResourceView, done: seq<Partition>, c: Classification)
  {
    forall p :: p in c.withError <==> p in done && HoldsError(v, p)
  }

  /** The partitions of `done` needing nothing, each with a copy of its best-possible map. */
  ghost predicate SettledAs(v: ResourceView, done: seq<Partition>, c: Classification)
  {
    && (forall p :: p in c.settled <==> p in done && !Unsettled(v, p))
    && (forall p :: p in c.settled ==> c.settled[p] == BestPossibleOf(v, p))
  }

  /** Classifying one more partition extends the closed form by that partition. */
  lemma ClassifyStep(v: ResourceView, enabledLive: set<Instance>, k: nat, c: Classification, t: RebalanceType)
    requires k < |v.partitions|
    requires t == RebalanceOf(v, enabledLive, v.partitions[k])
    requires ClassifiedAs(v, enabledLive, v.partitions[..k], c)
    ensures var p := v.partitions[k];
            ClassifiedAs(v, enabledLive, v.partitions[..k + 1],
                         ClassifyOne(c, p, t, CurrentStateOf(v, p), BestPossibleOf(v, p)))
  {
    var p := v.partitions[k];
    var next := ClassifyOne(c, p, t, CurrentStateOf(v, p), BestPossibleOf(v, p));
    assert v.partitions[..k + 1] == v.partitions[..k] + [p];
    SortStep(v, enabledLive, v.partitions[..k], c, p, t, next);
    ErrorStep(v, v.partitions[..k], c, p, t, next);
    SettleStep(v, v.partitions[..k], c, p, t, next);
  }

  lemma SortStep(v: ResourceView, enabledLive: set<Instance>, done: seq<Partition>, c: Classification,
                 p: Partition, t: RebalanceType, next: Classification)
    requires t == RebalanceOf(v, enabledLive, p)
    requires SortedAs(v, enabledLive, done, c)
    requires next == ClassifyOne(c, p, t, CurrentStateOf(v, p), BestPossibleOf(v, p))
    ensures SortedAs(v, enabledLive, done + [p], next)
  {
  }

  lemma ErrorStep(v: ResourceView, done: seq<Partition>, c: Classification,
                  p: Partition, t: RebalanceType, next: Classification)
    requires ErrorsAs(v, done, c)
    requires next == ClassifyOne(c, p, t, CurrentStateOf(v, p), BestPossibleOf(v, p))
    ensures ErrorsAs(v, done + [p], next)
  {
  }

  lemma SettleStep(v: ResourceView, done: seq<Partition>, c: Classification,
                   p: Partition, t: RebalanceType, next: Classification)
    requires t == LoadBalance ==> Unsettled(v, p)
    requires t == NoRebalance ==> !Unsettled(v, p)
    requires SettledAs(v, done, c)
    requires next == ClassifyOne(c, p, t, CurrentStateOf(v, p), BestPossibleOf(v, p))
    ensures SettledAs(v, done + [p], next)
  {
  }

  /**
    The classification loop. Whatever the classifier's internals, a
    partition is left with a copy of its best-possible map exactly when its
    current map already is that map; every other partition needs either
    recovery or load balance, never both.
   */
  method ClassifyPartitions(v: ResourceView, enabledLive: set<Instance>) returns (c: Classification)
    ensures ClassifiedAs(v, enabledLive, v.partitions, c)
    ensures c.needRecovery !! c.needLoad
    ensures forall p :: p in v.partitions ==> (p in c.settled <==> p !in c.needRecovery && p !in c.needLoad)
  {
    c := Classification({}, {}, {}, map[]);
    var k := 0;
    while k < |v.partitions|
      invariant 0 <= k <= |v.partitions|
      invariant ClassifiedAs(v, enabledLive, v.partitions[..k], c)
    {
      var p := v.partitions[k];
      var current := CurrentStateOf(v, p);
      var best := BestPossibleOf(v, p);
      var t := GetRebalanceType(best, PreferenceListOf(v, p), v.stateModel, current, v.idealState,
                                enabledLive, DisabledOf(v, p));
      assert t == RebalanceOf(v, enabledLive, p);
      ClassifyStep(v, enabledLive, k, c, t);
      c := ClassifyOne(c, p, t, current, best);
      k := k + 1;
    }
    assert v.partitions[..k] == v.partitions;
  }

  /** Partitions holding an ERROR replica. */
  function ErrorPartitions(v: ResourceView): set<Partition>
  {
    set p | p in v.partitions && HoldsError(v, p)
  }

  /** Partitions needing recovery. */
  ghost function RecoveryPartitions(v: ResourceView, enabledLive: set<Instance>): set<Partition>
  {
    set p | p in v.partitions && RebalanceOf(v, enabledLive, p) == RecoveryBalance && Unsettled(v, p)
  }

  /** Partitions needing load balance. */
  ghost function LoadPartitions(v: ResourceView, enabledLive: set<Instance>): set<Partition>
  {
    set p | p in v.partitions && RebalanceOf(v, enabledLive, p) == LoadBalance
  }

  /** A resource's result in one tick, before the per-replica admission steps. */
  datatype ResourceOutcome = ResourceOutcome(
    ledger: Ledger,
    intermediate: PartitionStateMap,
    needRecovery: set<Partition>,
    needLoad: set<Partition>,
    onlyDownward: bool)

  /**
    The intermediate placement agrees with every pending transition's target
    state, and with the best-possible state of every replica of a partition
    needing nothing that no pending transition targets.
   */
  ghost predicate IntermediateAgrees(v: ResourceView, psm: PartitionStateMap)
  {
    && (forall p, i :: p in v.partitions && i in PendingOf(v, p)
          ==> p in psm && i in psm[p] && psm[p][i] == PendingOf(v, p)[i].toState)
    && (forall p, i :: p in v.partitions && !Unsettled(v, p) && i in BestPossibleOf(v, p) && i !in PendingOf(v, p)
          ==> p in psm && i in psm[p] && psm[p][i] == BestPossibleOf(v, p)[i])
  }

  /**
    Nothing else is in the intermediate placement: it holds exactly the
    partitions needing nothing and those with pending messages, and each
    such partition exactly the best-possible replicas (when it needs
    nothing) and the targets of its pending messages.
   */
  ghost predicate IntermediateShaped(v: ResourceView, psm: PartitionStateMap)
  {
    && (forall p :: p in psm <==> p in v.partitions && (!Unsettled(v, p) || PendingOf(v, p) != map[]))
    && (forall p, i :: p in psm ==>
          (i in psm[p] <==> (!Unsettled(v, p) && i in BestPossibleOf(v, p)) || i in PendingOf(v, p)))
  }

  /** What the charger promises about the copies of the settled partitions, read in the stage's terms. */
  lemma ShapedAfterCharging(v: ResourceView, settled: PartitionStateMap, psm: PartitionStateMap)
    requires forall p :: p in settled <==> p in v.partitions && !Unsettled(v, p)
    requires forall p :: p in settled ==> settled[p] == BestPossibleOf(v, p)
    requires psm.Keys == settled.Keys + Touched(v, |v.partitions|)
    requires RowsShaped(settled, v, v.partitions, psm)
    ensures IntermediateShaped(v, psm)
  {
    assert v.partitions[..|v.partitions|] == v.partitions;
    forall p, i | p in psm
      ensures i in psm[p] <==> (!Unsettled(v, p) && i in BestPossibleOf(v, p)) || i in PendingOf(v, p)
    {
      assert p in v.partitions;
    }
  }

  /** The ledger only gained charges; its switch and limits are untouched. */
  predicate LedgerGrew(before: Ledger, after: Ledger)
  {
    after.enabled == before.enabled && after.limits == before.limits && before.charged <= after.charged
  }

  /** Charging a throttled resource stops the tick: some partition's preference list is missing or repeats. */
  predicate ResourceFails(l: Ledger, v: ResourceView)
  {
    Throttled(l, v) && exists p :: p in v.partitions && !PreferenceListUsable(v, p)
  }

  /**
    `computeIntermediatePartitionState`, up to the downward-only decision.
    A resource not throttled keeps its best-possible placement and the
    ledger. Otherwise the partitions are classified, the pending transitions
    are charged on top of the copies of the partitions needing nothing, and
    only downward load balance is allowed when the error (or error and
    recovery) partitions exceed the configured threshold.
   */
  method ComputeIntermediatePartitionState(l: Ledger, v: ResourceView, enabledLive: set<Instance>,
                                           errorOrRecoveryThreshold: int, errorThreshold: int)
    returns (r: Result<ResourceOutcome, StageError>)
    requires WellFormedView(v)
    ensures !Throttled(l, v) ==> r == Success(ResourceOutcome(l, v.bestPossible, {}, {}, false))
    ensures r.Failure? <==> ResourceFails(l, v)
    ensures r.Success? ==> LedgerGrew(l, r.value.ledger)
    ensures r.Success? && Throttled(l, v) ==>
              && r.value.needRecovery == RecoveryPartitions(v, enabledLive)
              && r.value.needLoad == LoadPartitions(v, enabledLive)
              && r.value.ledger == l.(charged := l.charged + ResourcePendingCharges(v, enabledLive))
              && IntermediateAgrees(v, r.value.intermediate)
              && IntermediateShaped(v, r.value.intermediate)
              && r.value.onlyDownward == OnlyDownwardLoadBalance(|ErrorPartitions(v)|,
                                                                 |RecoveryPartitions(v, enabledLive)|,
                                                                 errorOrRecoveryThreshold, errorThreshold)
  {
    if !Throttled(l, v) {
      return Success(ResourceOutcome(l, v.bestPossible, {}, {}, false));
    }
    var c := ClassifyPartitions(v, enabledLive);
    var charged := ChargePendingTransition(l, c.settled, v, enabledLive);
    if charged.Failure? {
      return Failure(charged.error);
    }
    ShapedAfterCharging(v, c.settled, charged.value.intermediate);
    assert c.withError == ErrorPartitions(v);
    assert c.needRecovery == RecoveryPartitions(v, enabledLive);
    assert c.needLoad == LoadPartitions(v, enabledLive);
    var onlyDownward := OnlyDownwardLoadBalance(|c.withError|, |c.needRecovery|,
                                                errorOrRecoveryThreshold, errorThreshold);
    r := Success(ResourceOutcome(charged.value.ledger, charged.value.intermediate, c.needRecovery, c.needLoad,
                                 onlyDownward));
  }

  /** The stage's output: the intermediate placement of each resource, and the ledger. */
  datatype StageOutput = StageOutput(ledger: Ledger, states: map<ResourceName, PartitionStateMap>)

  /** A resource's intermediate placement is what its computation promises. */
  ghost predicate ResourceComputed(l: Ledger, v: ResourceView, psm: PartitionStateMap)
  {
    if Throttled(l, v) then IntermediateAgrees(v, psm) && IntermediateShaped(v, psm) else psm == v.bestPossible
  }

  /** The charges of the resources `done` with a view, in that order; a resource not throttled charges nothing. */
  ghost function ChargesInOrder(l: Ledger, views: map<ResourceName, ResourceView>, enabledLive: set<Instance>,
                                done: seq<ResourceName>): multiset<Counter>
    decreases |done|
  {
    if done == [] then multiset{}
    else
      var n := done[|done| - 1];
      ChargesInOrder(l, views, enabledLive, done[..|done| - 1])
        + (if n in views && Throttled(l, views[n]) then ResourcePendingCharges(views[n], enabledLive)
           else multiset{})
  }

  /** The resources of `done` with a best-possible placement are computed, and none of them failed. */
  ghost predicate ComputedUpTo(l: Ledger, views: map<ResourceName, ResourceView>, enabledLive: set<Instance>,
                               done: seq<ResourceName>, acc: StageOutput)
  {
    && acc.ledger == l.(charged := l.charged + ChargesInOrder(l, views, enabledLive, done))
    && (forall n :: n in acc.states <==> n in done && n in views)
    && AllComputed(l, views, acc.states)
    && (forall n :: n in done && n in views ==> !ResourceFails(l, views[n]))
  }

  /** Every resource in `states` has a view and was computed from it. */
  ghost predicate AllComputed(l: Ledger, views: map<ResourceName, ResourceView>,
                              states: map<ResourceName, PartitionStateMap>)
  {
    forall n :: n in states ==> n in views && ResourceComputed(l, views[n], states[n])
  }

  /** Recording one more computed resource keeps `AllComputed`. */
  lemma AllComputedStep(l: Ledger, views: map<ResourceName, ResourceView>,
                        states: map<ResourceName, PartitionStateMap>, n: ResourceName, psm: PartitionStateMap)
    requires AllComputed(l, views, states)
    requires n in views && ResourceComputed(l, views[n], psm)
    ensures AllComputed(l, views, states[n := psm])
  {
    forall m | m in states[n := psm]
      ensures m in views && ResourceComputed(l, views[m], states[n := psm][m])
    {
      if m != n {
        assert states[n := psm][m] == states[m];
      }
    }
  }

  /** `ChargesInOrder` over one more resource adds that resource's charges. */
  lemma ChargesInOrderStep(l: Ledger, views: map<ResourceName, ResourceView>, enabledLive: set<Instance>,
                           order: seq<ResourceName>, k: nat)
    requires k < |order|
    ensures ChargesInOrder(l, views, enabledLive, order[..k + 1])
         == ChargesInOrder(l, views, enabledLive, order[..k])
            + (if order[k] in views && Throttled(l, views[order[k]])
               then ResourcePendingCharges(views[order[k]], enabledLive) else multiset{})
  {
    assert order[..k + 1][..k] == order[..k];
  }

  /** Adding one more computed resource extends `ComputedUpTo`. */
  lemma ComputeStep(l: Ledger, views: map<ResourceName, ResourceView>, enabledLive: set<Instance>,
                    order: seq<ResourceName>, k: nat, acc: StageOutput, next: StageOutput)
    requires k < |order|
    requires ComputedUpTo(l, views, enabledLive, order[..k], acc)
    requires order[k] !in views ==> next == acc
    requires order[k] in views ==> && !ResourceFails(l, views[order[k]])
                                   && next.ledger == acc.ledger.(charged := acc.ledger.charged
                                        + if Throttled(l, views[order[k]])
                                          then ResourcePendingCharges(views[order[k]], enabledLive)
                                          else multiset{})
                                   && order[k] in next.states
                                   && next.states == acc.states[order[k] := next.states[order[k]]]
                                   && ResourceComputed(l, views[order[k]], next.states[order[k]])
    ensures ComputedUpTo(l, views, enabledLive, order[..k + 1], next)
  {
    ChargesInOrderStep(l, views, enabledLive, order, k);
    PrefixMembersStep(order, k);
    if order[k] in views {
      AllComputedStep(l, views, acc.states, order[k], next.states[order[k]]);
    }
  }

  /** A resource is among the first `k + 1` exactly when it is among the first `k` or at `k`. */
  lemma PrefixMembersStep(order: seq<ResourceName>, k: nat)
    requires k < |order|
    ensures forall n :: n in order[..k + 1] <==> n in order[..k] || n == order[k]
  {
    assert order[..k + 1] == order[..k] + [order[k]];
  }

  /**
    One step of the loop over resources: the resource at position `k` is
    computed from the ledger carried so far, or skipped when it has no
    best-possible placement.
   */
  method ComputeNext(l: Ledger, order: seq<ResourceName>, k: nat, views: map<ResourceName, ResourceView>,
                     enabledLive: set<Instance>, errorOrRecoveryThreshold: int, errorThreshold: int,
                     acc: StageOutput)
    returns (r: Result<StageOutput, StageError>)
    requires k < |order|
    requires forall n :: n in views ==> WellFormedView(views[n])
    requires ComputedUpTo(l, views, enabledLive, order[..k], acc)
    ensures r.Failure? <==> order[k] in views && ResourceFails(l, views[order[k]])
    ensures r.Success? ==> ComputedUpTo(l, views, enabledLive, order[..k + 1], r.value)
  {
    var name := order[k];
    if name !in views {
      ComputeStep(l, views, enabledLive, order, k, acc, acc);
      return Success(acc);
    }
    var outcome := ComputeIntermediatePartitionState(acc.ledger, views[name], enabledLive,
                                                     errorOrRecoveryThreshold, errorThreshold);
    assert Throttled(acc.ledger, views[name]) == Throttled(l, views[name]);
    if outcome.Failure? {
      return Failure(outcome.error);
    }
    var next := StageOutput(outcome.value.ledger, acc.states[name := outcome.value.intermediate]);
    ComputeStep(l, views, enabledLive, order, k, acc, next);
    return Success(next);
  }

  /**
    The loop over resources in the given order. A resource without a
    best-possible placement is skipped; the ledger is threaded from one
    resource to the next; the first resource whose charging fails stops the
    tick. Whatever the order, the tick fails exactly when some resource
    fails on its own.
   */
  method ComputeInOrder(l: Ledger, order: seq<ResourceName>, views: map<ResourceName, ResourceView>,
                        enabledLive: set<Instance>, errorOrRecoveryThreshold: int, errorThreshold: int)
    returns (r: Result<StageOutput, StageError>)
    requires forall n :: n in views ==> WellFormedView(views[n])
    ensures r.Failure? <==> exists n :: n in order && n in views && ResourceFails(l, views[n])
    ensures r.Success? ==> ComputedUpTo(l, views, enabledLive, order, r.value)
  {
    var acc := StageOutput(l, map[]);
    var k := 0;
    while k < |order|
      invariant 0 <= k <= |order|
      invariant ComputedUpTo(l, views, enabledLive, order[..k], acc)
    {
      var step := ComputeNext(l, order, k, views, enabledLive, errorOrRecoveryThreshold, errorThreshold, acc);
      if step.Failure? {
        assert order[k] in order;
        return Failure(step.error);
      }
      acc := step.value;
      k := k + 1;
    }
    assert order[..k] == order;
    return Success(acc);
  }

  /** Cluster-level configuration the stage reads. */
  datatype StageConfig = StageConfig(
    priorityField: Option<string>,
    errorOrRecoveryThreshold: int,
    errorThreshold: int,
    maxPartitionsPerInstance: int)

  /**
    `compute`: prioritises the resources, then computes each in that order.
    Every resource with a best-possible placement gets one, and the tick
    fails exactly when some resource fails, whatever the priorities.
   */
  method Compute(throttleEnabled: bool, limits: map<Counter, nat>, names: seq<ResourceName>,
                 views: map<ResourceName, ResourceView>, enabledLive: set<Instance>, config: StageConfig,
                 resourceConfigs: map<ResourceName, Fields>, idealStateFields: map<ResourceName, Fields>)
    returns (r: Result<StageOutput, StageError>)
    requires forall n :: n in views ==> WellFormedView(views[n])
    ensures var l := FreshLedger(throttleEnabled, limits);
            r.Failure? <==> exists n :: n in names && n in views && ResourceFails(l, views[n])
    ensures var l := FreshLedger(throttleEnabled, limits);
            var order := OrderNames(Prioritize(names, config.priorityField, resourceConfigs, idealStateFields));
            r.Success? ==> r.value.ledger == l.(charged := ChargesInOrder(l, views, enabledLive, order))
    ensures r.Success? ==> forall n :: n in r.value.states <==> n in names && n in views
    ensures var l := FreshLedger(throttleEnabled, limits);
            r.Success? ==> forall n :: n in r.value.states ==> ResourceComputed(l, views[n], r.value.states[n])
  {
    var l := FreshLedger(throttleEnabled, limits);
    var order := OrderNames(Prioritize(names, config.priorityField, resourceConfigs, idealStateFields));
    forall n ensures n in order <==> n in names {
      PrioritizeKeepsNames(names, config.priorityField, resourceConfigs, idealStateFields, n);
    }
    r := ComputeInOrder(l, order, views, enabledLive, config.errorOrRecoveryThreshold, config.errorThreshold);
  }

  /** The outcome of one tick: the stage output and the capacity guard's verdict. */
  datatype Tick = Tick(output: StageOutput, verdict: Verdict)

  /**
    `process`: computes the intermediate placement, then runs the capacity
    guard on that placement only when a positive maximum is configured. The
    guard fails the tick exactly when some instance holds more counted
    replicas than the maximum.
   */
  method Process(throttleEnabled: bool, limits: map<Counter, nat>, names: seq<ResourceName>,
                 views: map<ResourceName, ResourceView>, enabledLive: set<Instance>, config: StageConfig,
                 resourceConfigs: map<ResourceName, Fields>, idealStateFields: map<ResourceName, Fields>,
                 idealStates: map<ResourceName, IdealState>, haveManager: bool, maintenanceActive: bool)
    returns (r: Result<Tick, StageError>)
    requires forall n :: n in views ==> WellFormedView(views[n])
    ensures var l := FreshLedger(throttleEnabled, limits);
            r.Failure? <==> exists n :: n in names && n in views && ResourceFails(l, views[n])
    ensures var l := FreshLedger(throttleEnabled, limits);
            var order := OrderNames(Prioritize(names, config.priorityField, resourceConfigs, idealStateFields));
            r.Success? ==> r.value.output.ledger == l.(charged := ChargesInOrder(l, views, enabledLive, order))
    ensures r.Success? ==> forall n :: n in r.value.output.states <==> n in names && n in views
    ensures var l := FreshLedger(throttleEnabled, limits);
            r.Success? ==> forall n :: n in r.value.output.states ==>
                             ResourceComputed(l, views[n], r.value.output.states[n])
    ensures r.Success? && config.maxPartitionsPerInstance <= 0 ==> r.value.verdict == Within
    ensures r.Success? && config.maxPartitionsPerInstance > 0 ==>
              (r.value.verdict.Within? <==>
                 WithinCapacity(r.value.output.states, idealStates, config.maxPartitionsPerInstance))
    ensures r.Success? && r.value.verdict.Exceeded? ==>
              (r.value.verdict.requestMaintenance <==> haveManager && !maintenanceActive)
  {
    var computed := Compute(throttleEnabled, limits, names, views, enabledLive, config, resourceConfigs,
                            idealStateFields);
    if computed.Failure? {
      return Failure(computed.error);
    }
    var verdict := Within;
    if config.maxPartitionsPerInstance > 0 {
      verdict := ValidateMaxPartitionsPerInstance(computed.value.states, idealStates,
                                                  config.maxPartitionsPerInstance, haveManager, maintenanceActive);
    }
    return Success(Tick(computed.value, verdict));
  }
}
