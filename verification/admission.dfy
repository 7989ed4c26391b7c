/**
  Per-replica admission: the quota check every newly generated transition
  passes through. A recovery transition always goes through the check. In
  the corrected admission, a load-balance transition skips it, uncharged,
  when only downward load balance is allowed and the transition moves to a
  less important state; the code as written skips it for a move to a more
  important state instead (`LoadRebalanceAsWritten`).
  Whether only downward load balance is allowed is decided per resource from
  the number of partitions with an error replica (and, depending on the
  configuration, of partitions needing recovery).
 */
module ReplicaAdmission {
  import opened HelixTypes
  import opened ThrottleLedger

  /**
    What admission threads from one transition to the next: the ledger, the
    intermediate placement, the transitions still to be dispatched per
    partition, and the transitions throttled so far.
   */
  datatype AdmissionState = AdmissionState(
    ledger: Ledger,
    intermediate: PartitionStateMap,
    dispatch: map<Partition, seq<Message>>,
    throttled: set<Message>)

  /** Admission fails only when a throttled transition's partition has no dispatch list to remove it from. */
  datatype AdmissionError = MissingDispatchList(partition: Partition)

  /** The position of the first occurrence of `x` in `s`. */
  function FirstIndex(s: seq<Message>, x: Message): (k: nat)
    requires x in s
    ensures k < |s| && s[k] == x
    ensures forall i :: 0 <= i < k ==> s[i] != x
    decreases |s|
  {
    if s[0] == x then 0 else 1 + FirstIndex(s[1..], x)
  }

  /**
    `s` without its first occurrence of `x`, the other messages in their
    order; unchanged when `x` does not occur.
   */
  function RemoveFirst(s: seq<Message>, x: Message): (r: seq<Message>)
    ensures x in s ==> multiset(r) == multiset(s) - multiset{x}
    ensures x in s ==> |r| == |s| - 1
    ensures x in s ==> forall i :: 0 <= i < |r| ==> r[i] == if i < FirstIndex(s, x) then s[i] else s[i + 1]
    ensures x !in s ==> r == s
  {
    if x in s then
      var k := FirstIndex(s, x);
      MultisetRemoveAt(s, k);
      s[..k] + s[k + 1..]
    else s
  }

  /**
    The transition must wait: the cluster or the resource quota of its
    category is used up, or its instance takes part in the partition and the
    cluster or the instance quota is used up.
   */
  predicate Blocked(l: Ledger, t: RebalanceType, resource: ResourceName, msg: Message, disabled: set<Instance>)
  {
    || ShouldThrottleForResource(l, t, resource)
    || (msg.tgtName !in disabled && ShouldThrottleForInstance(l, t, msg.tgtName))
  }

  /** Admits the transition: charges cluster and resource (not the instance) and writes its target state. */
  function Admit(st: AdmissionState, resource: ResourceName, partition: Partition, msg: Message, t: RebalanceType)
    : (r: AdmissionState)
    ensures r.ledger.enabled == st.ledger.enabled && r.ledger.limits == st.ledger.limits
    ensures r.ledger.charged == st.ledger.charged + multiset{(Cluster, t), (OfResource(resource), t)}
    ensures partition in r.intermediate && msg.tgtName in r.intermediate[partition]
    ensures r.intermediate[partition][msg.tgtName] == msg.toState
    ensures r.dispatch == st.dispatch && r.throttled == st.throttled
  {
    var charged := ChargeResource(ChargeCluster(st.ledger, t), t, resource);
    st.(ledger := charged, intermediate := SetState(st.intermediate, partition, msg.tgtName, msg.toState))
  }

  /** Throttles the transition: it leaves its partition's dispatch list and joins the throttled set. */
  function Throttle(st: AdmissionState, partition: Partition, msg: Message): (r: AdmissionState)
    requires partition in st.dispatch
    ensures r.ledger == st.ledger && r.intermediate == st.intermediate
    ensures r.dispatch.Keys == st.dispatch.Keys
    ensures multiset(r.dispatch[partition]) == multiset(st.dispatch[partition]) - multiset{msg}
    ensures forall q :: q in st.dispatch && q != partition ==> r.dispatch[q] == st.dispatch[q]
    ensures r.throttled == st.throttled + {msg}
  {
    st.(dispatch := st.dispatch[partition := RemoveFirst(st.dispatch[partition], msg)],
        throttled := st.throttled + {msg})
  }

  /**
    Admits or throttles one transition of category `t`: the cluster and
    resource quota is asked first; only when it has room, and only for an
    instance that takes part in the partition, is the instance quota asked.
   */
  function ThrottleStateTransitionsForReplica(st: AdmissionState, resource: ResourceName, partition: Partition,
                                              msg: Message, t: RebalanceType, disabled: set<Instance>)
    : (r: Result<AdmissionState, AdmissionError>)
    ensures r.Failure? <==> Blocked(st.ledger, t, resource, msg, disabled) && partition !in st.dispatch
    ensures r.Success? <==> !Blocked(st.ledger, t, resource, msg, disabled) || partition in st.dispatch
    ensures !Blocked(st.ledger, t, resource, msg, disabled) ==> r == Success(Admit(st, resource, partition, msg, t))
    ensures Blocked(st.ledger, t, resource, msg, disabled) && partition in st.dispatch
            ==> r == Success(Throttle(st, partition, msg))
  {
    var hasReachedThrottlingLimit :=
      if ShouldThrottleForResource(st.ledger, t, resource) then true
      else if msg.tgtName !in disabled then ShouldThrottleForInstance(st.ledger, t, msg.tgtName)
      else false;
    if !hasReachedThrottlingLimit then Success(Admit(st, resource, partition, msg, t))
    else if partition !in st.dispatch then Failure(MissingDispatchList(partition))
    else Success(Throttle(st, partition, msg))
  }

  /** A used-up cluster or resource quota throttles the transition whatever its instance's quota. */
  lemma ResourceQuotaDecidesFirst(st: AdmissionState, resource: ResourceName, partition: Partition,
                                  msg: Message, t: RebalanceType, disabled: set<Instance>)
    requires partition in st.dispatch
    requires ShouldThrottleForResource(st.ledger, t, resource)
    ensures var r := ThrottleStateTransitionsForReplica(st, resource, partition, msg, t, disabled);
            r.Success? && r.value.ledger == st.ledger && msg in r.value.throttled
  {
  }

  /**
    A transition to an instance disabled for the partition is judged on the
    cluster and resource quotas alone: the instance quota is never consulted.
   */
  lemma DisabledSkipsInstanceQuota(st: AdmissionState, resource: ResourceName, partition: Partition,
                                   msg: Message, t: RebalanceType, disabled: set<Instance>)
    requires msg.tgtName in disabled
    ensures Blocked(st.ledger, t, resource, msg, disabled) <==> ShouldThrottleForResource(st.ledger, t, resource)
  {
  }

  /** With throttling disabled every transition is admitted. */
  lemma DisabledThrottleAdmitsAll(st: AdmissionState, resource: ResourceName, partition: Partition,
                                  msg: Message, t: RebalanceType, disabled: set<Instance>)
    requires !st.ledger.enabled
    ensures var r := ThrottleStateTransitionsForReplica(st, resource, partition, msg, t, disabled);
            r.Success? && r.value.throttled == st.throttled
            && partition in r.value.intermediate && msg.tgtName in r.value.intermediate[partition]
            && r.value.intermediate[partition][msg.tgtName] == msg.toState
  {
    assert !QuotaFull(st.ledger, Cluster, t);
    assert !Blocked(st.ledger, t, resource, msg, disabled);
  }

  /**
    Admission never pushes a counter past its limit: any counter over its
    limit afterwards was just as far over it before (the pending charger
    may have put it there).
   */
  lemma AdmissionNeverOvercharges(st: AdmissionState, resource: ResourceName, partition: Partition,
                                  msg: Message, t: RebalanceType, disabled: set<Instance>)
    requires st.ledger.enabled
    ensures var r := ThrottleStateTransitionsForReplica(st, resource, partition, msg, t, disabled);
            r.Success? ==> forall c :: c in st.ledger.limits && r.value.ledger.charged[c] > st.ledger.limits[c]
                                      ==> r.value.ledger.charged[c] == st.ledger.charged[c]
  {
    var r := ThrottleStateTransitionsForReplica(st, resource, partition, msg, t, disabled);
    if r.Success? && !Blocked(st.ledger, t, resource, msg, disabled) {
      forall c | c in st.ledger.limits && r.value.ledger.charged[c] > st.ledger.limits[c]
        ensures r.value.ledger.charged[c] == st.ledger.charged[c]
      {
        assert c != (Cluster, t) && c != (OfResource(resource), t);
      }
    }
  }

  /** Quota safety: admission keeps a ledger that is within quota within quota. */
  lemma AdmissionKeepsQuota(st: AdmissionState, resource: ResourceName, partition: Partition,
                            msg: Message, t: RebalanceType, disabled: set<Instance>)
    requires WithinQuota(st.ledger)
    ensures var r := ThrottleStateTransitionsForReplica(st, resource, partition, msg, t, disabled);
            r.Success? ==> WithinQuota(r.value.ledger)
  {
    if st.ledger.enabled {
      AdmissionNeverOvercharges(st, resource, partition, msg, t, disabled);
    }
  }

  /**
    `isLoadBalanceDownwardStateTransition` as written: true when both states
    have a priority and the source state's value is the larger one. Since a
    lower value is a more important state, that is a transition to the MORE
    important state, the reverse of what the name says. Unknown states, or a
    missing state model, never count.
   */
  function IsLoadBalanceDownwardStateTransition(msg: Message, stateModel: Option<StateModelDef>): (r: bool)
    ensures r ==> stateModel.Some? && msg.fromState in stateModel.value.statePriority
                  && msg.toState in stateModel.value.statePriority
    ensures r ==> msg.fromState != msg.toState
  {
    if stateModel.None? then false
    else
      var priority := stateModel.value.statePriority;
      msg.fromState in priority && msg.toState in priority && priority[msg.fromState] > priority[msg.toState]
  }

  /** What the predicate as written accepts is a promotion: the target state ranks above the source state. */
  lemma DownwardAsWrittenPromotes(msg: Message, stateModel: Option<StateModelDef>)
    requires IsLoadBalanceDownwardStateTransition(msg, stateModel)
    ensures stateModel.value.statePriority[msg.toState] < stateModel.value.statePriority[msg.fromState]
  {
  }

  /** A master/slave model: the master state has the lower value, so it is the more important state. */
  function MasterSlaveModel(): (m: StateModelDef)
    ensures "MASTER" in m.statePriority && "SLAVE" in m.statePriority
    ensures m.statePriority["MASTER"] < m.statePriority["SLAVE"]
  {
    StateModelDef(map["MASTER" := 0, "SLAVE" := 1, "OFFLINE" := 2], "OFFLINE", "MASTER",
                  (live: nat, replicas: int) => map[])
  }

  /** Promoting a slave to master counts as "downward" under the predicate as written. */
  lemma PromotionCountsAsDownward(tgt: Instance)
    ensures IsLoadBalanceDownwardStateTransition(Message("m", "SLAVE", "MASTER", tgt), Some(MasterSlaveModel()))
    ensures !IsDownwardStateTransition(Message("m", "SLAVE", "MASTER", tgt), Some(MasterSlaveModel()))
    ensures IsDownwardStateTransition(Message("m", "MASTER", "SLAVE", tgt), Some(MasterSlaveModel()))
  {
  }

  /**
    The transition the downward-only mode is meant to let through: both
    states have a priority and the target state is strictly less important
    (a larger value) than the source state. It is the predicate as written
    applied to the reversed transition.
   */
  function IsDownwardStateTransition(msg: Message, stateModel: Option<StateModelDef>): (r: bool)
    ensures r <==> IsLoadBalanceDownwardStateTransition(msg.(fromState := msg.toState, toState := msg.fromState),
                                                        stateModel)
    ensures r ==> stateModel.value.statePriority[msg.fromState] < stateModel.value.statePriority[msg.toState]
  {
    if stateModel.None? then false
    else
      var priority := stateModel.value.statePriority;
      msg.fromState in priority && msg.toState in priority && priority[msg.fromState] < priority[msg.toState]
  }

  /** The predicate as written never accepts both a transition and its reverse. */
  lemma DownwardIsAsymmetric(msg: Message, stateModel: Option<StateModelDef>)
    requires IsLoadBalanceDownwardStateTransition(msg, stateModel)
    ensures !IsLoadBalanceDownwardStateTransition(msg.(fromState := msg.toState, toState := msg.fromState), stateModel)
  {
  }

  /**
    Two steps in a row that the predicate as written accepts make one it
    accepts, from the first state to the last.
   */
  lemma DownwardComposes(m1: Message, m2: Message, stateModel: Option<StateModelDef>)
    requires IsLoadBalanceDownwardStateTransition(m1, stateModel)
    requires IsLoadBalanceDownwardStateTransition(m2, stateModel)
    requires m1.toState == m2.fromState
    ensures IsLoadBalanceDownwardStateTransition(m1.(toState := m2.toState), stateModel)
  {
  }

  /**
    Load-balance admission. When only downward load balance is allowed and
    the transition moves to a less important state, its target state is
    written with no quota check and no charge; otherwise it goes through the
    quota check as a load-balance transition.
   */
  function LoadRebalance(st: AdmissionState, resource: ResourceName, partition: Partition, msg: Message,
                         onlyDownwardLoadBalance: bool, stateModel: Option<StateModelDef>,
                         disabled: set<Instance>): (r: Result<AdmissionState, AdmissionError>)
    ensures onlyDownwardLoadBalance && IsDownwardStateTransition(msg, stateModel) ==>
              && r.Success? && r.value.ledger == st.ledger
              && r.value.dispatch == st.dispatch && r.value.throttled == st.throttled
              && partition in r.value.intermediate && msg.tgtName in r.value.intermediate[partition]
              && r.value.intermediate[partition][msg.tgtName] == msg.toState
    ensures !(onlyDownwardLoadBalance && IsDownwardStateTransition(msg, stateModel)) ==>
              r == ThrottleStateTransitionsForReplica(st, resource, partition, msg, LoadBalance, disabled)
  {
    if onlyDownwardLoadBalance && IsDownwardStateTransition(msg, stateModel) then
      Success(st.(intermediate := SetState(st.intermediate, partition, msg.tgtName, msg.toState)))
    else
      ThrottleStateTransitionsForReplica(st, resource, partition, msg, LoadBalance, disabled)
  }

  /** `loadRebalance` as written, bypassing the quota for what the predicate as written accepts. */
  function LoadRebalanceAsWritten(st: AdmissionState, resource: ResourceName, partition: Partition, msg: Message,
                                  onlyDownwardLoadBalance: bool, stateModel: Option<StateModelDef>,
                                  disabled: set<Instance>): (r: Result<AdmissionState, AdmissionError>)
    ensures onlyDownwardLoadBalance && IsLoadBalanceDownwardStateTransition(msg, stateModel) ==>
              && r.Success? && r.value.ledger == st.ledger
              && r.value.dispatch == st.dispatch && r.value.throttled == st.throttled
              && partition in r.value.intermediate && msg.tgtName in r.value.intermediate[partition]
              && r.value.intermediate[partition][msg.tgtName] == msg.toState
    ensures !(onlyDownwardLoadBalance && IsLoadBalanceDownwardStateTransition(msg, stateModel)) ==>
              r == ThrottleStateTransitionsForReplica(st, resource, partition, msg, LoadBalance, disabled)
  {
    if onlyDownwardLoadBalance && IsLoadBalanceDownwardStateTransition(msg, stateModel) then
      Success(st.(intermediate := SetState(st.intermediate, partition, msg.tgtName, msg.toState)))
    else
      ThrottleStateTransitionsForReplica(st, resource, partition, msg, LoadBalance, disabled)
  }

  /**
    In downward-only mode, with the load quota used up, the code as written
    lets a promotion through uncharged and unthrottled, while the corrected
    admission throttles it.
   */
  lemma AsWrittenAdmitsPromotion(st: AdmissionState, resource: ResourceName, partition: Partition, msg: Message,
                                 stateModel: Option<StateModelDef>, disabled: set<Instance>)
    requires stateModel.Some?
    requires msg.fromState in stateModel.value.statePriority && msg.toState in stateModel.value.statePriority
    requires stateModel.value.statePriority[msg.toState] < stateModel.value.statePriority[msg.fromState]
    requires Blocked(st.ledger, LoadBalance, resource, msg, disabled) && partition in st.dispatch
    ensures var r := LoadRebalanceAsWritten(st, resource, partition, msg, true, stateModel, disabled);
            r.Success? && r.value.ledger == st.ledger && r.value.throttled == st.throttled
            && partition in r.value.intermediate && msg.tgtName in r.value.intermediate[partition]
            && r.value.intermediate[partition][msg.tgtName] == msg.toState
    ensures var r := LoadRebalance(st, resource, partition, msg, true, stateModel, disabled);
            r.Success? && msg in r.value.throttled && r.value.ledger == st.ledger
            && r.value.intermediate == st.intermediate
  {
  }

  /**
    In downward-only mode the corrected admission never lets a transition to
    an equally or more important state past a used-up load quota.
   */
  lemma DownwardOnlyGatesPromotions(st: AdmissionState, resource: ResourceName, partition: Partition,
                                    msg: Message, stateModel: Option<StateModelDef>, disabled: set<Instance>)
    requires stateModel.Some?
    requires msg.fromState in stateModel.value.statePriority && msg.toState in stateModel.value.statePriority
    requires stateModel.value.statePriority[msg.toState] <= stateModel.value.statePriority[msg.fromState]
    requires Blocked(st.ledger, LoadBalance, resource, msg, disabled)
    ensures var r := LoadRebalance(st, resource, partition, msg, true, stateModel, disabled);
            r.Success? ==> r.value.ledger == st.ledger && r.value.intermediate == st.intermediate
                           && msg in r.value.throttled
  {
  }

  /** Recovery admission: the quota check in the recovery category. */
  function RecoveryRebalance(st: AdmissionState, resource: ResourceName, partition: Partition, msg: Message,
                             disabled: set<Instance>): (r: Result<AdmissionState, AdmissionError>)
    ensures r.Success? ==> forall s :: Charged(r.value.ledger, s, LoadBalance) == Charged(st.ledger, s, LoadBalance)
    ensures r.Success? ==> Charged(r.value.ledger, Cluster, RecoveryBalance) <= Charged(st.ledger, Cluster, RecoveryBalance) + 1
  {
    ThrottleStateTransitionsForReplica(st, resource, partition, msg, RecoveryBalance, disabled)
  }

  /** Load-balance admission, corrected or as written, never charges the recovery category. */
  lemma LoadRebalanceSparesRecovery(st: AdmissionState, resource: ResourceName, partition: Partition, msg: Message,
                                    onlyDownwardLoadBalance: bool, stateModel: Option<StateModelDef>,
                                    disabled: set<Instance>)
    ensures var r := LoadRebalance(st, resource, partition, msg, onlyDownwardLoadBalance, stateModel, disabled);
            r.Success? ==> forall s :: Charged(r.value.ledger, s, RecoveryBalance) == Charged(st.ledger, s, RecoveryBalance)
    ensures var r := LoadRebalanceAsWritten(st, resource, partition, msg, onlyDownwardLoadBalance, stateModel,
                                            disabled);
            r.Success? ==> forall s :: Charged(r.value.ledger, s, RecoveryBalance) == Charged(st.ledger, s, RecoveryBalance)
  {
  }

  /** No admission path, load balance corrected or as written, or recovery, pushes a ledger within quota past one. */
  lemma RebalanceKeepsQuota(st: AdmissionState, resource: ResourceName, partition: Partition, msg: Message,
                            onlyDownwardLoadBalance: bool, stateModel: Option<StateModelDef>,
                            disabled: set<Instance>)
    requires WithinQuota(st.ledger)
    ensures var r := LoadRebalance(st, resource, partition, msg, onlyDownwardLoadBalance, stateModel, disabled);
            r.Success? ==> WithinQuota(r.value.ledger)
    ensures var r := LoadRebalanceAsWritten(st, resource, partition, msg, onlyDownwardLoadBalance, stateModel,
                                            disabled);
            r.Success? ==> WithinQuota(r.value.ledger)
    ensures var r := RecoveryRebalance(st, resource, partition, msg, disabled);
            r.Success? ==> WithinQuota(r.value.ledger)
  {
    AdmissionKeepsQuota(st, resource, partition, msg, LoadBalance, disabled);
    AdmissionKeepsQuota(st, resource, partition, msg, RecoveryBalance, disabled);
  }

  /**
    The threshold the downward-only switch compares against, and whether the
    recovery partitions are counted with the error partitions: the newer
    error-or-recovery threshold when set (not -1), else the older error
    threshold when set (not 0), else 1.
   */
  datatype LoadBalanceGate = LoadBalanceGate(threshold: int, countRecovery: bool)

  function LoadBalanceThreshold(errorOrRecoveryThreshold: int, errorThreshold: int): (g: LoadBalanceGate)
    ensures g.countRecovery <==> errorOrRecoveryThreshold != -1
    ensures g.countRecovery ==> g.threshold == errorOrRecoveryThreshold
    ensures !g.countRecovery && errorThreshold != 0 ==> g.threshold == errorThreshold
    ensures !g.countRecovery && errorThreshold == 0 ==> g.threshold == 1
  {
    if errorOrRecoveryThreshold != -1 then LoadBalanceGate(errorOrRecoveryThreshold, true)
    else if errorThreshold != 0 then LoadBalanceGate(errorThreshold, false)
    else LoadBalanceGate(1, false)
  }

  /**
    Only downward load balance is allowed when more partitions than the
    threshold hold an error replica (counting those needing recovery too
    when the newer threshold is configured).
   */
  function OnlyDownwardLoadBalance(errorPartitions: nat, recoveryPartitions: nat,
                                   errorOrRecoveryThreshold: int, errorThreshold: int): (r: bool)
    ensures errorOrRecoveryThreshold != -1 ==>
              (r <==> errorPartitions + recoveryPartitions > errorOrRecoveryThreshold)
    ensures errorOrRecoveryThreshold == -1 && errorThreshold != 0 ==> (r <==> errorPartitions > errorThreshold)
    ensures errorOrRecoveryThreshold == -1 && errorThreshold == 0 ==> (r <==> errorPartitions > 1)
  {
    var gate := LoadBalanceThreshold(errorOrRecoveryThreshold, errorThreshold);
    var partitionCount := errorPartitions + (if gate.countRecovery then recoveryPartitions else 0);
    partitionCount > gate.threshold
  }

  /** More partitions in error or needing recovery can only turn the switch on, never off. */
  lemma OnlyDownwardIsMonotone(e1: nat, r1: nat, e2: nat, r2: nat,
                               errorOrRecoveryThreshold: int, errorThreshold: int)
    requires e1 <= e2 && r1 <= r2
    requires OnlyDownwardLoadBalance(e1, r1, errorOrRecoveryThreshold, errorThreshold)
    ensures OnlyDownwardLoadBalance(e2, r2, errorOrRecoveryThreshold, errorThreshold)
  {
  }

  /** Without the newer threshold, partitions needing recovery never influence the switch. */
  lemma RecoveryIgnoredWithoutNewThreshold(e: nat, r1: nat, r2: nat, errorThreshold: int)
    ensures OnlyDownwardLoadBalance(e, r1, -1, errorThreshold) == OnlyDownwardLoadBalance(e, r2, -1, errorThreshold)
  {
  }
}
