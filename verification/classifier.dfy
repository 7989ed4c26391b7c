/**
  The rebalance classifier: decides, for one partition, whether it is short
  of a structurally required replica (recovery), merely away from its
  best-possible placement (load balance), or already there; and, for one
  pending message, whether honouring it fills a still-missing required state.
 */
module RebalanceClassifier {
  import opened HelixTypes

  /** Replica count the classifier works with: the minimum-active override unless it is -1. */
  function ReplicaTarget(idealState: IdealState, preferenceListSize: nat): int
  {
    if idealState.minActiveReplicas == -1 then idealState.replicaCount(preferenceListSize)
    else idealState.minActiveReplicas
  }

  function ListOrEmpty(preferenceList: Option<seq<Instance>>): seq<Instance>
  {
    if preferenceList.Some? then preferenceList.value else []
  }

  /** Preference-list instances that are enabled and live, as a set. */
  function ActiveInstances(preferenceList: seq<Instance>, enabledLive: set<Instance>): set<Instance>
  {
    (set i | i in preferenceList) * enabledLive
  }

  /** The state model's required count per state, as the classifier asks for it. */
  function ExpectedStateCounts(idealState: IdealState, stateModel: StateModelDef,
                               preferenceList: seq<Instance>, enabledLive: set<Instance>): map<State, int>
  {
    stateModel.stateCountMap(|ActiveInstances(preferenceList, enabledLive)|,
                             ReplicaTarget(idealState, |preferenceList|))
  }

  /** States whose shortfall never calls for recovery: dropped, error and the initial state. */
  predicate RecoveryExempt(s: State, stateModel: StateModelDef)
  {
    s == DROPPED || s == ERROR || s == stateModel.initialState
  }

  /** Some required, non-exempt state is held by fewer instances of `counted` than required. */
  predicate HasRecoveryDeficit(expected: map<State, int>, counted: StateMap, stateModel: StateModelDef)
  {
    exists s :: s in expected && StateShort(expected, counted, stateModel, s)
  }

  /** State `s` is required more often than `counted` holds it, and it is not exempt. */
  predicate StateShort(expected: map<State, int>, counted: StateMap, stateModel: StateModelDef, s: State)
    requires s in expected
  {
    StateCount(counted, s) < expected[s] && !RecoveryExempt(s, stateModel)
  }

  /**
    The partition misses a required replica: the deficit is measured on the
    current states of the instances not disabled for the partition.
   */
  predicate NeedsRecovery(current: StateMap, preferenceList: Option<seq<Instance>>,
                          stateModel: StateModelDef, idealState: IdealState,
                          enabledLive: set<Instance>, disabled: set<Instance>)
  {
    HasRecoveryDeficit(
      ExpectedStateCounts(idealState, stateModel, ListOrEmpty(preferenceList), enabledLive),
      current - disabled, stateModel)
  }

  /**
    Classifies one partition. Recovery takes precedence: it is the answer
    exactly when a required state is short, whatever the best-possible map
    says; otherwise the partition needs nothing exactly when its current map
    already is the best-possible map.
   */
  method GetRebalanceType(bestPossible: StateMap, preferenceList: Option<seq<Instance>>,
                          stateModel: StateModelDef, current: StateMap, idealState: IdealState,
                          enabledLive: set<Instance>, disabled: set<Instance>)
    returns (r: RebalanceType)
    ensures r == RecoveryBalance
            <==> NeedsRecovery(current, preferenceList, stateModel, idealState, enabledLive, disabled)
    ensures r == NoRebalance
            <==> !NeedsRecovery(current, preferenceList, stateModel, idealState, enabledLive, disabled)
                 && current == bestPossible
    ensures r == LoadBalance
            <==> !NeedsRecovery(current, preferenceList, stateModel, idealState, enabledLive, disabled)
                 && current != bestPossible
  {
    var list := if preferenceList.Some? then preferenceList.value else [];
    var replica := ReplicaTarget(idealState, |list|);
    var active := (set i | i in list) * enabledLive;
    var expected := stateModel.stateCountMap(|active|, replica);
    var counted := current - disabled;
    var remaining := expected.Keys;
    while remaining != {}
      invariant remaining <= expected.Keys
      invariant forall s :: s in expected && s !in remaining ==> !StateShort(expected, counted, stateModel, s)
      decreases remaining
    {
      var s :| s in remaining;
      var expectedCount := expected[s];
      var currentCount := StateCount(counted, s);
      if currentCount < expectedCount && s != DROPPED && s != ERROR && s != stateModel.initialState {
        return RecoveryBalance;
      }
      remaining := remaining - {s};
    }
    if current == bestPossible {
      return NoRebalance;
    }
    return LoadBalance;
  }

  /** Number of preference-list entries that are enabled and live, duplicates counted. */
  function EnabledCount(preferenceList: seq<Instance>, enabledLive: set<Instance>): nat
  {
    if preferenceList == [] then 0
    else (if preferenceList[0] in enabledLive then 1 else 0) + EnabledCount(preferenceList[1..], enabledLive)
  }

  /** The required count per state used to classify pending messages. */
  function RequiredStates(idealState: IdealState, stateModel: StateModelDef,
                          preferenceList: seq<Instance>, enabledLive: set<Instance>): map<State, int>
  {
    stateModel.stateCountMap(EnabledCount(preferenceList, enabledLive),
                             ReplicaTarget(idealState, |preferenceList|))
  }

  /** On a duplicate-free preference list, counting entries and counting the set agree. */
  lemma {:induction false} EnabledCountOfDistinct(preferenceList: seq<Instance>, enabledLive: set<Instance>)
    requires Distinct(preferenceList)
    ensures EnabledCount(preferenceList, enabledLive) == |ActiveInstances(preferenceList, enabledLive)|
    decreases |preferenceList|
  {
    if preferenceList != [] {
      var x := preferenceList[0];
      var rest := preferenceList[1..];
      DistinctTail(preferenceList);
      EnabledCountOfDistinct(rest, enabledLive);
      ActiveInstancesCons(preferenceList, enabledLive);
    }
  }

  /** The active instances of a list are those of its tail, plus its head when that is enabled and live. */
  lemma ActiveInstancesCons(preferenceList: seq<Instance>, enabledLive: set<Instance>)
    requires preferenceList != []
    ensures var x := preferenceList[0];
            var before := ActiveInstances(preferenceList[1..], enabledLive);
            ActiveInstances(preferenceList, enabledLive)
              == if x in enabledLive then before + {x} else before
  {
    var x := preferenceList[0];
    assert preferenceList == [x] + preferenceList[1..];
    assert (set i | i in preferenceList) == (set i | i in preferenceList[1..]) + {x};
  }

  /**
    Wherever the preference list has no duplicates, the required states used
    for pending messages are the expected states used by the classifier.
   */
  lemma RequiredStatesMatchExpected(idealState: IdealState, stateModel: StateModelDef,
                                    preferenceList: seq<Instance>, enabledLive: set<Instance>)
    requires Distinct(preferenceList)
    ensures RequiredStates(idealState, stateModel, preferenceList, enabledLive)
            == ExpectedStateCounts(idealState, stateModel, preferenceList, enabledLive)
  {
    EnabledCountOfDistinct(preferenceList, enabledLive);
  }

  /**
    After `seen` occurrences of a state required `required` times, the state
    is no longer outstanding: a positive requirement is exhausted once met,
    a requirement of zero or less is never removed.
   */
  predicate Exhausted(required: int, seen: nat)
  {
    required >= 1 && seen >= required
  }

  /** State `s` is still required after every current replica has been accounted for. */
  predicate Outstanding(required: map<State, int>, current: StateMap, s: State)
  {
    s in required && !Exhausted(required[s], StateCount(current, s))
  }

  /** Reference classification of a pending message. */
  function MessageRebalanceType(required: map<State, int>, msg: Message, current: StateMap): RebalanceType
  {
    if Outstanding(required, current, msg.toState) then RecoveryBalance else LoadBalance
  }

  /** `snapshot` is what consuming the replicas of `done` leaves of `required`. */
  ghost predicate ConsumedBy(required: map<State, int>, current: StateMap, done: set<Instance>,
                             snapshot: map<State, int>)
  {
    && (forall s :: s in snapshot
          <==> s in required && !Exhausted(required[s], StateCountAmong(current, done, s)))
    && (forall s :: s in snapshot
          ==> s in required && snapshot[s] == required[s] - StateCountAmong(current, done, s))
  }

  /**
    Consumes one replica in `state`: a count of one removes the state, any
    other count is lowered by one, and a state not in the snapshot is ignored.
   */
  function ConsumeOne(snapshot: map<State, int>, state: State): map<State, int>
  {
    if state !in snapshot then snapshot
    else if snapshot[state] == 1 then snapshot - {state}
    else snapshot[state := snapshot[state] - 1]
  }

  /** Consuming one more replica, as the loop body does, keeps `ConsumedBy`. */
  lemma ConsumeStep(required: map<State, int>, current: StateMap, done: set<Instance>,
                    snapshot: map<State, int>, i: Instance)
    requires i in current && i !in done
    requires ConsumedBy(required, current, done, snapshot)
    ensures ConsumedBy(required, current, done + {i}, ConsumeOne(snapshot, current[i]))
  {
    var state := current[i];
    forall s
      ensures StateCountAmong(current, done + {i}, s)
              == StateCountAmong(current, done, s) + (if state == s then 1 else 0)
    {
      StateCountAmongStep(current, done, i, s);
    }
  }

  /**
    Walks the current replicas and consumes one unit of the required count of
    each replica's state, dropping a state once its count reaches one. The
    outcome does not depend on the order of the walk: a state survives exactly
    when it is still outstanding, with its requirement reduced by the number
    of replicas holding it. The required map itself is a value and stays as given.
   */
  method ConsumeRequiredStates(required: map<State, int>, current: StateMap)
    returns (snapshot: map<State, int>)
    ensures forall s :: s in snapshot <==> Outstanding(required, current, s)
    ensures forall s :: s in snapshot ==> s in required && snapshot[s] == required[s] - StateCount(current, s)
  {
    snapshot := required;
    var done: set<Instance> := {};
    var todo := current.Keys;
    ConsumedByNothing(required, current);
    while todo != {}
      invariant todo == current.Keys - done
      invariant done <= current.Keys
      invariant ConsumedBy(required, current, done, snapshot)
      decreases todo
    {
      var i :| i in todo;
      ConsumeStep(required, current, done, snapshot, i);
      snapshot := ConsumeOne(snapshot, current[i]);
      done := done + {i};
      todo := todo - {i};
    }
    assert done == current.Keys;
    ConsumedByAll(required, current, snapshot);
  }

  /** Before any replica is consumed, the snapshot is the required map itself. */
  lemma ConsumedByNothing(required: map<State, int>, current: StateMap)
    ensures ConsumedBy(required, current, {}, required)
  {
    forall s ensures StateCountAmong(current, {}, s) == 0 {
      assert (set i | i in current && current[i] == s && i in {}) == {};
    }
  }

  /** Once every replica is consumed, `ConsumedBy` is the closed form of the method's contract. */
  lemma ConsumedByAll(required: map<State, int>, current: StateMap, snapshot: map<State, int>)
    requires ConsumedBy(required, current, current.Keys, snapshot)
    ensures forall s :: s in snapshot <==> Outstanding(required, current, s)
    ensures forall s :: s in snapshot ==> s in required && snapshot[s] == required[s] - StateCount(current, s)
  {
    forall s ensures StateCountAmong(current, current.Keys, s) == StateCount(current, s) {
      StateCountAmongAll(current, s);
    }
  }

  /**
    Classifies one pending message: recovery exactly when its target state is
    required and the current replicas do not yet fill that requirement.
   */
  method GetRebalanceTypePerMessage(required: map<State, int>, msg: Message, current: StateMap)
    returns (r: RebalanceType)
    ensures r == RecoveryBalance
            <==> msg.toState in required
                 && (required[msg.toState] < 1 || StateCount(current, msg.toState) < required[msg.toState])
    ensures r == LoadBalance <==> r != RecoveryBalance
    ensures r == MessageRebalanceType(required, msg, current)
  {
    var snapshot := ConsumeRequiredStates(required, current);
    r := if msg.toState in snapshot then RecoveryBalance else LoadBalance;
  }
}
