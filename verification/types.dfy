/**
  Vocabulary shared by every component of the intermediate-state stage: the
  names used for instances, states, partitions and resources, the messages
  that carry state transitions, the state-model and ideal-state records the
  stage reads, and the partition-state maps it produces.
 */
module HelixTypes {

  type Instance = string
  type State = string
  type Partition = string
  type ResourceName = string

  /** Built-in states that never count as a missing required replica. */
  const DROPPED: State := "DROPPED"
  const ERROR: State := "ERROR"

  /** Name of the built-in task state model; its resources are throttled elsewhere. */
  const TASK_STATE_MODEL: string := "Task"

  /** Bounds of a Java `int`. */
  const INT_MIN: int := -0x8000_0000
  const INT_MAX: int := 0x7fff_ffff

  datatype Option<+T> = None | Some(value: T)

  datatype Result<+T, +E> = Success(value: T) | Failure(error: E)

  /** What a partition (or one transition) needs to approach its best-possible placement. */
  datatype RebalanceType = NoRebalance | RecoveryBalance | LoadBalance

  datatype RebalanceMode = FullAuto | SemiAuto | Customized | UserDefined | TaskMode

  /** A state transition addressed to one instance. */
  datatype Message = Message(id: string, fromState: State, toState: State, tgtName: Instance)

  /**
    A state model definition. `statePriority` maps a state to its priority
    (a lower value is a more important state); `stateCountMap` is the
    definition's own rule giving, for a number of live candidate instances
    and a replica count, how many replicas each state needs.
   */
  datatype StateModelDef = StateModelDef(
    statePriority: map<State, int>,
    initialState: State,
    topState: State,
    stateCountMap: (nat, int) -> map<State, int>)

  /**
    The parts of an ideal state the stage reads. `minActiveReplicas` is -1
    when unset; `replicaCount` is the ideal state's rule turning a default
    replica count (the preference-list size) into the configured one.
   */
  datatype IdealState = IdealState(
    stateModelDefRef: string,
    rebalanceMode: RebalanceMode,
    minActiveReplicas: int,
    replicaCount: nat -> int)

  /** Instance to state, for one partition. */
  type StateMap = map<Instance, State>

  /** Partition to its instance-state map, for one resource. */
  type PartitionStateMap = map<Partition, StateMap>

  /** Number of instances of `m` holding state `s`. */
  function StateCount(m: StateMap, s: State): nat
  {
    |set i | i in m && m[i] == s|
  }

  /** Number of instances among `done` that hold state `s` in `m`. */
  function StateCountAmong(m: StateMap, done: set<Instance>, s: State): nat
  {
    |set i | i in m && m[i] == s && i in done|
  }

  /** The state map of one partition; an absent partition reads as the empty map. */
  function PartitionMap(psm: PartitionStateMap, p: Partition): StateMap
  {
    if p in psm then psm[p] else map[]
  }

  /** Records `s` as the state of instance `i` in partition `p`, creating the partition entry if needed. */
  function SetState(psm: PartitionStateMap, p: Partition, i: Instance, s: State): (r: PartitionStateMap)
    ensures r.Keys == psm.Keys + {p}
    ensures r[p] == PartitionMap(psm, p)[i := s]
    ensures forall q :: q in psm && q != p ==> r[q] == psm[q]
  {
    psm[p := PartitionMap(psm, p)[i := s]]
  }

  /**
    What the stage reads about one resource in one tick: its partitions, ideal
    state and state model, the current states and pending messages of each
    partition, the best-possible placement with its preference lists, and the
    instances disabled for each partition.
   */
  datatype ResourceView = ResourceView(
    name: ResourceName,
    partitions: seq<Partition>,
    idealState: IdealState,
    stateModel: StateModelDef,
    currentStates: PartitionStateMap,
    pendingMessages: map<Partition, map<Instance, Message>>,
    bestPossible: PartitionStateMap,
    preferenceLists: map<Partition, seq<Instance>>,
    disabledInstances: map<Partition, set<Instance>>)

  /** Current states of a partition; none recorded reads as the empty map. */
  function CurrentStateOf(v: ResourceView, p: Partition): StateMap
  {
    PartitionMap(v.currentStates, p)
  }

  /** Best-possible states of a partition; none recorded reads as the empty map. */
  function BestPossibleOf(v: ResourceView, p: Partition): StateMap
  {
    PartitionMap(v.bestPossible, p)
  }

  /** Pending messages of a partition, keyed by target instance. */
  function PendingOf(v: ResourceView, p: Partition): map<Instance, Message>
  {
    if p in v.pendingMessages then v.pendingMessages[p] else map[]
  }

  /** Instances disabled for a partition. */
  function DisabledOf(v: ResourceView, p: Partition): set<Instance>
  {
    if p in v.disabledInstances then v.disabledInstances[p] else {}
  }

  function PreferenceListOf(v: ResourceView, p: Partition): Option<seq<Instance>>
  {
    if p in v.preferenceLists then Some(v.preferenceLists[p]) else None
  }

  /**
    Shape the inputs always have: a resource lists each partition once, and a
    pending message is filed under the instance it targets.
   */
  predicate WellFormedView(v: ResourceView)
  {
    && Distinct(v.partitions)
    && forall p, i :: p in v.pendingMessages && i in v.pendingMessages[p]
         ==> v.pendingMessages[p][i].tgtName == i
  }

  /** A list minus its element at `j`: its multiset loses exactly that element. */
  lemma MultisetRemoveAt(b: seq<Message>, j: nat)
    requires j < |b|
    ensures multiset(b[..j] + b[j + 1..]) == multiset(b) - multiset{b[j]}
  {
    assert b == b[..j] + [b[j]] + b[j + 1..];
    calc {
      multiset(b);
      multiset(b[..j] + [b[j]] + b[j + 1..]);
      multiset(b[..j]) + multiset{b[j]} + multiset(b[j + 1..]);
    }
  }

  /** Some element of a non-empty set, fixed once and for all. */
  ghost function Pick(s: set<Instance>): (i: Instance)
    requires s != {}
    ensures i in s
  {
    var i :| i in s; i
  }

  /** True when no instance occurs twice in `xs`. */
  predicate Distinct<T(==)>(xs: seq<T>)
  {
    forall j, k :: 0 <= j < k < |xs| ==> xs[j] != xs[k]
  }

  /** The tail of a duplicate-free list is duplicate-free and does not contain the head. */
  lemma DistinctTail<T>(xs: seq<T>)
    requires Distinct(xs) && xs != []
    ensures Distinct(xs[1..]) && xs[0] !in xs[1..]
  {
    var rest := xs[1..];
    forall j, k | 0 <= j < k < |rest| ensures rest[j] != rest[k] {
      assert rest[j] == xs[j + 1] && rest[k] == xs[k + 1];
    }
    forall k | 0 <= k < |rest| ensures rest[k] != xs[0] {
      assert rest[k] == xs[k + 1];
    }
  }

  /** Counting over all instances is counting over every key of the map. */
  lemma StateCountAmongAll(m: StateMap, s: State)
    ensures StateCountAmong(m, m.Keys, s) == StateCount(m, s)
  {
    assert (set i | i in m && m[i] == s && i in m.Keys) == (set i | i in m && m[i] == s);
  }

  /** Visiting one more instance adds one to the count of its own state and nothing to the others. */
  lemma StateCountAmongStep(m: StateMap, done: set<Instance>, k: Instance, s: State)
    requires k in m && k !in done
    ensures StateCountAmong(m, done + {k}, s)
            == StateCountAmong(m, done, s) + (if m[k] == s then 1 else 0)
  {
    var before := set i | i in m && m[i] == s && i in done;
    var after := set i | i in m && m[i] == s && i in done + {k};
    if m[k] == s {
      assert after == before + {k};
    } else {
      assert after == before;
    }
  }
}
