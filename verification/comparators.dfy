/**
  The two orderings the stage defines for its own use. The message order
  ranks pending transitions: a more important target state first, then, for
  the same target state, the preference-list position of the target
  instance, and otherwise the instance name. The partition order ranks
  partitions for recovery: a partition without its top state first, then the
  one with fewer active replicas, then the one with fewer replicas already
  matching the best-possible placement.

  Every comparison result is the sign Java's `compare` methods return
  (`Integer.compare` gives -1, 0 or 1; for strings only the sign is used).
 */
module PriorityComparators {
  import opened HelixTypes

  /** Sign of `Integer.compare(a, b)`. */
  function IntCompare(a: int, b: int): (r: int)
    ensures r == -1 || r == 0 || r == 1
    ensures r < 0 <==> a < b
    ensures r == 0 <==> a == b
  {
    if a < b then -1 else if a == b then 0 else 1
  }

  /** Sign of `String.compareTo`: the first differing character decides, else the shorter string is smaller. */
  function CompareStrings(a: string, b: string): (r: int)
    ensures r == -1 || r == 0 || r == 1
    ensures r == 0 <==> a == b
  {
    if a == [] then (if b == [] then 0 else -1)
    else if b == [] then 1
    else if a[0] < b[0] then -1
    else if a[0] > b[0] then 1
    else
      var rest := CompareStrings(a[1..], b[1..]);
      assert rest == 0 ==> a == [a[0]] + a[1..] && b == [b[0]] + b[1..];
      rest
  }

  /** Swapping the strings flips the sign. */
  lemma {:induction false} CompareStringsAntisymmetric(a: string, b: string)
    ensures CompareStrings(b, a) == -CompareStrings(a, b)
  {
    if a != [] && b != [] && a[0] == b[0] {
      CompareStringsAntisymmetric(a[1..], b[1..]);
    }
  }

  /** The string order is transitive. */
  lemma {:induction false} CompareStringsTransitive(a: string, b: string, c: string)
    requires CompareStrings(a, b) < 0 && CompareStrings(b, c) < 0
    ensures CompareStrings(a, c) < 0
  {
    if a != [] && c != [] && a[0] == c[0] {
      assert b != [] && a[0] == b[0] && b[0] == c[0];
      CompareStringsTransitive(a[1..], b[1..], c[1..]);
    }
  }

  /**
    The instance-to-position map the message order is built from. Java's
    `Collectors.toMap` refuses a key seen twice, so a preference list naming
    an instance twice yields no map.
   */
  function PreferenceIndex(preferenceList: seq<Instance>): (r: Option<map<Instance, int>>)
    ensures r.Some? <==> Distinct(preferenceList)
    ensures r.Some? ==> forall k :: 0 <= k < |preferenceList| ==>
                          preferenceList[k] in r.value && r.value[preferenceList[k]] == k
  {
    if Distinct(preferenceList) then
      Some(map k | 0 <= k < |preferenceList| :: preferenceList[k] := k)
    else
      None
  }

  /** The index map holds exactly the listed instances, each at the position it is listed at. */
  lemma PreferenceIndexInverse(preferenceList: seq<Instance>, i: Instance)
    requires Distinct(preferenceList)
    ensures var rank := PreferenceIndex(preferenceList).value;
            (i in rank <==> i in preferenceList)
            && (i in rank ==> 0 <= rank[i] < |preferenceList| && preferenceList[rank[i]] == i)
  {
    var rank := PreferenceIndex(preferenceList).value;
    if i in preferenceList {
      var k :| 0 <= k < |preferenceList| && preferenceList[k] == i;
      assert rank[preferenceList[k]] == k;
    }
  }

  /**
    `MessagePriorityComparator.compare`. Messages to the same state whose
    targets are both ranked follow the preference list; messages to
    different states follow the state priorities; all others fall back to the
    target names. A state missing from the priority map makes the Java
    comparison throw, which is `None` here.
   */
  function MessageCompare(m1: Message, m2: Message, rank: map<Instance, int>, statePriority: map<State, int>)
    : (r: Option<int>)
    ensures r.None? <==> m1.toState != m2.toState
                         && (m1.toState !in statePriority || m2.toState !in statePriority)
    ensures r.Some? ==> r.value == -1 || r.value == 0 || r.value == 1
  {
    if m1.toState == m2.toState && m1.tgtName in rank && m2.tgtName in rank then
      Some(IntCompare(rank[m1.tgtName], rank[m2.tgtName]))
    else if m1.toState != m2.toState then
      if m1.toState in statePriority && m2.toState in statePriority then
        Some(IntCompare(statePriority[m1.toState], statePriority[m2.toState]))
      else
        None
    else
      Some(CompareStrings(m1.tgtName, m2.tgtName))
  }

  /** Swapping the messages flips the sign, and a failing comparison fails both ways. */
  lemma MessageCompareAntisymmetric(m1: Message, m2: Message, rank: map<Instance, int>, statePriority: map<State, int>)
    ensures MessageCompare(m1, m2, rank, statePriority).None? <==> MessageCompare(m2, m1, rank, statePriority).None?
    ensures MessageCompare(m1, m2, rank, statePriority).Some? ==>
              MessageCompare(m2, m1, rank, statePriority).value == -MessageCompare(m1, m2, rank, statePriority).value
  {
    CompareStringsAntisymmetric(m1.tgtName, m2.tgtName);
  }

  /**
    Messages are fully ranked when every target is on the preference list
    and every target state has a priority of its own (no two of their states
    share one).
   */
  predicate FullyRanked(ms: set<Message>, rank: map<Instance, int>, statePriority: map<State, int>)
  {
    && (forall m :: m in ms ==> m.tgtName in rank && m.toState in statePriority)
    && (forall m, n :: m in ms && n in ms && m.toState != n.toState
          ==> statePriority[m.toState] != statePriority[n.toState])
  }

  /** Lexicographic comparison of (state priority, preference position). */
  function KeyCompare(a: (int, int), b: (int, int)): (r: int)
  {
    if a.0 != b.0 then IntCompare(a.0, b.0) else IntCompare(a.1, b.1)
  }

  /** The lexicographic key order is transitive. */
  lemma KeyCompareTransitive(a: (int, int), b: (int, int), c: (int, int))
    requires KeyCompare(a, b) < 0 && KeyCompare(b, c) < 0
    ensures KeyCompare(a, c) < 0
  {
  }

  /**
    On fully ranked messages the comparator is the lexicographic order of
    (target-state priority, target position on the preference list).
   */
  lemma MessageCompareIsKeyOrder(m1: Message, m2: Message, rank: map<Instance, int>, statePriority: map<State, int>)
    requires FullyRanked({m1, m2}, rank, statePriority)
    ensures MessageCompare(m1, m2, rank, statePriority)
            == Some(KeyCompare((statePriority[m1.toState], rank[m1.tgtName]),
                               (statePriority[m2.toState], rank[m2.tgtName])))
  {
    assert m1 in {m1, m2} && m2 in {m1, m2};
  }

  /** Hence, on fully ranked messages, the comparator is transitive. */
  lemma MessageCompareTransitiveWhenRanked(a: Message, b: Message, c: Message,
                                           rank: map<Instance, int>, statePriority: map<State, int>)
    requires FullyRanked({a, b, c}, rank, statePriority)
    requires MessageCompare(a, b, rank, statePriority) == Some(-1)
    requires MessageCompare(b, c, rank, statePriority) == Some(-1)
    ensures MessageCompare(a, c, rank, statePriority) == Some(-1)
  {
    assert {a, b} <= {a, b, c} && {b, c} <= {a, b, c} && {a, c} <= {a, b, c};
    MessageCompareIsKeyOrder(a, b, rank, statePriority);
    MessageCompareIsKeyOrder(b, c, rank, statePriority);
    MessageCompareIsKeyOrder(a, c, rank, statePriority);
    KeyCompareTransitive((statePriority[a.toState], rank[a.tgtName]),
                         (statePriority[b.toState], rank[b.tgtName]),
                         (statePriority[c.toState], rank[c.tgtName]));
  }

  /**
    With an instance missing from the preference list the comparator is not
    transitive: for preference list [c, a] and three messages to the same
    state, c comes before a (by position), a before b and b before c (by
    name, since b is not ranked).
   */
  lemma MessageCompareCycle()
    ensures var rank := PreferenceIndex(["c", "a"]).value;
            var mc := Message("1", "OFFLINE", "SLAVE", "c");
            var ma := Message("2", "OFFLINE", "SLAVE", "a");
            var mb := Message("3", "OFFLINE", "SLAVE", "b");
            && MessageCompare(mc, ma, rank, map[]) == Some(-1)
            && MessageCompare(ma, mb, rank, map[]) == Some(-1)
            && MessageCompare(mb, mc, rank, map[]) == Some(-1)
  {
    var pl: seq<Instance> := ["c", "a"];
    assert Distinct(pl);
    var rank := PreferenceIndex(pl).value;
    assert pl[0] == "c" && pl[1] == "a";
    assert rank["c"] == 0 && rank["a"] == 1;
    PreferenceIndexInverse(pl, "b");
    assert "b" !in pl;
    assert "b" !in rank;
    assert CompareStrings("a", "b") == -1;
    assert CompareStrings("b", "c") == -1;
  }

  // ---------------------------------------------------------------------
  // Partition order
  // ---------------------------------------------------------------------

  /** 0 when the partition has no current replica in the top state, 1 when it has one. */
  function MissTopStateIndex(current: PartitionStateMap, p: Partition, topState: State): (r: int)
    ensures r == 0 || r == 1
    ensures r == 1 <==> p in current && exists i :: i in current[p] && current[p][i] == topState
  {
    if p !in current || topState !in current[p].Values then 0 else 1
  }

  /** The states held by the instances `done` of `m`, with multiplicity. */
  ghost function Bag(m: StateMap, done: set<Instance>): multiset<State>
    decreases done
  {
    if done == {} then multiset{}
    else
      var i := Pick(done);
      Bag(m, done - {i}) + (if i in m then multiset{m[i]} else multiset{})
  }

  /** Each state occurs in the bag as often as instances of `done` hold it. */
  lemma {:induction false} BagCount(m: StateMap, done: set<Instance>, s: State)
    ensures Bag(m, done)[s] == StateCountAmong(m, done, s)
    decreases done
  {
    if done == {} {
      assert (set i | i in m && m[i] == s && i in done) == {};
    } else {
      var i := Pick(done);
      BagCount(m, done - {i}, s);
      assert done == (done - {i}) + {i};
      if i in m {
        StateCountAmongStep(m, done - {i}, i, s);
      } else {
        assert (set j | j in m && m[j] == s && j in done) == (set j | j in m && m[j] == s && j in done - {i});
      }
    }
  }

  /** Visiting one more instance adds its state to the bag. */
  lemma BagStep(m: StateMap, done: set<Instance>, k: Instance)
    requires k in m && k !in done
    ensures Bag(m, done + {k}) == Bag(m, done) + multiset{m[k]}
  {
    forall s ensures Bag(m, done + {k})[s] == (Bag(m, done) + multiset{m[k]})[s] {
      BagCount(m, done + {k}, s);
      BagCount(m, done, s);
      StateCountAmongStep(m, done, k, s);
    }
  }

  /** The bag of a whole map has one element per instance. */
  lemma {:induction false} BagSize(m: StateMap, done: set<Instance>)
    requires done <= m.Keys
    ensures |Bag(m, done)| == |done|
    decreases done
  {
    if done != {} {
      var i := Pick(done);
      BagSize(m, done - {i});
    }
  }

  /**
    `getCurrentActiveReplicas`: how many current replicas hold a state the
    best-possible placement still has room for, consuming one unit of a
    state's best-possible count per replica. Whatever order the current
    replicas are visited in, the result is the size of the multiset
    intersection of current and best-possible states. The source reads the
    best-possible map of every partition it finds in the current states.
   */
  method CurrentActiveReplicas(best: PartitionStateMap, current: PartitionStateMap, p: Partition)
    returns (count: nat)
    requires p in current ==> p in best
    ensures p !in current ==> count == 0
    ensures p in current ==> count == |Bag(current[p], current[p].Keys) * Bag(best[p], best[p].Keys)|
  {
    if p !in current {
      return 0;
    }
    var stateCount := CountStates(best[p]);
    count := ConsumeStates(current[p], stateCount, Bag(best[p], best[p].Keys));
  }

  /** The state-to-count map of the best-possible replicas. */
  method CountStates(bp: StateMap) returns (stateCount: map<State, int>)
    ensures forall s :: Left(stateCount, s) == Bag(bp, bp.Keys)[s]
  {
    stateCount := map[];
    ghost var done: set<Instance> := {};
    assert Bag(bp, done) == multiset{};
    var todo := bp.Keys;
    while todo != {}
      invariant todo == bp.Keys - done && done <= bp.Keys
      invariant forall s :: Left(stateCount, s) == Bag(bp, done)[s]
      decreases todo
    {
      var i :| i in todo;
      var state := bp[i];
      BagStep(bp, done, i);
      stateCount := stateCount[state := Left(stateCount, state) + 1];
      done := done + {i};
      todo := todo - {i};
    }
    assert done == bp.Keys;
  }

  /**
    Walks the current replicas, taking one unit of a state's count for each
    replica whose state still has some left; returns how many were taken.
   */
  method ConsumeStates(cp: StateMap, stateCount: map<State, int>, ghost bestBag: multiset<State>)
    returns (count: nat)
    requires forall s :: Left(stateCount, s) == bestBag[s]
    ensures count == |Bag(cp, cp.Keys) * bestBag|
  {
    var snapshot := stateCount;
    count := 0;
    ghost var done: set<Instance> := {};
    assert Bag(cp, done) == multiset{};
    var todo := cp.Keys;
    while todo != {}
      invariant todo == cp.Keys - done && done <= cp.Keys
      invariant Consumed(cp, done, bestBag, snapshot, count)
      decreases todo
    {
      var i :| i in todo;
      var state := cp[i];
      ConsumeStep(cp, done, bestBag, snapshot, count, i);
      if Left(snapshot, state) > 0 {
        count := count + 1;
        snapshot := snapshot[state := Left(snapshot, state) - 1];
      }
      done := done + {i};
      todo := todo - {i};
    }
    assert done == cp.Keys;
  }

  /**
    After visiting the replicas `done`, `count` replicas were taken, which is
    the size of the intersection of their states with the best-possible
    states, and what is left of each state's count is the part of the
    best-possible count not yet matched.
   */
  ghost predicate Consumed(cp: StateMap, done: set<Instance>, bestBag: multiset<State>,
                           snapshot: map<State, int>, count: int)
  {
    && count == |Bag(cp, done) * bestBag|
    && forall s :: Left(snapshot, s) == bestBag[s] - (Bag(cp, done) * bestBag)[s]
  }

  /** Visiting one more replica keeps `Consumed`. */
  lemma ConsumeStep(cp: StateMap, done: set<Instance>, bestBag: multiset<State>,
                    snapshot: map<State, int>, count: int, i: Instance)
    requires i in cp && i !in done
    requires Consumed(cp, done, bestBag, snapshot, count)
    ensures var x := cp[i];
            if Left(snapshot, x) > 0
            then Consumed(cp, done + {i}, bestBag, snapshot[x := Left(snapshot, x) - 1], count + 1)
            else Consumed(cp, done + {i}, bestBag, snapshot, count)
  {
    var x := cp[i];
    BagStep(cp, done, i);
    ConsumeIntersect(Bag(cp, done), bestBag, x);
  }

  /** A state's count left in the snapshot; an absent state reads as 0. */
  function Left(counts: map<State, int>, s: State): int
  {
    if s in counts then counts[s] else 0
  }

  /** One more element on the left of an intersection adds it exactly when the right still has room. */
  lemma ConsumeIntersect(a: multiset<State>, b: multiset<State>, x: State)
    ensures a[x] < b[x] ==> (a + multiset{x}) * b == a * b + multiset{x}
    ensures a[x] >= b[x] ==> (a + multiset{x}) * b == a * b
  {
    if a[x] < b[x] {
      assert forall s :: ((a + multiset{x}) * b)[s] == (a * b + multiset{x})[s];
    } else {
      assert forall s :: ((a + multiset{x}) * b)[s] == (a * b)[s];
    }
  }

  /** The intersection is no larger than either side, and a map agrees with itself everywhere. */
  lemma ActiveReplicasBounds(cp: StateMap, bp: StateMap)
    ensures |Bag(cp, cp.Keys) * Bag(bp, bp.Keys)| <= |cp|
    ensures |Bag(cp, cp.Keys) * Bag(bp, bp.Keys)| <= |bp|
    ensures cp == bp ==> |Bag(cp, cp.Keys) * Bag(bp, bp.Keys)| == |cp|
  {
    var a := Bag(cp, cp.Keys);
    var b := Bag(bp, bp.Keys);
    BagSize(cp, cp.Keys);
    BagSize(bp, bp.Keys);
    assert |cp.Keys| == |cp| && |bp.Keys| == |bp|;
    SubBagSize(a * b, a);
    SubBagSize(a * b, b);
    if cp == bp {
      assert a * b == a;
    }
  }

  /** A sub-multiset is no larger. */
  lemma SubBagSize(a: multiset<State>, b: multiset<State>)
    requires a <= b
    ensures |a| <= |b|
  {
    assert b == a + (b - a);
  }

  /** Instances holding the same state in both maps. */
  function MatchedInstances(bp: StateMap, cp: StateMap): set<Instance>
  {
    set i | i in bp && i in cp && bp[i] == cp[i]
  }

  /**
    `getIdealStateMatched`: the number of best-possible replicas whose
    instance currently holds the same state. The source reads the
    best-possible map of every partition it finds in the current states.
   */
  method IdealStateMatched(best: PartitionStateMap, current: PartitionStateMap, p: Partition)
    returns (matched: nat)
    requires p in current ==> p in best
    ensures p !in current ==> matched == 0
    ensures p in current ==> matched == |MatchedInstances(best[p], current[p])|
  {
    if p !in current {
      return 0;
    }
    var bp := best[p];
    var cp := current[p];
    matched := 0;
    ghost var done: set<Instance> := {};
    var todo := bp.Keys;
    while todo != {}
      invariant todo == bp.Keys - done && done <= bp.Keys
      invariant matched == |MatchedInstances(bp, cp) * done|
      decreases todo
    {
      var i :| i in todo;
      MatchedStep(bp, cp, done, i);
      if i in cp && bp[i] == cp[i] {
        matched := matched + 1;
      }
      done := done + {i};
      todo := todo - {i};
    }
    assert MatchedInstances(bp, cp) * done == MatchedInstances(bp, cp);
  }

  /** Visiting one more best-possible replica counts it exactly when it matches. */
  lemma MatchedStep(bp: StateMap, cp: StateMap, done: set<Instance>, i: Instance)
    requires i in bp && i !in done
    ensures |MatchedInstances(bp, cp) * (done + {i})|
            == |MatchedInstances(bp, cp) * done| + (if i in cp && bp[i] == cp[i] then 1 else 0)
  {
    if i in cp && bp[i] == cp[i] {
      assert MatchedInstances(bp, cp) * (done + {i}) == MatchedInstances(bp, cp) * done + {i};
    } else {
      assert MatchedInstances(bp, cp) * (done + {i}) == MatchedInstances(bp, cp) * done;
    }
  }

  /** Every best-possible replica matches, with no extra current replica, exactly when the maps are equal. */
  lemma MatchedAllIffEqual(bp: StateMap, cp: StateMap)
    ensures (|MatchedInstances(bp, cp)| == |bp| && bp.Keys == cp.Keys) <==> bp == cp
  {
    var mi := MatchedInstances(bp, cp);
    if bp == cp {
      assert mi == bp.Keys;
    }
    if |mi| == |bp| && bp.Keys == cp.Keys {
      assert mi <= bp.Keys;
      SubsetOfSameSize(mi, bp.Keys);
      assert forall i :: i in bp ==> i in mi;
    }
  }

  /** A subset as large as its superset is the superset. */
  lemma SubsetOfSameSize(a: set<Instance>, b: set<Instance>)
    requires a <= b && |a| == |b|
    ensures a == b
  {
    assert |b - a| == |b| - |a|;
  }

  /** The three figures the partition order compares, in order. */
  datatype PartitionKey = PartitionKey(missTopState: int, activeReplicas: int, idealStateMatched: int)

  /** The closed form of a partition's key. */
  ghost function KeyOf(best: PartitionStateMap, current: PartitionStateMap, topState: State, p: Partition): PartitionKey
    requires p in current ==> p in best
  {
    PartitionKey(
      MissTopStateIndex(current, p, topState),
      if p in current then |Bag(current[p], current[p].Keys) * Bag(best[p], best[p].Keys)| else 0,
      if p in current then |MatchedInstances(best[p], current[p])| else 0)
  }

  /** Lexicographic comparison of partition keys. */
  function PartitionKeyCompare(a: PartitionKey, b: PartitionKey): (r: int)
  {
    if a.missTopState != b.missTopState then IntCompare(a.missTopState, b.missTopState)
    else if a.activeReplicas != b.activeReplicas then IntCompare(a.activeReplicas, b.activeReplicas)
    else IntCompare(a.idealStateMatched, b.idealStateMatched)
  }

  /**
    `PartitionPriorityComparator.compare`: the lexicographic order of the
    partitions' keys, so a partition missing its top state comes first.
   */
  method ComparePartitions(best: PartitionStateMap, current: PartitionStateMap, topState: State,
                           p1: Partition, p2: Partition)
    returns (r: int)
    requires p1 in current ==> p1 in best
    requires p2 in current ==> p2 in best
    ensures r == PartitionKeyCompare(KeyOf(best, current, topState, p1), KeyOf(best, current, topState, p2))
    ensures MissTopStateIndex(current, p1, topState) < MissTopStateIndex(current, p2, topState) ==> r == -1
  {
    var missTopState1 := MissTopStateIndex(current, p1, topState);
    var missTopState2 := MissTopStateIndex(current, p2, topState);
    if missTopState1 != missTopState2 {
      return IntCompare(missTopState1, missTopState2);
    }
    var active1 := CurrentActiveReplicas(best, current, p1);
    var active2 := CurrentActiveReplicas(best, current, p2);
    if active1 != active2 {
      return IntCompare(active1, active2);
    }
    var matched1 := IdealStateMatched(best, current, p1);
    var matched2 := IdealStateMatched(best, current, p2);
    return IntCompare(matched1, matched2);
  }

  /** The partition key order is antisymmetric and transitive, so the partition order is a total preorder. */
  lemma PartitionKeyOrder(a: PartitionKey, b: PartitionKey, c: PartitionKey)
    ensures PartitionKeyCompare(b, a) == -PartitionKeyCompare(a, b)
    ensures PartitionKeyCompare(a, b) < 0 && PartitionKeyCompare(b, c) < 0 ==> PartitionKeyCompare(a, c) < 0
    ensures PartitionKeyCompare(a, b) == 0 <==> a == b
  {
  }
}
