/**
  The capacity guard run after the intermediate placement is computed. It
  counts, for every instance, the replicas the placement gives it: one per
  partition of a resource, skipping replicas headed for DROPPED and skipping
  resources of the task state model altogether. The first time a count goes
  past the configured maximum the tick fails, and the cluster is asked to
  enter maintenance mode when a manager is at hand and maintenance is not
  already on. The order in which resources, partitions and instances are
  visited is unspecified, so the contract is stated for every order.
 */
module CapacityGuard {
  import opened HelixTypes

  type Replica = (ResourceName, Partition, Instance)

  /**
    `Exceeded` names the instance whose count went past the maximum, the
    resource being counted at that moment, and whether maintenance mode is
    requested.
   */
  datatype Verdict = Within | Exceeded(instance: Instance, resource: ResourceName, requestMaintenance: bool)

  /** Resources of the task state model are throttled elsewhere and never counted. */
  predicate IsTaskResource(idealStates: map<ResourceName, IdealState>, r: ResourceName)
  {
    r in idealStates && idealStates[r].stateModelDefRef == TASK_STATE_MODEL
  }

  /** Instance `i` holds a counted replica of partition `p` of resource `r`. */
  predicate IsReplica(out: map<ResourceName, PartitionStateMap>, idealStates: map<ResourceName, IdealState>,
                      r: ResourceName, p: Partition, i: Instance)
  {
    r in out && !IsTaskResource(idealStates, r) && p in out[r] && i in out[r][p] && out[r][p][i] != DROPPED
  }

  /** Every counted replica of the placement. */
  function Replicas(out: map<ResourceName, PartitionStateMap>, idealStates: map<ResourceName, IdealState>)
    : set<Replica>
  {
    set r, p, i | r in out && !IsTaskResource(idealStates, r) && p in out[r] && i in out[r][p]
                  && out[r][p][i] != DROPPED :: (r, p, i)
  }

  /** Number of replicas of `rs` held by instance `i`. */
  function Load(rs: set<Replica>, i: Instance): nat
  {
    |set t | t in rs && t.2 == i|
  }

  /** The placement respects the maximum: no instance holds more counted replicas than allowed. */
  predicate WithinCapacity(out: map<ResourceName, PartitionStateMap>, idealStates: map<ResourceName, IdealState>,
                           maxPartitionPerInstance: int)
  {
    forall t :: t in Replicas(out, idealStates) ==> Load(Replicas(out, idealStates), t.2) <= maxPartitionPerInstance
  }

  /** Adding a replica not yet counted raises its own instance's load by one and no other. */
  lemma LoadAdd(rs: set<Replica>, t: Replica, j: Instance)
    requires t !in rs
    ensures Load(rs + {t}, j) == Load(rs, j) + (if t.2 == j then 1 else 0)
  {
    var before := set u | u in rs && u.2 == j;
    var after := set u | u in rs + {t} && u.2 == j;
    if t.2 == j {
      assert after == before + {t};
    } else {
      assert after == before;
    }
  }

  /** Counting over more replicas never gives a smaller load. */
  lemma LoadMonotone(a: set<Replica>, b: set<Replica>, j: Instance)
    requires a <= b
    ensures Load(a, j) <= Load(b, j)
  {
    var sa := set u | u in a && u.2 == j;
    var sb := set u | u in b && u.2 == j;
    assert sa <= sb;
    assert |sb| == |sa| + |sb - sa|;
  }

  function Tally(counts: map<Instance, int>, i: Instance): int
  {
    if i in counts then counts[i] else 0
  }

  /** Everything counted so far is a counted replica of the placement. */
  ghost predicate Sound(out: map<ResourceName, PartitionStateMap>, idealStates: map<ResourceName, IdealState>,
                        seen: set<Replica>)
  {
    forall t :: t in seen ==> IsReplica(out, idealStates, t.0, t.1, t.2)
  }

  /** The running counts are the loads of what was counted, none of them past the maximum. */
  ghost predicate Tallied(counts: map<Instance, int>, seen: set<Replica>, maxPartitionPerInstance: int)
  {
    && (forall j :: Tally(counts, j) == Load(seen, j))
    && (forall t :: t in seen ==> Load(seen, t.2) <= maxPartitionPerInstance)
  }

  /**
    Where the walk stands: resources `doneR` are finished, and in resource
    `r` partitions `doneP` are finished, and in partition `p` instances
    `doneI` are finished.
   */
  ghost predicate Visited(doneR: set<ResourceName>, r: ResourceName, doneP: set<Partition>, p: Partition,
                          doneI: set<Instance>, t: Replica)
  {
    t.0 in doneR || (t.0 == r && (t.1 in doneP || (t.1 == p && t.2 in doneI)))
  }

  /** Exactly the replicas at visited positions have been counted. */
  ghost predicate CountedUpTo(out: map<ResourceName, PartitionStateMap>, idealStates: map<ResourceName, IdealState>,
                              seen: set<Replica>, doneR: set<ResourceName>, r: ResourceName,
                              doneP: set<Partition>, p: Partition, doneI: set<Instance>)
  {
    && (forall t :: t in seen ==> Visited(doneR, r, doneP, p, doneI, t))
    && (forall r', p', i' :: IsReplica(out, idealStates, r', p', i') && Visited(doneR, r, doneP, p, doneI, (r', p', i'))
          ==> (r', p', i') in seen)
  }

  /** Finishing the last instance of partition `p` finishes the partition. */
  lemma FinishPartition(out: map<ResourceName, PartitionStateMap>, idealStates: map<ResourceName, IdealState>,
                        seen: set<Replica>, doneR: set<ResourceName>, r: ResourceName,
                        doneP: set<Partition>, p: Partition, p2: Partition)
    requires r in out && p in out[r]
    requires CountedUpTo(out, idealStates, seen, doneR, r, doneP, p, out[r][p].Keys)
    ensures CountedUpTo(out, idealStates, seen, doneR, r, doneP + {p}, p2, {})
  {
  }

  /** Finishing the last partition of resource `r` finishes the resource. */
  lemma FinishResource(out: map<ResourceName, PartitionStateMap>, idealStates: map<ResourceName, IdealState>,
                       seen: set<Replica>, doneR: set<ResourceName>, r: ResourceName, p: Partition,
                       r2: ResourceName, p2: Partition)
    requires r in out
    requires CountedUpTo(out, idealStates, seen, doneR, r, out[r].Keys, p, {})
    ensures CountedUpTo(out, idealStates, seen, doneR + {r}, r2, {}, p2, {})
  {
  }

  /** A task resource holds no counted replica, so skipping it finishes it. */
  lemma SkipResource(out: map<ResourceName, PartitionStateMap>, idealStates: map<ResourceName, IdealState>,
                     seen: set<Replica>, doneR: set<ResourceName>, r: ResourceName, p: Partition,
                     r2: ResourceName, p2: Partition)
    requires IsTaskResource(idealStates, r)
    requires CountedUpTo(out, idealStates, seen, doneR, r, {}, p, {})
    ensures CountedUpTo(out, idealStates, seen, doneR + {r}, r2, {}, p2, {})
  {
  }

  /** Before any partition of a resource is visited, which resource is current does not matter. */
  lemma StartResource(out: map<ResourceName, PartitionStateMap>, idealStates: map<ResourceName, IdealState>,
                      seen: set<Replica>, doneR: set<ResourceName>, r: ResourceName, r2: ResourceName)
    requires CountedUpTo(out, idealStates, seen, doneR, r, {}, "", {})
    ensures CountedUpTo(out, idealStates, seen, doneR, r2, {}, "", {})
  {
  }

  /** Before any instance of a partition is visited, which partition is current does not matter. */
  lemma StartPartition(out: map<ResourceName, PartitionStateMap>, idealStates: map<ResourceName, IdealState>,
                       seen: set<Replica>, doneR: set<ResourceName>, r: ResourceName,
                       doneP: set<Partition>, p: Partition, p2: Partition)
    requires CountedUpTo(out, idealStates, seen, doneR, r, doneP, p, {})
    ensures CountedUpTo(out, idealStates, seen, doneR, r, doneP, p2, {})
  {
  }

  /** Visiting one more instance: a DROPPED replica is passed over, any other is counted. */
  lemma VisitInstance(out: map<ResourceName, PartitionStateMap>, idealStates: map<ResourceName, IdealState>,
                      seen: set<Replica>, doneR: set<ResourceName>, r: ResourceName,
                      doneP: set<Partition>, p: Partition, doneI: set<Instance>, i: Instance)
    requires r in out && !IsTaskResource(idealStates, r) && p in out[r] && i in out[r][p]
    requires r !in doneR && p !in doneP && i !in doneI
    requires CountedUpTo(out, idealStates, seen, doneR, r, doneP, p, doneI)
    ensures (r, p, i) !in seen
    ensures var next := if out[r][p][i] == DROPPED then seen else seen + {(r, p, i)};
            CountedUpTo(out, idealStates, next, doneR, r, doneP, p, doneI + {i})
  {
  }

  /** Counting one more replica keeps the counts equal to the loads. */
  lemma CountReplica(counts: map<Instance, int>, seen: set<Replica>, t: Replica, maxPartitionPerInstance: int)
    requires Tallied(counts, seen, maxPartitionPerInstance)
    requires t !in seen
    requires Tally(counts, t.2) + 1 <= maxPartitionPerInstance
    ensures Tallied(counts[t.2 := Tally(counts, t.2) + 1], seen + {t}, maxPartitionPerInstance)
  {
    var counts' := counts[t.2 := Tally(counts, t.2) + 1];
    forall j ensures Tally(counts', j) == Load(seen + {t}, j) {
      LoadAdd(seen, t, j);
    }
    forall u | u in seen + {t} ensures Load(seen + {t}, u.2) <= maxPartitionPerInstance {
      LoadAdd(seen, t, u.2);
    }
  }

  /** Once the whole placement is walked, what was counted is every counted replica. */
  lemma CountedAll(out: map<ResourceName, PartitionStateMap>, idealStates: map<ResourceName, IdealState>,
                   seen: set<Replica>, r: ResourceName, p: Partition)
    requires Sound(out, idealStates, seen)
    requires CountedUpTo(out, idealStates, seen, out.Keys, r, {}, p, {})
    ensures seen == Replicas(out, idealStates)
  {
    forall t | t in Replicas(out, idealStates) ensures t in seen {
      assert IsReplica(out, idealStates, t.0, t.1, t.2);
    }
  }

  /** A walk that finished without passing the maximum has shown the placement within capacity. */
  lemma FinishedWithin(out: map<ResourceName, PartitionStateMap>, idealStates: map<ResourceName, IdealState>,
                       seen: set<Replica>, counts: map<Instance, int>, maxPartitionPerInstance: int)
    requires Sound(out, idealStates, seen) && Tallied(counts, seen, maxPartitionPerInstance)
    requires CountedUpTo(out, idealStates, seen, out.Keys, "", {}, "", {})
    ensures WithinCapacity(out, idealStates, maxPartitionPerInstance)
  {
    CountedAll(out, idealStates, seen, "", "");
  }

  /**
    Counts the replicas of partition `p` of resource `r`, instance by
    instance, stopping at the first instance whose count goes past the maximum.
   */
  method CountPartition(out: map<ResourceName, PartitionStateMap>, idealStates: map<ResourceName, IdealState>,
                        r: ResourceName, p: Partition, counts: map<Instance, int>, maxPartitionPerInstance: int,
                        ghost seen: set<Replica>, ghost doneR: set<ResourceName>, ghost doneP: set<Partition>)
    returns (counts': map<Instance, int>, over: Option<Instance>, ghost seen': set<Replica>)
    requires r in out && !IsTaskResource(idealStates, r) && p in out[r] && r !in doneR && p !in doneP
    requires Sound(out, idealStates, seen) && Tallied(counts, seen, maxPartitionPerInstance)
    requires CountedUpTo(out, idealStates, seen, doneR, r, doneP, p, {})
    ensures over.None? ==> && Sound(out, idealStates, seen') && Tallied(counts', seen', maxPartitionPerInstance)
                           && CountedUpTo(out, idealStates, seen', doneR, r, doneP + {p}, "", {})
    ensures over.Some? ==> IsReplica(out, idealStates, r, p, over.value)
                           && Load(Replicas(out, idealStates), over.value) > maxPartitionPerInstance
                           && !WithinCapacity(out, idealStates, maxPartitionPerInstance)
  {
    counts' := counts;
    seen' := seen;
    var stateMap := out[r][p];
    ghost var doneI: set<Instance> := {};
    var instances := stateMap.Keys;
    while instances != {}
      invariant instances == stateMap.Keys - doneI && doneI <= stateMap.Keys
      invariant Sound(out, idealStates, seen') && Tallied(counts', seen', maxPartitionPerInstance)
      invariant CountedUpTo(out, idealStates, seen', doneR, r, doneP, p, doneI)
      decreases instances
    {
      var instance :| instance in instances;
      VisitInstance(out, idealStates, seen', doneR, r, doneP, p, doneI, instance);
      var state := stateMap[instance];
      if state != DROPPED {
        var partitionCount := Tally(counts', instance) + 1;
        if partitionCount > maxPartitionPerInstance {
          ExceededWitness(out, idealStates, seen', counts', r, p, instance, maxPartitionPerInstance);
          return counts', Some(instance), seen';
        }
        CountReplica(counts', seen', (r, p, instance), maxPartitionPerInstance);
        counts' := counts'[instance := partitionCount];
        seen' := seen' + {(r, p, instance)};
      }
      doneI := doneI + {instance};
      instances := instances - {instance};
    }
    FinishPartition(out, idealStates, seen', doneR, r, doneP, p, "");
    over := None;
  }

  /** Counts the replicas of resource `r`, partition by partition, stopping as `CountPartition` does. */
  method CountResource(out: map<ResourceName, PartitionStateMap>, idealStates: map<ResourceName, IdealState>,
                       r: ResourceName, counts: map<Instance, int>, maxPartitionPerInstance: int,
                       ghost seen: set<Replica>, ghost doneR: set<ResourceName>)
    returns (counts': map<Instance, int>, over: Option<Instance>, ghost seen': set<Replica>)
    requires r in out && !IsTaskResource(idealStates, r) && r !in doneR
    requires Sound(out, idealStates, seen) && Tallied(counts, seen, maxPartitionPerInstance)
    requires CountedUpTo(out, idealStates, seen, doneR, r, {}, "", {})
    ensures over.None? ==> && Sound(out, idealStates, seen') && Tallied(counts', seen', maxPartitionPerInstance)
                           && CountedUpTo(out, idealStates, seen', doneR + {r}, "", {}, "", {})
    ensures over.Some? ==> (exists p :: IsReplica(out, idealStates, r, p, over.value))
                           && Load(Replicas(out, idealStates), over.value) > maxPartitionPerInstance
                           && !WithinCapacity(out, idealStates, maxPartitionPerInstance)
  {
    counts' := counts;
    seen' := seen;
    ghost var doneP: set<Partition> := {};
    var partitions := out[r].Keys;
    while partitions != {}
      invariant partitions == out[r].Keys - doneP && doneP <= out[r].Keys
      invariant Sound(out, idealStates, seen') && Tallied(counts', seen', maxPartitionPerInstance)
      invariant CountedUpTo(out, idealStates, seen', doneR, r, doneP, "", {})
      decreases partitions
    {
      var p :| p in partitions;
      StartPartition(out, idealStates, seen', doneR, r, doneP, "", p);
      counts', over, seen' := CountPartition(out, idealStates, r, p, counts', maxPartitionPerInstance,
                                             seen', doneR, doneP);
      if over.Some? {
        return;
      }
      doneP := doneP + {p};
      partitions := partitions - {p};
    }
    FinishResource(out, idealStates, seen', doneR, r, "", "", "");
    over := None;
  }

  /**
    Walks the placement and fails on the first instance whose count goes past
    the maximum. Whatever the order of the walk, it fails exactly when the
    placement is not within capacity; a failure names an instance that is
    over the maximum and a counted resource it holds a replica of, and
    requests maintenance mode exactly when a manager is present and
    maintenance is not already on.
   */
  method ValidateMaxPartitionsPerInstance(out: map<ResourceName, PartitionStateMap>,
                                          idealStates: map<ResourceName, IdealState>,
                                          maxPartitionPerInstance: int,
                                          haveManager: bool, maintenanceActive: bool)
    returns (v: Verdict)
    ensures v.Within? <==> WithinCapacity(out, idealStates, maxPartitionPerInstance)
    ensures v.Exceeded? ==> Load(Replicas(out, idealStates), v.instance) > maxPartitionPerInstance
    ensures v.Exceeded? ==> v.resource in out && !IsTaskResource(idealStates, v.resource)
                            && exists p :: IsReplica(out, idealStates, v.resource, p, v.instance)
    ensures v.Exceeded? ==> (v.requestMaintenance <==> haveManager && !maintenanceActive)
  {
    var counts: map<Instance, int> := map[];
    ghost var seen: set<Replica> := {};
    ghost var doneR: set<ResourceName> := {};
    var resources := out.Keys;
    while resources != {}
      invariant resources == out.Keys - doneR && doneR <= out.Keys
      invariant Sound(out, idealStates, seen) && Tallied(counts, seen, maxPartitionPerInstance)
      invariant CountedUpTo(out, idealStates, seen, doneR, "", {}, "", {})
      decreases resources
    {
      var r :| r in resources;
      StartResource(out, idealStates, seen, doneR, "", r);
      if IsTaskResource(idealStates, r) {
        SkipResource(out, idealStates, seen, doneR, r, "", "", "");
      } else {
        var over;
        counts, over, seen := CountResource(out, idealStates, r, counts, maxPartitionPerInstance, seen, doneR);
        if over.Some? {
          return Exceeded(over.value, r, haveManager && !maintenanceActive);
        }
      }
      doneR := doneR + {r};
      resources := resources - {r};
    }
    FinishedWithin(out, idealStates, seen, counts, maxPartitionPerInstance);
    v := Within;
  }

  /** An instance whose running count goes past the maximum is over the maximum in the whole placement. */
  lemma ExceededWitness(out: map<ResourceName, PartitionStateMap>, idealStates: map<ResourceName, IdealState>,
                        seen: set<Replica>, counts: map<Instance, int>,
                        r: ResourceName, p: Partition, i: Instance, maxPartitionPerInstance: int)
    requires Sound(out, idealStates, seen) && Tallied(counts, seen, maxPartitionPerInstance)
    requires IsReplica(out, idealStates, r, p, i) && (r, p, i) !in seen
    requires Tally(counts, i) + 1 > maxPartitionPerInstance
    ensures (r, p, i) in Replicas(out, idealStates)
    ensures Load(Replicas(out, idealStates), i) > maxPartitionPerInstance
    ensures !WithinCapacity(out, idealStates, maxPartitionPerInstance)
  {
    var all := Replicas(out, idealStates);
    assert (r, p, i) in all;
    assert seen + {(r, p, i)} <= all;
    LoadAdd(seen, (r, p, i), i);
    LoadMonotone(seen + {(r, p, i)}, all, i);
  }
}
