/**
  The pending-transition charger. Messages issued in an earlier tick and not
  yet confirmed are replayed against the throttle ledger: each one whose
  source state still is the target instance's current state, whose target
  state differs from it, and whose instance is not disabled for the
  partition is charged at instance, resource and cluster scope, without
  asking whether quota is left. Whether charged or not, every pending
  message's target state is written into the intermediate placement.
 */
module PendingCharger {
  import opened HelixTypes
  import opened ThrottleLedger
  import opened RebalanceClassifier

  /** What classifying and charging a pending message of one partition depends on. */
  datatype PartitionContext = PartitionContext(
    resource: ResourceName,
    required: map<State, int>,
    current: StateMap,
    disabled: set<Instance>)

  /** The message is still in flight from the instance's current state and the instance takes part. */
  predicate ChargesQuota(msg: Message, ctx: PartitionContext)
  {
    && msg.tgtName in ctx.current
    && ctx.current[msg.tgtName] != msg.toState
    && ctx.current[msg.tgtName] == msg.fromState
    && msg.tgtName !in ctx.disabled
  }

  function PendingType(msg: Message, ctx: PartitionContext): RebalanceType
  {
    MessageRebalanceType(ctx.required, msg, ctx.current)
  }

  /** The counters one message charges. */
  function ChargesOf(msg: Message, ctx: PartitionContext): multiset<Counter>
  {
    if ChargesQuota(msg, ctx) then
      var t := PendingType(msg, ctx);
      multiset{(OfInstance(msg.tgtName), t), (OfResource(ctx.resource), t), (Cluster, t)}
    else multiset{}
  }

  /** All counters charged for a list of pending messages. */
  function PendingCharges(msgs: seq<Message>, ctx: PartitionContext): multiset<Counter>
    decreases |msgs|
  {
    if msgs == [] then multiset{}
    else ChargesOf(msgs[0], ctx) + PendingCharges(msgs[1..], ctx)
  }

  /** Every message still in flight charges its instance, the resource and the cluster, in its own category. */
  lemma {:induction false} PendingChargesComplete(msgs: seq<Message>, ctx: PartitionContext, m: Message)
    requires m in msgs && ChargesQuota(m, ctx)
    ensures (OfInstance(m.tgtName), PendingType(m, ctx)) in PendingCharges(msgs, ctx)
    ensures (OfResource(ctx.resource), PendingType(m, ctx)) in PendingCharges(msgs, ctx)
    ensures (Cluster, PendingType(m, ctx)) in PendingCharges(msgs, ctx)
    decreases |msgs|
  {
    if msgs[0] != m {
      PendingChargesComplete(msgs[1..], ctx, m);
    }
  }

  /**
    Nothing else is charged: each counter charged belongs to a message still
    in flight, in that message's category, at the cluster, the resource or
    the message's own instance.
   */
  lemma {:induction false} PendingChargesSound(msgs: seq<Message>, ctx: PartitionContext, c: Counter)
    requires c in PendingCharges(msgs, ctx)
    ensures exists m :: m in msgs && ChargesQuota(m, ctx) && c.1 == PendingType(m, ctx)
                        && (c.0 == Cluster || c.0 == OfResource(ctx.resource) || c.0 == OfInstance(m.tgtName))
    decreases |msgs|
  {
    if c in ChargesOf(msgs[0], ctx) {
      assert msgs[0] in msgs;
    } else {
      PendingChargesSound(msgs[1..], ctx, c);
      var m :| m in msgs[1..] && ChargesQuota(m, ctx) && c.1 == PendingType(m, ctx)
               && (c.0 == Cluster || c.0 == OfResource(ctx.resource) || c.0 == OfInstance(m.tgtName));
      assert m in msgs;
    }
  }

  /** The cluster counter and the resource counter of a category move in step. */
  lemma {:induction false} PendingChargesClusterMatchesResource(msgs: seq<Message>, ctx: PartitionContext, t: RebalanceType)
    ensures PendingCharges(msgs, ctx)[(Cluster, t)] == PendingCharges(msgs, ctx)[(OfResource(ctx.resource), t)]
    decreases |msgs|
  {
    if msgs != [] {
      PendingChargesClusterMatchesResource(msgs[1..], ctx, t);
    }
  }

  /** Instances targeted by some message of the list. */
  function Targets(msgs: seq<Message>): (r: set<Instance>)
    ensures forall m :: m in msgs ==> m.tgtName in r
    decreases |msgs|
  {
    if msgs == [] then {} else {msgs[0].tgtName} + Targets(msgs[1..])
  }

  /** An instance is a target exactly when some message of the list addresses it. */
  lemma {:induction false} TargetsMembership(msgs: seq<Message>, i: Instance)
    ensures i in Targets(msgs) <==> exists m :: m in msgs && m.tgtName == i
    decreases |msgs|
  {
    if msgs != [] {
      TargetsMembership(msgs[1..], i);
      if i !in Targets(msgs) {
        forall m | m in msgs ensures m.tgtName != i {
          if m != msgs[0] {
            assert m in msgs[1..];
          }
        }
      }
    }
  }

  /** No two different messages of the list target the same instance. */
  predicate TargetsFunctional(msgs: seq<Message>)
  {
    forall m1, m2 :: m1 in msgs && m2 in msgs && m1.tgtName == m2.tgtName ==> m1 == m2
  }

  datatype ChargeOutcome = ChargeOutcome(ledger: Ledger, row: StateMap)

  /** Charges one pending message at instance, resource and cluster scope when it is still in flight. */
  function ChargeMessage(l: Ledger, msg: Message, ctx: PartitionContext): (r: Ledger)
    ensures r.enabled == l.enabled && r.limits == l.limits
    ensures r.charged == l.charged + ChargesOf(msg, ctx)
  {
    if ChargesQuota(msg, ctx) then
      var t := PendingType(msg, ctx);
      ChargeCluster(ChargeResource(ChargeInstance(l, t, msg.tgtName), t, ctx.resource), t)
    else l
  }

  /**
    Charges the pending messages of one partition in list order and writes
    their target states into the partition's intermediate row. The ledger
    gains exactly the pending charges and the row gains every target instance.
   */
  function ChargeMessages(l: Ledger, row: StateMap, msgs: seq<Message>, ctx: PartitionContext): (r: ChargeOutcome)
    ensures r.ledger == l.(charged := l.charged + PendingCharges(msgs, ctx))
    ensures r.row.Keys == row.Keys + Targets(msgs)
    decreases |msgs|
  {
    if msgs == [] then ChargeOutcome(l, row)
    else
      var msg := msgs[0];
      var r := ChargeMessages(ChargeMessage(l, msg, ctx), row[msg.tgtName := msg.toState], msgs[1..], ctx);
      RowKeysStep(row, msgs, r.row);
      LedgerStep(l, msgs, ctx, r.ledger);
      r
  }

  /** Charging the first message and then the rest charges exactly the pending charges of the list. */
  lemma LedgerStep(l: Ledger, msgs: seq<Message>, ctx: PartitionContext, after: Ledger)
    requires msgs != []
    requires after == ChargeMessage(l, msgs[0], ctx).(charged := ChargeMessage(l, msgs[0], ctx).charged
                                                                + PendingCharges(msgs[1..], ctx))
    ensures after == l.(charged := l.charged + PendingCharges(msgs, ctx))
  {
    assert PendingCharges(msgs, ctx) == ChargesOf(msgs[0], ctx) + PendingCharges(msgs[1..], ctx);
  }

  /** Writing the first message and then the rest adds exactly the targets of the whole list. */
  lemma RowKeysStep(row: StateMap, msgs: seq<Message>, after: StateMap)
    requires msgs != []
    requires after.Keys == row[msgs[0].tgtName := msgs[0].toState].Keys + Targets(msgs[1..])
    ensures after.Keys == row.Keys + Targets(msgs)
  {
  }

  /** Entries of the row that no message targets survive charging. */
  lemma {:induction false} ChargeMessagesKeeps(l: Ledger, row: StateMap, msgs: seq<Message>, ctx: PartitionContext, i: Instance)
    requires i in row && i !in Targets(msgs)
    ensures ChargeMessages(l, row, msgs, ctx).row[i] == row[i]
    decreases |msgs|
  {
    if msgs != [] {
      var msg := msgs[0];
      ChargeMessagesKeeps(ChargeMessage(l, msg, ctx), row[msg.tgtName := msg.toState], msgs[1..], ctx, i);
    }
  }

  /**
    A message whose instance no later message targets leaves its target state
    in the row; with one message per instance, every message does.
   */
  lemma {:induction false} ChargeMessagesWrites(l: Ledger, row: StateMap, msgs: seq<Message>, ctx: PartitionContext, m: Message)
    requires m in msgs && TargetsFunctional(msgs)
    ensures ChargeMessages(l, row, msgs, ctx).row[m.tgtName] == m.toState
    decreases |msgs|
  {
    var msg := msgs[0];
    var rest := msgs[1..];
    assert TargetsFunctional(rest) by {
      assert forall x :: x in rest ==> x in msgs;
    }
    if m in rest {
      ChargeMessagesWrites(ChargeMessage(l, msg, ctx), row[msg.tgtName := msg.toState], rest, ctx, m);
    } else {
      assert m == msg;
      assert m.tgtName !in Targets(rest) by {
        forall x | x in rest ensures x.tgtName != m.tgtName {
          assert x in msgs;
        }
        TargetsMembership(rest, m.tgtName);
      }
      ChargeMessagesKeeps(ChargeMessage(l, msg, ctx), row[msg.tgtName := msg.toState], rest, ctx, m.tgtName);
    }
  }

  lemma {:induction false} PendingChargesAppend(a: seq<Message>, b: seq<Message>, ctx: PartitionContext)
    ensures PendingCharges(a + b, ctx) == PendingCharges(a, ctx) + PendingCharges(b, ctx)
    decreases |a|
  {
    if a != [] {
      assert (a + b)[1..] == a[1..] + b;
      PendingChargesAppend(a[1..], b, ctx);
    } else {
      assert a + b == b;
    }
  }

  /** The charges of a list are those of its element at `j` plus those of the rest. */
  lemma PendingChargesRemoveAt(b: seq<Message>, j: nat, ctx: PartitionContext)
    requires j < |b|
    ensures PendingCharges(b, ctx) == ChargesOf(b[j], ctx) + PendingCharges(b[..j] + b[j + 1..], ctx)
  {
    var front, back := b[..j], b[j + 1..];
    assert b == (front + [b[j]]) + back;
    PendingChargesAppend(front + [b[j]], back, ctx);
    PendingChargesAppend(front, [b[j]], ctx);
    PendingChargesAppend(front, back, ctx);
    assert PendingCharges([b[j]], ctx) == ChargesOf(b[j], ctx) by {
      assert [b[j]][1..] == [];
    }
  }

  /**
    Takes the head of `a` out of `b`, which holds the same messages: what is
    left holds the same messages as the tail of `a`, and the head's charges
    plus the charges of what is left are the charges of `b`.
   */
  lemma RemoveHead(a: seq<Message>, b: seq<Message>, ctx: PartitionContext) returns (rest: seq<Message>)
    requires a != [] && multiset(a) == multiset(b)
    ensures multiset(a[1..]) == multiset(rest)
    ensures PendingCharges(b, ctx) == ChargesOf(a[0], ctx) + PendingCharges(rest, ctx)
  {
    var x := a[0];
    var j := IndexOf(b, x, multiset(a));
    rest := b[..j] + b[j + 1..];
    MultisetTail(a);
    MultisetRemoveAt(b, j);
    PendingChargesRemoveAt(b, j, ctx);
  }

  /** A position at which `x` occurs in `b`, given that it occurs in the multiset `ms` of `b`. */
  lemma IndexOf(b: seq<Message>, x: Message, ms: multiset<Message>) returns (j: nat)
    requires ms == multiset(b) && x in ms
    ensures j < |b| && b[j] == x
  {
    assert x in b;
    j :| 0 <= j < |b| && b[j] == x;
  }

  lemma MultisetTail(a: seq<Message>)
    requires a != []
    ensures multiset(a[1..]) == multiset(a) - multiset{a[0]}
  {
    assert a == [a[0]] + a[1..];
  }

  /** The charges of a list of pending messages do not depend on the list's order. */
  lemma {:induction false} PendingChargesOrderFree(a: seq<Message>, b: seq<Message>, ctx: PartitionContext)
    requires multiset(a) == multiset(b)
    ensures PendingCharges(a, ctx) == PendingCharges(b, ctx)
    decreases |a|
  {
    if a == [] {
      assert |multiset(b)| == 0;
    } else {
      var rest := RemoveHead(a, b, ctx);
      PendingChargesOrderFree(a[1..], rest, ctx);
    }
  }

  /**
    Charging pending messages gives the same ledger and the same row whatever
    order the messages come in, so the order the source sorts them into
    before charging has no effect on the outcome.
   */
  lemma ChargeMessagesOrderFree(l: Ledger, row: StateMap, a: seq<Message>, b: seq<Message>,
                                ctx: PartitionContext)
    requires multiset(a) == multiset(b)
    requires TargetsFunctional(a)
    ensures ChargeMessages(l, row, a, ctx) == ChargeMessages(l, row, b, ctx)
  {
    PendingChargesOrderFree(a, b, ctx);
    TargetsOrderFree(a, b);
    var ra := ChargeMessages(l, row, a, ctx);
    var rb := ChargeMessages(l, row, b, ctx);
    forall i | i in ra.row
      ensures ra.row[i] == rb.row[i]
    {
      if i in Targets(a) {
        TargetsMembership(a, i);
        var m :| m in a && m.tgtName == i;
        assert m in multiset(b);
        ChargeMessagesWrites(l, row, a, ctx, m);
        ChargeMessagesWrites(l, row, b, ctx, m);
      } else {
        ChargeMessagesKeeps(l, row, a, ctx, i);
        ChargeMessagesKeeps(l, row, b, ctx, i);
      }
    }
  }

  /** Lists with the same multiset of messages target the same instances, and as functionally. */
  lemma TargetsOrderFree(a: seq<Message>, b: seq<Message>)
    requires multiset(a) == multiset(b)
    ensures Targets(a) == Targets(b)
    ensures TargetsFunctional(a) ==> TargetsFunctional(b)
  {
    SameMembers(a, b);
    forall i ensures i in Targets(a) <==> i in Targets(b) {
      TargetsMembership(a, i);
      TargetsMembership(b, i);
    }
  }

  /** Lists with the same multiset of messages have the same members. */
  lemma SameMembers(a: seq<Message>, b: seq<Message>)
    requires multiset(a) == multiset(b)
    ensures forall m :: m in a <==> m in b
  {
    forall m ensures m in a <==> m in b {
      assert m in a <==> m in multiset(a);
      assert m in b <==> m in multiset(b);
    }
  }

  /** The counters charged by the pending message of instance `i`, if it has one. */
  function InstanceCharges(pending: map<Instance, Message>, i: Instance, ctx: PartitionContext): multiset<Counter>
  {
    if i in pending then ChargesOf(pending[i], ctx) else multiset{}
  }

  /** The counters charged by the pending messages of the instances `done`, taken in no particular order. */
  ghost function ChargesAmong(pending: map<Instance, Message>, done: set<Instance>, ctx: PartitionContext)
    : multiset<Counter>
    decreases done
  {
    if done == {} then multiset{}
    else
      var i := Pick(done);
      InstanceCharges(pending, i, ctx) + ChargesAmong(pending, done - {i}, ctx)
  }

  /** The counters charged by all pending messages of a partition. */
  ghost function PartitionCharges(pending: map<Instance, Message>, ctx: PartitionContext): multiset<Counter>
  {
    ChargesAmong(pending, pending.Keys, ctx)
  }

  /** Any instance of `done` may be taken first: the charges do not depend on the order. */
  lemma {:induction false} ChargesAmongRemove(pending: map<Instance, Message>, done: set<Instance>,
                                              ctx: PartitionContext, x: Instance)
    requires x in done
    ensures ChargesAmong(pending, done, ctx)
            == InstanceCharges(pending, x, ctx) + ChargesAmong(pending, done - {x}, ctx)
    decreases done
  {
    var y := Pick(done);
    if y != x {
      ChargesAmongRemove(pending, done - {y}, ctx, x);
      ChargesAmongRemove(pending, done - {x}, ctx, y);
      assert done - {y} - {x} == done - {x} - {y};
    }
  }

  /** Every charge among `done` comes from the pending message of some instance of `done`. */
  lemma {:induction false} ChargesAmongSound(pending: map<Instance, Message>, done: set<Instance>,
                                             ctx: PartitionContext, c: Counter)
    requires c in ChargesAmong(pending, done, ctx)
    ensures exists i :: i in done && c in InstanceCharges(pending, i, ctx)
    decreases done
  {
    var y := Pick(done);
    if c !in InstanceCharges(pending, y, ctx) {
      ChargesAmongSound(pending, done - {y}, ctx, c);
    }
  }

  /** Why charging a resource's pending transitions stops the tick. */
  datatype StageError =
    | MissingPreferenceList(partition: Partition)
    | DuplicatePreferenceEntry(partition: Partition)

  /** The partition's preference list exists and names no instance twice. */
  predicate PreferenceListUsable(v: ResourceView, p: Partition)
  {
    p in v.preferenceLists && Distinct(v.preferenceLists[p])
  }

  /** Lists the pending messages of a partition, each once, in an unspecified order. */
  method EnumeratePending(pending: map<Instance, Message>) returns (msgs: seq<Message>)
    requires forall i :: i in pending ==> pending[i].tgtName == i
    ensures forall m :: m in msgs <==> m.tgtName in pending && pending[m.tgtName] == m
    ensures Targets(msgs) == pending.Keys
    ensures TargetsFunctional(msgs)
    ensures forall ctx :: PendingCharges(msgs, ctx) == PartitionCharges(pending, ctx)
  {
    msgs := [];
    var todo := pending.Keys;
    while todo != {}
      invariant todo <= pending.Keys
      invariant forall m :: m in msgs <==> m.tgtName in pending - todo && pending[m.tgtName] == m
      invariant forall ctx :: PendingCharges(msgs, ctx) == ChargesAmong(pending, pending.Keys - todo, ctx)
      decreases todo
    {
      var i :| i in todo;
      ghost var done := pending.Keys - todo;
      forall ctx
        ensures PendingCharges(msgs + [pending[i]], ctx) == ChargesAmong(pending, done + {i}, ctx)
      {
        EnumerateStep(msgs, pending, done, i, ctx);
      }
      msgs := msgs + [pending[i]];
      todo := todo - {i};
      assert pending.Keys - todo == done + {i};
    }
    assert pending.Keys - todo == pending.Keys;
    forall i ensures i in Targets(msgs) <==> i in pending {
      TargetsMembership(msgs, i);
      if i in pending {
        assert pending[i] in msgs;
      }
    }
  }

  /** Listing the message of one more instance adds exactly that message's charges. */
  lemma EnumerateStep(msgs: seq<Message>, pending: map<Instance, Message>, done: set<Instance>, i: Instance,
                      ctx: PartitionContext)
    requires i in pending && i !in done
    requires PendingCharges(msgs, ctx) == ChargesAmong(pending, done, ctx)
    ensures PendingCharges(msgs + [pending[i]], ctx) == ChargesAmong(pending, done + {i}, ctx)
  {
    PendingChargesAppend(msgs, [pending[i]], ctx);
    assert PendingCharges([pending[i]], ctx) == ChargesOf(pending[i], ctx) by {
      assert [pending[i]][1..] == [];
    }
    ChargesAmongRemove(pending, done + {i}, ctx, i);
    assert done + {i} - {i} == done;
  }

  /** The context in which a partition's pending messages are classified and charged. */
  function ContextOf(v: ResourceView, p: Partition, enabledLive: set<Instance>): PartitionContext
    requires p in v.preferenceLists
  {
    PartitionContext(v.name, RequiredStates(v.idealState, v.stateModel, v.preferenceLists[p], enabledLive),
                     CurrentStateOf(v, p), DisabledOf(v, p))
  }

  /** The counters charged for the first `k` partitions of the resource. */
  ghost function ChargesUpTo(v: ResourceView, enabledLive: set<Instance>, k: nat): multiset<Counter>
    requires k <= |v.partitions|
    decreases k
  {
    if k == 0 then multiset{}
    else
      var p := v.partitions[k - 1];
      ChargesUpTo(v, enabledLive, k - 1)
        + (if p in v.preferenceLists then PartitionCharges(PendingOf(v, p), ContextOf(v, p, enabledLive))
           else multiset{})
  }

  /** The counters charged for all pending messages of the resource. */
  ghost function ResourcePendingCharges(v: ResourceView, enabledLive: set<Instance>): multiset<Counter>
  {
    ChargesUpTo(v, enabledLive, |v.partitions|)
  }

  lemma {:induction false} ChargesUpToComplete(v: ResourceView, enabledLive: set<Instance>, k: nat,
                                               p: Partition, i: Instance)
    requires k <= |v.partitions|
    requires p in v.partitions[..k] && p in v.preferenceLists && i in PendingOf(v, p)
    ensures InstanceCharges(PendingOf(v, p), i, ContextOf(v, p, enabledLive)) <= ChargesUpTo(v, enabledLive, k)
    decreases k
  {
    var q := v.partitions[k - 1];
    assert v.partitions[..k] == v.partitions[..k - 1] + [q];
    if q == p {
      ChargesAmongRemove(PendingOf(v, p), PendingOf(v, p).Keys, ContextOf(v, p, enabledLive), i);
    } else {
      ChargesUpToComplete(v, enabledLive, k - 1, p, i);
    }
  }

  lemma {:induction false} ChargesUpToSound(v: ResourceView, enabledLive: set<Instance>, k: nat, c: Counter)
    requires k <= |v.partitions| && c in ChargesUpTo(v, enabledLive, k)
    ensures exists p, i :: && p in v.partitions[..k] && p in v.preferenceLists && i in PendingOf(v, p)
                           && c in InstanceCharges(PendingOf(v, p), i, ContextOf(v, p, enabledLive))
    decreases k
  {
    var q := v.partitions[k - 1];
    assert v.partitions[..k] == v.partitions[..k - 1] + [q];
    if c in ChargesUpTo(v, enabledLive, k - 1) {
      ChargesUpToSound(v, enabledLive, k - 1, c);
      var p, i :| && p in v.partitions[..k - 1] && p in v.preferenceLists && i in PendingOf(v, p)
                  && c in InstanceCharges(PendingOf(v, p), i, ContextOf(v, p, enabledLive));
      assert p in v.partitions[..k];
    } else {
      ChargesAmongSound(PendingOf(v, q), PendingOf(v, q).Keys, ContextOf(v, q, enabledLive), c);
    }
  }

  /**
    Every pending message of the resource still in flight charges its
    instance, the resource and the cluster, in its own category.
   */
  lemma ResourcePendingChargesComplete(v: ResourceView, enabledLive: set<Instance>, p: Partition, i: Instance)
    requires WellFormedView(v)
    requires p in v.partitions && p in v.preferenceLists && i in PendingOf(v, p)
    requires ChargesQuota(PendingOf(v, p)[i], ContextOf(v, p, enabledLive))
    ensures var t := PendingType(PendingOf(v, p)[i], ContextOf(v, p, enabledLive));
            && (OfInstance(i), t) in ResourcePendingCharges(v, enabledLive)
            && (OfResource(v.name), t) in ResourcePendingCharges(v, enabledLive)
            && (Cluster, t) in ResourcePendingCharges(v, enabledLive)
  {
    assert v.partitions[..|v.partitions|] == v.partitions;
    ChargesUpToComplete(v, enabledLive, |v.partitions|, p, i);
  }

  /**
    Nothing else is charged: each charge belongs to a pending message still in
    flight, in its category, at the cluster, the resource or its instance.
   */
  lemma ResourcePendingChargesSound(v: ResourceView, enabledLive: set<Instance>, c: Counter)
    requires WellFormedView(v)
    requires c in ResourcePendingCharges(v, enabledLive)
    ensures exists p, i :: && p in v.partitions && p in v.preferenceLists && i in PendingOf(v, p)
                           && ChargesQuota(PendingOf(v, p)[i], ContextOf(v, p, enabledLive))
                           && c.1 == PendingType(PendingOf(v, p)[i], ContextOf(v, p, enabledLive))
                           && (c.0 == Cluster || c.0 == OfResource(v.name) || c.0 == OfInstance(i))
  {
    assert v.partitions[..|v.partitions|] == v.partitions;
    ChargesUpToSound(v, enabledLive, |v.partitions|, c);
    var p, i :| && p in v.partitions && p in v.preferenceLists && i in PendingOf(v, p)
                && c in InstanceCharges(PendingOf(v, p), i, ContextOf(v, p, enabledLive));
    var ctx := ContextOf(v, p, enabledLive);
    InstanceChargesSound(PendingOf(v, p), i, ctx, c);
    assert ctx.resource == v.name;
  }

  /** A counter charged by an instance's message names the cluster, the message's resource or that instance. */
  lemma InstanceChargesSound(pending: map<Instance, Message>, i: Instance, ctx: PartitionContext, c: Counter)
    requires i in pending && pending[i].tgtName == i
    requires c in InstanceCharges(pending, i, ctx)
    ensures ChargesQuota(pending[i], ctx) && c.1 == PendingType(pending[i], ctx)
    ensures c.0 == Cluster || c.0 == OfResource(ctx.resource) || c.0 == OfInstance(i)
  {
  }

  datatype PendingResult = PendingResult(ledger: Ledger, intermediate: PartitionStateMap)

  /** Partitions among the first `k` of the resource that have pending messages. */
  function Touched(v: ResourceView, k: nat): set<Partition>
    requires k <= |v.partitions|
  {
    set p | p in v.partitions[..k] && PendingOf(v, p) != map[]
  }

  /** `msgs` lists the pending messages of `pending`, each once. */
  ghost predicate Enumerates(msgs: seq<Message>, pending: map<Instance, Message>)
  {
    && (forall m :: m in msgs <==> m.tgtName in pending && pending[m.tgtName] == m)
    && Targets(msgs) == pending.Keys
    && TargetsFunctional(msgs)
    && (forall ctx :: PendingCharges(msgs, ctx) == PartitionCharges(pending, ctx))
  }

  /** Charges and writes the pending messages `msgs` of partition `p`. */
  function ChargePartition(acc: PendingResult, p: Partition, msgs: seq<Message>, ctx: PartitionContext): (r: PendingResult)
    ensures r.ledger == acc.ledger.(charged := acc.ledger.charged + PendingCharges(msgs, ctx))
  {
    var charged := ChargeMessages(acc.ledger, PartitionMap(acc.intermediate, p), msgs, ctx);
    if msgs == [] then acc
    else PendingResult(charged.ledger, acc.intermediate[p := charged.row])
  }

  /** What charging the first `k` partitions of the resource has achieved. */
  ghost predicate ChargedPrefix(l: Ledger, out: PartitionStateMap, v: ResourceView, k: nat, acc: PendingResult)
    requires k <= |v.partitions|
  {
    && acc.ledger.enabled == l.enabled && acc.ledger.limits == l.limits
    && l.charged <= acc.ledger.charged
    && acc.intermediate.Keys == out.Keys + Touched(v, k)
    && (forall p, i :: p in v.partitions[..k] && i in PendingOf(v, p)
          ==> i in acc.intermediate[p] && acc.intermediate[p][i] == PendingOf(v, p)[i].toState)
    && (forall p, i :: p in out && i in out[p] && i !in PendingOf(v, p)
          ==> i in acc.intermediate[p] && acc.intermediate[p][i] == out[p][i])
  }

  /**
    Each partition's row holds exactly the instances of its row in `out`
    plus, for the partitions `done`, the targets of its pending messages.
   */
  ghost predicate RowsShaped(out: PartitionStateMap, v: ResourceView, done: seq<Partition>, psm: PartitionStateMap)
  {
    forall p, i :: p in psm ==> (i in psm[p] <==> i in PartitionMap(out, p) || (p in done && i in PendingOf(v, p)))
  }

  /** Everything charging the first `k` partitions has achieved, the ledger included. */
  ghost predicate ChargedThrough(l: Ledger, out: PartitionStateMap, v: ResourceView, enabledLive: set<Instance>,
                                 k: nat, acc: PendingResult)
    requires k <= |v.partitions|
  {
    && ChargedPrefix(l, out, v, k, acc)
    && RowsShaped(out, v, v.partitions[..k], acc.intermediate)
    && acc.ledger.charged == l.charged + ChargesUpTo(v, enabledLive, k)
  }

  /** Charging the partition at index `k` extends `ChargedThrough` to `k + 1`. */
  lemma ChargeNext(l: Ledger, out: PartitionStateMap, v: ResourceView, enabledLive: set<Instance>, k: nat,
                   acc: PendingResult, msgs: seq<Message>)
    requires WellFormedView(v) && k < |v.partitions| && v.partitions[k] in v.preferenceLists
    requires ChargedThrough(l, out, v, enabledLive, k, acc)
    requires Enumerates(msgs, PendingOf(v, v.partitions[k]))
    ensures var p := v.partitions[k];
            ChargedThrough(l, out, v, enabledLive, k + 1, ChargePartition(acc, p, msgs, ContextOf(v, p, enabledLive)))
  {
    var ctx := ContextOf(v, v.partitions[k], enabledLive);
    ChargePartitionStep(l, out, v, k, acc, msgs, ctx);
    PrefixExcludesNext(v, k);
    RowsShapedStep(out, v, k, acc, msgs, ctx);
    ChargesUpToStep(l, v, enabledLive, k, acc, msgs);
  }

  /** The partitions seen so far never include the next one. */
  lemma PrefixExcludesNext(v: ResourceView, k: nat)
    requires WellFormedView(v) && k < |v.partitions|
    ensures v.partitions[k] !in v.partitions[..k]
    ensures v.partitions[..k + 1] == v.partitions[..k] + [v.partitions[k]]
  {
    assert forall j :: 0 <= j < k ==> v.partitions[j] != v.partitions[k];
  }

  /** Charging the partition at index `k` extends `ChargedPrefix` to `k + 1`. */
  lemma ChargePartitionStep(l: Ledger, out: PartitionStateMap, v: ResourceView, k: nat, acc: PendingResult,
                            msgs: seq<Message>, ctx: PartitionContext)
    requires WellFormedView(v) && k < |v.partitions|
    requires ChargedPrefix(l, out, v, k, acc)
    requires Enumerates(msgs, PendingOf(v, v.partitions[k]))
    ensures ChargedPrefix(l, out, v, k + 1, ChargePartition(acc, v.partitions[k], msgs, ctx))
  {
    PrefixExcludesNext(v, k);
    TouchedStep(v, k, msgs);
    PendingWrittenStep(l, out, v, k, acc, msgs, ctx);
    OutKeptStep(l, out, v, k, acc, msgs, ctx);
  }

  /** After partition `k`, its row has gained exactly the targets of its pending messages. */
  lemma RowsShapedStep(out: PartitionStateMap, v: ResourceView, k: nat, acc: PendingResult,
                       msgs: seq<Message>, ctx: PartitionContext)
    requires k < |v.partitions|
    requires v.partitions[k] !in v.partitions[..k]
    requires v.partitions[..k + 1] == v.partitions[..k] + [v.partitions[k]]
    requires out.Keys <= acc.intermediate.Keys
    requires RowsShaped(out, v, v.partitions[..k], acc.intermediate)
    requires Targets(msgs) == PendingOf(v, v.partitions[k]).Keys
    ensures RowsShaped(out, v, v.partitions[..k + 1], ChargePartition(acc, v.partitions[k], msgs, ctx).intermediate)
  {
    var p := v.partitions[k];
    var next := ChargePartition(acc, p, msgs, ctx);
    forall q, i | q in next.intermediate
      ensures i in next.intermediate[q]
              <==> i in PartitionMap(out, q) || (q in v.partitions[..k + 1] && i in PendingOf(v, q))
    {
      if q == p && msgs != [] {
        var row := PartitionMap(acc.intermediate, p);
        assert next.intermediate[p] == ChargeMessages(acc.ledger, row, msgs, ctx).row;
        assert i in row <==> i in PartitionMap(out, p);
      } else if q == p {
        assert PendingOf(v, p).Keys == {};
      } else {
        assert next.intermediate[q] == acc.intermediate[q];
        assert q in v.partitions[..k + 1] <==> q in v.partitions[..k];
      }
    }
  }

  /** Charging the partition at index `k` adds exactly its pending charges. */
  lemma ChargesUpToStep(l: Ledger, v: ResourceView, enabledLive: set<Instance>, k: nat, acc: PendingResult,
                        msgs: seq<Message>)
    requires k < |v.partitions| && v.partitions[k] in v.preferenceLists
    requires acc.ledger.charged == l.charged + ChargesUpTo(v, enabledLive, k)
    requires Enumerates(msgs, PendingOf(v, v.partitions[k]))
    ensures var p := v.partitions[k];
            ChargePartition(acc, p, msgs, ContextOf(v, p, enabledLive)).ledger.charged
            == l.charged + ChargesUpTo(v, enabledLive, k + 1)
  {
    var p := v.partitions[k];
    var ctx := ContextOf(v, p, enabledLive);
    assert PendingCharges(msgs, ctx) == PartitionCharges(PendingOf(v, p), ctx);
  }

  /** The partition at index `k` joins the touched ones exactly when it has pending messages. */
  lemma TouchedStep(v: ResourceView, k: nat, msgs: seq<Message>)
    requires k < |v.partitions|
    requires v.partitions[..k + 1] == v.partitions[..k] + [v.partitions[k]]
    requires Enumerates(msgs, PendingOf(v, v.partitions[k]))
    ensures Touched(v, k + 1) == if msgs == [] then Touched(v, k) else Touched(v, k) + {v.partitions[k]}
  {
    var pending := PendingOf(v, v.partitions[k]);
    if msgs == [] {
      assert pending == map[] by {
        assert pending.Keys == Targets(msgs) == {};
      }
    } else {
      assert pending != map[] by {
        assert msgs[0] in msgs;
      }
    }
  }

  /** After partition `k`, every pending message of the first `k + 1` partitions is written. */
  lemma PendingWrittenStep(l: Ledger, out: PartitionStateMap, v: ResourceView, k: nat, acc: PendingResult,
                           msgs: seq<Message>, ctx: PartitionContext)
    requires WellFormedView(v) && k < |v.partitions|
    requires v.partitions[k] !in v.partitions[..k]
    requires v.partitions[..k + 1] == v.partitions[..k] + [v.partitions[k]]
    requires ChargedPrefix(l, out, v, k, acc)
    requires Enumerates(msgs, PendingOf(v, v.partitions[k]))
    ensures var next := ChargePartition(acc, v.partitions[k], msgs, ctx);
            forall q, i :: q in v.partitions[..k + 1] && i in PendingOf(v, q)
              ==> i in next.intermediate[q] && next.intermediate[q][i] == PendingOf(v, q)[i].toState
  {
    var p := v.partitions[k];
    var pending := PendingOf(v, p);
    var next := ChargePartition(acc, p, msgs, ctx);
    var row := PartitionMap(acc.intermediate, p);
    forall q, i | q in v.partitions[..k + 1] && i in PendingOf(v, q)
      ensures i in next.intermediate[q] && next.intermediate[q][i] == PendingOf(v, q)[i].toState
    {
      if q == p {
        assert pending[i].tgtName == i;
        assert pending[i] in msgs;
        ChargeMessagesWrites(acc.ledger, row, msgs, ctx, pending[i]);
      } else {
        assert q in v.partitions[..k];
      }
    }
  }

  /** After partition `k`, entries of `out` that no pending message overwrites are still there. */
  lemma OutKeptStep(l: Ledger, out: PartitionStateMap, v: ResourceView, k: nat, acc: PendingResult,
                    msgs: seq<Message>, ctx: PartitionContext)
    requires k < |v.partitions|
    requires ChargedPrefix(l, out, v, k, acc)
    requires Enumerates(msgs, PendingOf(v, v.partitions[k]))
    ensures var next := ChargePartition(acc, v.partitions[k], msgs, ctx);
            forall q, i :: q in out && i in out[q] && i !in PendingOf(v, q)
              ==> i in next.intermediate[q] && next.intermediate[q][i] == out[q][i]
  {
    var p := v.partitions[k];
    var next := ChargePartition(acc, p, msgs, ctx);
    var row := PartitionMap(acc.intermediate, p);
    forall q, i | q in out && i in out[q] && i !in PendingOf(v, q)
      ensures i in next.intermediate[q] && next.intermediate[q][i] == out[q][i]
    {
      if q == p && msgs != [] {
        ChargeMessagesKeeps(acc.ledger, row, msgs, ctx, i);
      }
    }
  }

  /**
    Charges the pending transitions of every partition of a resource. The
    tick stops at the first partition whose preference list is missing or
    repeats an instance. Otherwise every pending message's target state is in
    the intermediate placement, every entry not overwritten by a pending
    message survives, each row holds exactly those entries, and the ledger
    has gained exactly the charges of the resource's pending messages.
   */
  method ChargePendingTransition(l: Ledger, out: PartitionStateMap, v: ResourceView, enabledLive: set<Instance>)
    returns (r: Result<PendingResult, StageError>)
    requires WellFormedView(v)
    ensures r.Failure? <==> exists p :: p in v.partitions && !PreferenceListUsable(v, p)
    ensures r.Failure? ==> r.error.partition in v.partitions
    ensures r.Failure? && r.error.MissingPreferenceList? ==> r.error.partition !in v.preferenceLists
    ensures r.Failure? && r.error.DuplicatePreferenceEntry? ==> !PreferenceListUsable(v, r.error.partition)
    ensures r.Success? ==> r.value.ledger == l.(charged := l.charged + ResourcePendingCharges(v, enabledLive))
    ensures r.Success? ==> var res := r.value;
              && res.intermediate.Keys == out.Keys + Touched(v, |v.partitions|)
              && RowsShaped(out, v, v.partitions, res.intermediate)
              && (forall p, i :: p in v.partitions && i in PendingOf(v, p)
                    ==> i in res.intermediate[p] && res.intermediate[p][i] == PendingOf(v, p)[i].toState)
              && (forall p, i :: p in out && i in out[p] && i !in PendingOf(v, p)
                    ==> i in res.intermediate[p] && res.intermediate[p][i] == out[p][i])
  {
    r := ChargePartitions(l, out, v, enabledLive);
    if r.Success? {
      ChargedAll(l, out, v, enabledLive, r.value);
    }
  }

  /** The loop over the partitions of `ChargePendingTransition`. */
  method ChargePartitions(l: Ledger, out: PartitionStateMap, v: ResourceView, enabledLive: set<Instance>)
    returns (r: Result<PendingResult, StageError>)
    requires WellFormedView(v)
    ensures r.Failure? <==> exists p :: p in v.partitions && !PreferenceListUsable(v, p)
    ensures r.Failure? ==> r.error.partition in v.partitions
    ensures r.Failure? && r.error.MissingPreferenceList? ==> r.error.partition !in v.preferenceLists
    ensures r.Failure? && r.error.DuplicatePreferenceEntry? ==> !PreferenceListUsable(v, r.error.partition)
    ensures r.Success? ==> ChargedThrough(l, out, v, enabledLive, |v.partitions|, r.value)
  {
    var acc := PendingResult(l, out);
    var k := 0;
    while k < |v.partitions|
      invariant 0 <= k <= |v.partitions|
      invariant forall j :: 0 <= j < k ==> PreferenceListUsable(v, v.partitions[j])
      invariant ChargedThrough(l, out, v, enabledLive, k, acc)
    {
      var p := v.partitions[k];
      if p !in v.preferenceLists {
        assert p in v.partitions;
        return Failure(MissingPreferenceList(p));
      }
      var preferenceList := v.preferenceLists[p];
      if !Distinct(preferenceList) {
        assert p in v.partitions;
        return Failure(DuplicatePreferenceEntry(p));
      }
      var msgs := EnumeratePending(PendingOf(v, p));
      var ctx := ContextOf(v, p, enabledLive);
      ChargeNext(l, out, v, enabledLive, k, acc, msgs);
      acc := ChargePartition(acc, p, msgs, ctx);
      k := k + 1;
    }
    return Success(acc);
  }

  /** Charging every partition establishes what `ChargePendingTransition` promises on success. */
  lemma ChargedAll(l: Ledger, out: PartitionStateMap, v: ResourceView, enabledLive: set<Instance>, acc: PendingResult)
    requires ChargedThrough(l, out, v, enabledLive, |v.partitions|, acc)
    ensures acc.ledger == l.(charged := l.charged + ResourcePendingCharges(v, enabledLive))
    ensures acc.intermediate.Keys == out.Keys + Touched(v, |v.partitions|)
    ensures RowsShaped(out, v, v.partitions, acc.intermediate)
    ensures forall p, i :: p in v.partitions && i in PendingOf(v, p)
              ==> i in acc.intermediate[p] && acc.intermediate[p][i] == PendingOf(v, p)[i].toState
    ensures forall p, i :: p in out && i in out[p] && i !in PendingOf(v, p)
              ==> i in acc.intermediate[p] && acc.intermediate[p][i] == out[p][i]
  {
    assert v.partitions[..|v.partitions|] == v.partitions;
  }
}
