/**
  The throttle ledger: the per-tick state of the state-transition throttle
  controller. For every scope (the cluster, a resource, an instance) and
  every rebalance category it keeps how many transitions were charged, and
  an optional limit. A scope/category without a limit is never throttled;
  a ledger whose throttling is disabled throttles nothing.

  The controller's own code is not part of this model: its "should throttle"
  questions are answered from these counters and limits, and charging adds
  one unit to a counter.
 */
module ThrottleLedger {
  import opened HelixTypes

  datatype Scope = Cluster | OfResource(resource: ResourceName) | OfInstance(instance: Instance)

  /** One counter of the ledger: a scope together with a rebalance category. */
  type Counter = (Scope, RebalanceType)

  datatype Ledger = Ledger(
    enabled: bool,
    limits: map<Counter, nat>,
    charged: multiset<Counter>)

  /** Units charged so far against scope `s` in category `t`. */
  function Charged(l: Ledger, s: Scope, t: RebalanceType): nat
  {
    l.charged[(s, t)]
  }

  /** The quota of scope `s` in category `t` is used up. */
  predicate QuotaFull(l: Ledger, s: Scope, t: RebalanceType)
  {
    l.enabled && (s, t) in l.limits && Charged(l, s, t) >= l.limits[(s, t)]
  }

  predicate ShouldThrottleForCluster(l: Ledger, t: RebalanceType)
  {
    QuotaFull(l, Cluster, t)
  }

  /** The resource-scope question also answers for the cluster scope. */
  predicate ShouldThrottleForResource(l: Ledger, t: RebalanceType, r: ResourceName)
  {
    ShouldThrottleForCluster(l, t) || QuotaFull(l, OfResource(r), t)
  }

  /** The instance-scope question also answers for the cluster scope. */
  predicate ShouldThrottleForInstance(l: Ledger, t: RebalanceType, i: Instance)
  {
    ShouldThrottleForCluster(l, t) || QuotaFull(l, OfInstance(i), t)
  }

  /** Charges one unit against scope `s` in category `t`. */
  function Charge(l: Ledger, s: Scope, t: RebalanceType): (r: Ledger)
    ensures r.enabled == l.enabled && r.limits == l.limits
    ensures r.charged == l.charged + multiset{(s, t)}
  {
    l.(charged := l.charged + multiset{(s, t)})
  }

  function ChargeCluster(l: Ledger, t: RebalanceType): Ledger
  {
    Charge(l, Cluster, t)
  }

  function ChargeResource(l: Ledger, t: RebalanceType, r: ResourceName): Ledger
  {
    Charge(l, OfResource(r), t)
  }

  function ChargeInstance(l: Ledger, t: RebalanceType, i: Instance): Ledger
  {
    Charge(l, OfInstance(i), t)
  }

  /** Quota safety: with throttling enabled, no counter has gone past its limit. */
  predicate WithinQuota(l: Ledger)
  {
    l.enabled ==> forall c :: c in l.limits ==> l.charged[c] <= l.limits[c]
  }

  /** The ledger a tick starts from: nothing charged yet. */
  function FreshLedger(enabled: bool, limits: map<Counter, nat>): (r: Ledger)
    ensures WithinQuota(r)
    ensures forall s, t :: Charged(r, s, t) == 0
  {
    Ledger(enabled, limits, multiset{})
  }

  /** Charging a counter whose quota is not yet full keeps the ledger within quota. */
  lemma ChargeKeepsQuota(l: Ledger, s: Scope, t: RebalanceType)
    requires WithinQuota(l)
    requires !QuotaFull(l, s, t)
    ensures WithinQuota(Charge(l, s, t))
  {
    var r := Charge(l, s, t);
    if r.enabled {
      forall c | c in r.limits
        ensures r.charged[c] <= r.limits[c]
      {
        if c != (s, t) {
          assert r.charged[c] == l.charged[c];
        }
      }
    }
  }
}
