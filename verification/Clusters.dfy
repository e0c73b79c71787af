/** The cluster controller: publishing the host pool as failure domains, and the status around it. */
module Clusters {
  import opened Options
  import opened Placement

  datatype PoolHost = PoolHost(name: string, endpoint: string, controlPlaneAllowed: bool)

  /** The LoadBalancerAvailable condition. */
  datatype Availability = Unknown | Available | NotAvailable

  datatype Status = Status(ready: bool, failureDomains: map<string, bool>, loadBalancer: Availability)

  const NEW_STATUS := Status(false, map[], Unknown)

  datatype ClusterError = NoClusterError | ControlPlaneEndpointRequired | NoPlacement
  datatype ClusterResult = ClusterResult(error: ClusterError, requeue: bool)

  /** What one reconcile sees besides the status. */
  datatype Inputs = Inputs(
    endpointOnCluster: bool,
    endpointOnMvmCluster: bool,
    staticPool: Option<seq<PoolHost>>,
    apiServerUp: bool)
  {
    predicate HasEndpoint() { endpointOnCluster || endpointOnMvmCluster }
  }

  // ---------- Publishing the pool ----------

  /** The published map of a pool: later hosts overwrite earlier ones with the same endpoint. */
  function Published(hosts: seq<PoolHost>): map<string, bool> {
    if hosts == [] then map[]
    else
      var last := hosts[|hosts| - 1];
      Published(hosts[..|hosts| - 1])[last.endpoint := last.controlPlaneAllowed]
  }

  /** `i` is the last host with its endpoint. */
  predicate LastWith(hosts: seq<PoolHost>, i: int) {
    0 <= i < |hosts| && forall j :: i < j < |hosts| ==> hosts[j].endpoint != hosts[i].endpoint
  }

  /** The keys are exactly the endpoints of the pool. */
  lemma {:induction false} PublishedKeys(hosts: seq<PoolHost>, e: string)
    ensures e in Published(hosts) <==> exists i :: 0 <= i < |hosts| && hosts[i].endpoint == e
  {
    if hosts != [] {
      var n := |hosts| - 1;
      PublishedKeys(hosts[..n], e);
      assert forall i :: 0 <= i < n ==> hosts[..n][i] == hosts[i];
      assert hosts[n].endpoint in Published(hosts);
    }
  }

  /** Each value is the flag of the last host with that endpoint. */
  lemma {:induction false} PublishedFlag(hosts: seq<PoolHost>, i: int)
    requires LastWith(hosts, i)
    ensures hosts[i].endpoint in Published(hosts)
    ensures Published(hosts)[hosts[i].endpoint] == hosts[i].controlPlaneAllowed
  {
    var n := |hosts| - 1;
    if i < n {
      assert LastWith(hosts[..n], i);
      PublishedFlag(hosts[..n], i);
    }
  }

  /** Fallback placement over a published pool picks the endpoint of one of its hosts. */
  lemma FallbackIsPoolHost(hosts: seq<PoolHost>, checksum: Checksum)
    ensures hosts == [] <==> FailureDomain(None, "", Published(hosts).Keys, checksum) == None
    ensures hosts != [] ==>
              exists i :: 0 <= i < |hosts|
                && FailureDomain(None, "", Published(hosts).Keys, checksum) == Some(hosts[i].endpoint)
  {
    if hosts != [] {
      PublishedKeys(hosts, hosts[0].endpoint);
      var host := HashChoice(Published(hosts).Keys, checksum);
      PublishedKeys(hosts, host);
    }
  }

  // ---------- One reconcile ----------

  /** What a reconcile makes of the status: ready once an endpoint is known, even when the placement is
      missing and the rest is left as it was. */
  function Reconciled(s: Status, x: Inputs): Status {
    if !x.HasEndpoint() then s
    else if x.staticPool.None? then s.(ready := true)
    else Status(true, Published(x.staticPool.value), if x.apiServerUp then Available else NotAvailable)
  }

  class ClusterScope {
    var status: Status
    const inputs: Inputs

    constructor (status: Status, inputs: Inputs)
      ensures this.status == status && this.inputs == inputs
    {
      this.status, this.inputs := status, inputs;
    }

    /** `setFailureDomains` */
    method SetFailureDomains() returns (error: ClusterError)
      modifies this
      ensures inputs.staticPool.None? ==> error == NoPlacement && status == old(status)
      ensures inputs.staticPool.Some? ==>
                error == NoClusterError
                && status == old(status).(failureDomains := Published(inputs.staticPool.value))
    {
      if inputs.staticPool.None? {
        return NoPlacement;
      }
      var hosts := inputs.staticPool.value;
      var failureDomains: map<string, bool> := map[];
      for i := 0 to |hosts|
        invariant failureDomains == Published(hosts[..i])
      {
        failureDomains := failureDomains[hosts[i].endpoint := hosts[i].controlPlaneAllowed];
        assert hosts[..i + 1][..i] == hosts[..i];
      }
      assert hosts[..|hosts|] == hosts;
      status := status.(failureDomains := failureDomains);
      return NoClusterError;
    }

    /** `reconcileNormal` */
    method ReconcileNormal() returns (r: ClusterResult)
      modifies this
      ensures status == Reconciled(old(status), inputs)
      // each error has its one cause, and without the endpoint on either object nothing changes
      ensures r.error == ControlPlaneEndpointRequired <==> !inputs.endpointOnCluster && !inputs.endpointOnMvmCluster
      ensures r.error == ControlPlaneEndpointRequired ==> status == old(status)
      ensures r.error == NoPlacement <==>
                (inputs.endpointOnCluster || inputs.endpointOnMvmCluster) && inputs.staticPool.None?
      ensures r.error == NoPlacement ==> status == old(status).(ready := true)
      ensures r.error == NoClusterError ==>
                && status.ready && status.failureDomains == Published(inputs.staticPool.value)
                && status.loadBalancer == if inputs.apiServerUp then Available else NotAvailable
      ensures r.requeue <==> r.error == NoClusterError && !inputs.apiServerUp
    {
      if !inputs.endpointOnCluster && !inputs.endpointOnMvmCluster {
        return ClusterResult(ControlPlaneEndpointRequired, false);
      }
      status := status.(ready := true);
      var error := SetFailureDomains();
      if error != NoClusterError {
        return ClusterResult(error, false);
      }
      if !inputs.apiServerUp {
        status := status.(loadBalancer := NotAvailable);
        return ClusterResult(NoClusterError, true);
      }
      status := status.(loadBalancer := Available);
      return ClusterResult(NoClusterError, false);
    }
  }

  // ---------- Runs of reconciles ----------

  /** One reconcile and its deferred patch: what it saw, whether the object was being deleted, and whether
      the patch was applied. */
  datatype Event = Event(inputs: Inputs, deleting: bool, committed: bool)
  {
    /** It got past the endpoint check and its outcome was stored. */
    predicate Counts() { committed && !deleting && inputs.HasEndpoint() }
  }

  function After(s: Status, e: Event): Status {
    if e.committed && !e.deleting then Reconciled(s, e.inputs) else s
  }

  function StatusAfter(events: seq<Event>): Status {
    if events == [] then NEW_STATUS else After(StatusAfter(events[..|events| - 1]), events[|events| - 1])
  }

  /** The last event that counts (and, if `pooled`, that had a placement), or -1. */
  function LastCounting(events: seq<Event>, pooled: bool): (i: int)
    ensures -1 <= i < |events|
    ensures i >= 0 ==> events[i].Counts() && (pooled ==> events[i].inputs.staticPool.Some?)
    ensures forall j :: i < j < |events| && events[j].Counts() ==> pooled && events[j].inputs.staticPool.None?
  {
    if events == [] then -1
    else
      var n := |events| - 1;
      if events[n].Counts() && (!pooled || events[n].inputs.staticPool.Some?) then n
      else LastCounting(events[..n], pooled)
  }

  /**
    The stored status after any run, in terms of the events alone: ready if and only if some event counts;
    the failure domains and the load balancer condition are those of the last event that counts and had a
    placement.
   */
  lemma {:induction false} StatusMeans(events: seq<Event>)
    ensures StatusAfter(events).ready <==> LastCounting(events, false) >= 0
    ensures var k, s := LastCounting(events, true), StatusAfter(events);
            if k < 0 then s.failureDomains == map[] && s.loadBalancer == Unknown
            else
              && s.failureDomains == Published(events[k].inputs.staticPool.value)
              && s.loadBalancer == if events[k].inputs.apiServerUp then Available else NotAvailable
  {
    if events != [] {
      StatusMeans(events[..|events| - 1]);
    }
  }

  /** A stored reconcile of a cluster that is not being deleted, with the endpoint on either object. */
  predicate Passes(e: Event) {
    e.committed && !e.deleting && (e.inputs.endpointOnCluster || e.inputs.endpointOnMvmCluster)
  }

  /** Ready, if and only if some such reconcile happened. */
  lemma ReadyExactly(events: seq<Event>)
    ensures StatusAfter(events).ready <==> exists e :: e in events && Passes(e)
  {
    StatusMeans(events);
    if LastCounting(events, false) >= 0 {
      assert Passes(events[LastCounting(events, false)]);
    }
  }

  /** What is published is the pool of the last such reconcile that had one. */
  lemma LastPoolShows(events: seq<Event>, k: nat)
    requires k < |events| && Passes(events[k]) && events[k].inputs.staticPool.Some?
    requires forall j :: k < j < |events| && Passes(events[j]) ==> events[j].inputs.staticPool.None?
    ensures var s := StatusAfter(events);
            && s.failureDomains == Published(events[k].inputs.staticPool.value)
            && s.loadBalancer == if events[k].inputs.apiServerUp then Available else NotAvailable
  {
    StatusMeans(events);
    assert events[k].Counts();
    var i := LastCounting(events, true);
    assert i >= 0 ==> Passes(events[i]);
  }

  /** Ready never goes back to false. */
  lemma {:induction false} ReadyForever(before: seq<Event>, later: seq<Event>)
    requires StatusAfter(before).ready
    ensures StatusAfter(before + later).ready
  {
    var events := before + later;
    if later == [] {
      assert events == before;
    } else {
      var n := |later| - 1;
      assert events[..|events| - 1] == before + later[..n];
      ReadyForever(before, later[..n]);
    }
  }

  /** A load balancer reported available implies a ready cluster. */
  lemma {:induction false} AvailableImpliesReady(events: seq<Event>)
    requires StatusAfter(events).loadBalancer == Available
    ensures StatusAfter(events).ready
  {
    StatusMeans(events);
  }

  /** A ready cluster shows the pool of the last event that counts, provided that event had a placement. */
  lemma {:induction false} ReadyShowsLastPool(events: seq<Event>)
    requires StatusAfter(events).ready
    ensures var k := LastCounting(events, false);
            k >= 0 && (events[k].inputs.staticPool.Some? ==>
              StatusAfter(events).failureDomains == Published(events[k].inputs.staticPool.value))
  {
    StatusMeans(events);
    var k := LastCounting(events, false);
    if events[k].inputs.staticPool.Some? {
      assert LastCounting(events, true) == k;
    }
  }

  /** The placement is needed: Ready is set before it is checked, so a cluster can be ready with nothing
      published. */
  lemma {:induction false} ReadyWithoutPool(e: Event)
    requires e.Counts() && e.inputs.staticPool.None?
    ensures StatusAfter([e]) == NEW_STATUS.(ready := true)
  {
    assert [e][..0] == [];
    assert StatusAfter([]) == NEW_STATUS;
  }
}
