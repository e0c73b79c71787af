/**
  The machine controller as it runs: an object in memory that is updated step by step, calls that go out
  in sequence, and a deferred patch. Every execution, against every behaviour of the world around it, is
  shown to be a run of the protocol.
 */
module Reconciler {
  import opened Controller
  import opened Endings
  import opened Invariant
  import opened MachineIDs
  import opened Machines
  import opened Options
  import opened Placement
  import opened Protocol
  import opened ProviderIDs
  import opened Safety

  /** Reads that begin a reconcile. */
  function Fetches(steps: seq<Step>): nat {
    if steps == [] then 0
    else Fetches(steps[..|steps| - 1]) + (if steps[|steps| - 1].Fetch? then 1 else 0)
  }

  lemma {:induction false} FetchesAppend(first: seq<Step>, second: seq<Step>)
    ensures Fetches(first + second) == Fetches(first) + Fetches(second)
  {
    if second == [] {
      assert first + second == first;
    } else {
      var n := |second| - 1;
      assert (first + second)[..|first + second| - 1] == first + second[..n];
      FetchesAppend(first, second[..n]);
    }
  }

  lemma FetchesBetween(before: seq<Step>, after: seq<Step>, k: nat)
    requires before <= after && |before| <= k <= |after|
    ensures before <= after[..k] && Fetches(before) <= Fetches(after[..k]) <= Fetches(after)
  {
    hide Fetches;
    FetchesAppend(before, after[|before|..k]);
    FetchesAppend(after[..k], after[k..]);
    assert after[..k] == before + after[|before|..k];
    assert after == after[..k] + after[k..];
  }

  function Last(steps: seq<Step>): Step
    requires steps != []
  {
    steps[|steps| - 1]
  }

  /** The API server, the hosts and everybody else. Answers are arbitrary among those the protocol allows,
      and anybody may act before each of them. */
  class World {
    var s: State
    var start: State
    var earlier: seq<Step>  // up to the read that began the latest reconcile
    var from: State         // the state after that read
    var since: seq<Step>    // what has happened since

    constructor (initial: State)
      ensures Valid() && s == start == initial && Trace() == []
    {
      s, start, earlier, from, since := initial, initial, [], initial, [];
    }

    /** What has happened so far is a run of the protocol. */
    ghost predicate Valid()
      reads this
    {
      && Run(start, earlier) && Exec(start, earlier) == from
      && Run(from, since) && Exec(from, since) == s
    }

    function Trace(): seq<Step>
      reads this
    {
      earlier + since
    }

    lemma TraceIsRun()
      requires Valid()
      ensures Run(start, Trace()) && Exec(start, Trace()) == s
    {
      hide Run, Exec;
      RunAppend(start, earlier, since);
    }

    /** The run goes on. */
    twostate predicate Continues()
      reads this
    {
      Valid() && start == old(start) && old(Trace()) <= Trace()
    }

    /** The run goes on without the beginning, the abandoning or the death of a reconcile. */
    twostate predicate GoesOn()
      reads this
    {
      && Valid() && start == old(start) && earlier == old(earlier) && from == old(from)
      && old(since) <= since && Fetches(since) == old(Fetches(since))
      && (OneReconcile(old(since)) ==> OneReconcile(since))
    }

    method Act(a: Step)
      requires Valid() && Allowed(s, a)
      modifies this
      ensures Valid() && start == old(start) && earlier == old(earlier) && from == old(from)
      ensures since == old(since) + [a] && s == Next(old(s), a)
      ensures Fetches(since) == old(Fetches(since)) + if a.Fetch? then 1 else 0
    {
      hide Enabled, Next, Run, Exec;
      NoStep(Next(s, a));
      var one := RunCons(s, a, []);
      RunAppend(from, since, one);
      assert one == [a];
      assert (since + [a])[..|since|] == since;
      s, since := Next(s, a), since + [a];
    }

    /** Any number of steps by users, hosts and the cluster. They leave the controller where it is. */
    method Interfere()
      requires Valid()
      modifies this
      ensures GoesOn() && s.c == old(s.c) && s.h == old(s.h)
    {
      hide HostFor, Print, HostOf, InstanceOf, Run, Exec, Fetches;
      var n: nat := *;
      while n > 0
        invariant GoesOn() && s.c == old(s.c) && s.h == old(s.h)
      {
        var a: Step := *;
        if Allowed(s, a) && !ByController(a) {
          Act(a);
        }
        n := n - 1;
      }
    }

    /** One call of the reconcile in progress. */
    method Call(a: Step)
      requires Valid() && Allowed(s, a) && !a.Fetch? && !a.Skip? && !a.Crash?
      modifies this
      ensures GoesOn() && s == Next(old(s), a) && since == old(since) + [a]
    {
      hide Enabled, Next, Run, Exec, Fetches;
      Act(a);
    }

    /** The process is killed after `k` of the steps so far: those have happened, the others have not. */
    method Kill(k: nat)
      requires Valid() && k <= |Trace()|
      modifies this
      ensures Valid() && start == old(start) && s.c.pc == Idle
      ensures old(Trace())[..k] <= Trace() <= old(Trace())[..k] + [Crash]
      ensures Fetches(Trace()) == Fetches(old(Trace())[..k])
      ensures Run(start, old(Trace())[..k]) && s.w == Exec(start, old(Trace())[..k]).w
    {
      hide Run, Exec, Fetches;
      TraceIsRun();
      RunPrefix(start, Trace(), k);
      earlier, since := Trace()[..k], [];
      s := Exec(start, earlier);
      from := s;
      NoStep(s);
      NoFetches();
      if s.c.pc != Idle {
        Act(Crash);
      }
      FetchesAppend(earlier, since);
    }

    /** The object as stored; or nothing, because the read failed or the object is gone. */
    method ReadMachine() returns (m: Option<Machine>, failed: bool)
      requires Valid() && s.c.pc == Idle
      modifies this
      ensures Continues() && Fetches(Trace()) == old(Fetches(Trace())) + 1
      ensures m.Some? ==>
                && s.c.pc == Fetched && s.c.mem == m.value && s.w.store.Stored? && s.w.store.obj == m.value
                && since == [] && from == s && |earlier| > |old(Trace())| && Last(earlier) == Fetch(true)
      ensures m.None? ==>
                && s.c.pc == Idle && Trace() != [] && Last(Trace()) == Fetch(!failed)
                && (!failed ==> s.w.store.Gone?)
    {
      hide Run, Exec, Fetches;
      FetchesAppend(earlier, since);
      Interfere();
      var ok: bool := *;
      Act(Fetch(ok));
      FetchesAppend(earlier, since);
      failed := !ok;
      m := None;
      if s.c.pc == Fetched {
        m := Some(s.c.mem);
        TraceIsRun();
        earlier, from, since := earlier + since, s, [];
        NoStep(s);
        assert earlier + since == earlier;
      }
    }

    method GiveUp()
      requires Valid() && s.c.pc == Fetched
      modifies this
      ensures Continues() && s.c == old(s.c).(pc := Idle)
      ensures Last(Trace()) == Skip && Fetches(Trace()) == old(Fetches(Trace()))
    {
      hide Run, Exec, Fetches;
      FetchesAppend(earlier, since);
      Act(Skip);
      FetchesAppend(earlier, since);
    }

    method ReadOwners() returns (snap: Snapshot)
      requires Valid() && s.c.pc == Fetched
      modifies this
      ensures GoesOn() && s.c == OnLoaded(old(s.c), snap) && snap == s.w.snap
      ensures Load in since
    {
      hide Run, Exec, OnLoaded, Fetches;
      Interfere();
      snap := s.w.snap;
      Call(Load);
    }

    method Connect(host: string) returns (ok: bool)
      requires Valid() && s.c.pc in {NService, DService} && s.c.host == host
      modifies this
      ensures GoesOn() && s.c == OnService(old(s.c), ok)
    {
      hide Run, Exec, Fetches, OnService;
      Interfere();
      ok := *;
      Call(Service(ok));
    }

    method GetVM(id: VMId) returns (reply: GetReply)
      requires Valid() && s.c.pc in {NGet, DGet} && Target(s.c) == id
      modifies this
      ensures GoesOn() && s.c == OnGet(old(s.c), reply)
      ensures reply.Found? ==> id in s.w.vms && reply.vm == MicroVM(id.uid, s.w.vms[id])
      ensures SaysAbsent(reply) ==> id !in s.w.vms
    {
      hide Run, Exec, Fetches, OnGet, InstanceOf, IsSpecNotFound;
      Interfere();
      reply := *;
      if !Enabled(s, Get(reply)) {
        reply := if id in s.w.vms then Found(MicroVM(id.uid, s.w.vms[id])) else Nothing;
      }
      Call(Get(reply));
    }

    method CreateVM(host: string) returns (vm: Option<MicroVM>)
      requires Valid() && s.c.pc == NCreate && s.c.host == host
      modifies this
      ensures GoesOn() && s.c == OnCreate(old(s.c), vm)
      ensures vm.Some? ==> VMId(host, vm.value.uid) in s.w.vms && s.w.vms[VMId(host, vm.value.uid)] == vm.value.state
    {
      hide Run, Exec, Fetches, OnCreate;
      Interfere();
      vm := *;
      if vm.Some? && Fresh(s.w, s.c, vm.value) {
        Call(Create(vm.value));
      } else {
        var made: Option<MicroVM> := *;
        if made.Some? && !Fresh(s.w, s.c, made.value) { made := None; }
        Call(CreateFails(made));
        vm := None;
      }
    }

    method DeleteVM(id: VMId) returns (ok: bool)
      requires Valid() && s.c.pc == DDelete && Target(s.c) == id
      modifies this
      ensures GoesOn() && s.c == OnDelete(old(s.c), ok)
      ensures ok ==> s.h.deletes == old(s.h.deletes) + multiset{id}
      ensures ok && id in s.w.vms ==> s.w.vms[id] == DELETING
    {
      hide Run, Exec, Fetches, OnDelete;
      Interfere();
      ok := *;
      var reached: bool := *;
      var removed: bool := *;
      Call(Delete(ok, ok || reached, removed));
    }

    method PatchMachine(m: Machine) returns (ok: bool)
      requires Valid() && s.c.AtPatch() && s.c.mem == m
      requires s.c.pc in {NPatchID, DPatch} ==> s.c.vm.Some?
      modifies this
      ensures GoesOn() && s.c == OnPatch(old(s.c), ok) && s.h.deletes == old(s.h.deletes)
      ensures since != [] && Last(since).Patch?
      ensures ok && s.w.store.Stored? ==> s.w.store.obj == m.(deleting := s.w.store.obj.deleting)
      ensures ok && s.w.store.Gone? ==> !m.finalizer
    {
      hide Run, Exec, Fetches, OnPatch;
      Interfere();
      var commit: Commit := *;
      if !Enabled(s, Step.Patch(commit)) { commit := NOT_APPLIED; }
      Call(Step.Patch(commit));
      ok := commit.confirmed;
    }
  }

  /** The in-memory machine and what was read with it. */
  class MachineScope {
    const world: World
    const snap: Snapshot
    var mvm: Machine

    constructor (world: World, snap: Snapshot, mvm: Machine)
      ensures this.world == world && this.snap == snap && this.mvm == mvm
    {
      this.world, this.snap, this.mvm := world, snap, mvm;
    }

    method GetFailureDomain() returns (host: Option<string>)
      ensures host == HostFor(mvm, snap)
      // the machine's own choice first, then the recorded host, then the one name with the checksum's rank
      ensures snap.machineFD.Some? && snap.machineFD.value != "" ==> host == snap.machineFD
      ensures Unset(snap.machineFD) && mvm.GetProviderID() != "" ==> host == Some(HostOf(mvm.GetProviderID()))
      ensures Unset(snap.machineFD) && mvm.GetProviderID() == "" ==>
                if snap.failureDomains == map[] then host == None
                else host.Some? && HasRank(snap.failureDomains.Keys, snap.checksum, host.value)
    {
      hide HasRank, HostOf;
      if snap.machineFD.Some? && snap.machineFD.value != "" {
        return snap.machineFD;
      }
      var providerID := mvm.GetProviderID();
      if providerID != "" {
        return Some(HostOf(providerID));
      }
      host := ChooseFailureDomain(snap.failureDomains, snap.checksum);
    }

    method SetReady()
      modifies this
      ensures mvm == old(mvm).AsReady()
      ensures Coherent(mvm) <==>
              && old(mvm).vmState == Some(VMRunning) && old(mvm).GetProviderID() != ""
              && (old(mvm).deleting || old(mvm).finalizer)
    {
      mvm := mvm.(condition := IsTrue);
      mvm := mvm.(ready := true);
      ReadyCoherent(old(mvm));
    }

    method SetNotReady(reason: Reason)
      modifies this
      ensures mvm == old(mvm).AsNotReady(reason)
      ensures Coherent(mvm) <==> Agreeing(old(mvm), reason)
    {
      mvm := mvm.(condition := IsFalse(reason));
      mvm := mvm.(ready := false);
      NotReadyCoherent(old(mvm), reason);
    }

    method SetProviderID(host: string, uid: string)
      modifies this
      ensures mvm == old(mvm).WithProviderID(host, uid)
      ensures Good(VMId(host, uid)) ==> Recorded(mvm) == Some(VMId(host, uid))
    {
      hide HostOf, InstanceOf;
      var providerID := PROVIDER_PREFIX + host + "/" + uid;
      mvm := mvm.(providerID := Some(providerID));
      if Good(VMId(host, uid)) { RoundTrip(VMId(host, uid)); }
    }

    /** Where the protocol expects the controller, and the object it expects in memory. */
    ghost predicate At(pc: PC)
      reads this, world
    {
      world.Valid() && world.s.c.pc == pc && world.s.c.mem == mvm
    }

    /** The reconcile has ended as the protocol says, before its deferred patch. */
    ghost predicate Ended(r: Result)
      reads this, world
    {
      At(Exit) && world.s.c.result == r
    }

    method Patch() returns (ok: bool)
      requires world.Valid() && world.s.c.AtPatch() && world.s.c.mem == mvm
      requires world.s.c.pc in {NPatchID, DPatch} ==> world.s.c.vm.Some?
      modifies world
      ensures world.GoesOn() && world.s.c == OnPatch(old(world.s.c), ok) && world.s.h.deletes == old(world.s.h.deletes)
      ensures world.since != [] && Last(world.since).Patch?
    {
      ok := world.PatchMachine(mvm);
    }

    /** `parseMicroVMState` */
    method ParseMicroVMState(state: HostState) returns (r: Result)
      modifies this
      ensures (mvm, r) == ParseState(old(mvm), state)
      ensures Reported(old(mvm), state, r, mvm)
      ensures r.Quiet() <==> state == CREATED
      ensures Coherent(old(mvm)) && old(mvm).finalizer && old(mvm).GetProviderID() != "" ==> Coherent(mvm)
      ensures state != DELETING ==> (mvm.ready <==> state == CREATED)
    {
      match state
      case CREATED =>
        mvm := mvm.(vmState := Some(VMRunning));
        SetReady();
        return DONE;
      case PENDING =>
        mvm := mvm.(vmState := Some(VMPending));
        SetNotReady(MicrovmPending);
        return REQUEUE;
      case FAILED =>
        mvm := mvm.(vmState := Some(VMFailed));
        SetNotReady(MicrovmProvisionFailed);
        return Fail(ErrMicrovmFailed);
      case DELETING =>
        return REQUEUE;
      case OTHER(_) =>
        mvm := mvm.(vmState := Some(VMUnknown));
        SetNotReady(MicrovmUnknownState);
        return Result(ErrMicrovmUnknownState, true);
    }

    /** `reconcileNormal` */
    method ReconcileNormal() returns (r: Result)
      requires world.Valid() && !mvm.deleting
      requires exists c: Local :: c.mem == mvm && world.s.c == OnLoaded(c, snap)
      modifies this, world
      ensures world.GoesOn() && Ended(r)
      // a closed gate: no call, a false condition with its reason and nothing else, and a quiet answer
      ensures !snap.infraReady || !snap.bootstrapReady ==>
                && world.s == old(world.s) && r.error == NoError && !r.requeue
                && mvm == old(mvm).(condition := IsFalse(
                     if !snap.infraReady then WaitingForClusterInfra else WaitingForBootstrapData))
      ensures r.error == NoFailureDomain <==>
                && snap.infraReady && snap.bootstrapReady
                && Unset(snap.machineFD) && old(mvm).GetProviderID() == "" && snap.failureDomains == map[]
      ensures r.error in {NoFailureDomain, NoService, GetError} ==> mvm == old(mvm) && !r.requeue
      ensures snap.infraReady && snap.bootstrapReady && r.Quiet() ==>
                mvm.ready && mvm.condition == IsTrue && mvm.vmState == Some(VMRunning)
    {
      hide Run, Exec, Fetches, Print, HostOf, InstanceOf, IsSpecNotFound, Coherent, Agreeing;
      hide HasRank, FailureDomain, Reported;
      if !snap.infraReady {
        mvm := mvm.(condition := IsFalse(WaitingForClusterInfra));
        return DONE;
      }
      if !snap.bootstrapReady {
        mvm := mvm.(condition := IsFalse(WaitingForBootstrapData));
        return DONE;
      }

      var failureDomain := GetFailureDomain();
      if failureDomain.None? {
        return Fail(NoFailureDomain);
      }
      var host := failureDomain.value;

      var connected := world.Connect(host);
      if !connected {
        return Fail(NoService);
      }

      var microvm: Option<MicroVM> := None;
      if mvm.GetProviderID() != "" {
        var reply := world.GetVM(VMId(host, InstanceOf(mvm.GetProviderID())));
        if reply.GetFailed? && !IsSpecNotFound(reply.text) {
          return Fail(GetError);
        }
        microvm := if reply.Found? then Some(reply.vm) else None;
      }

      r := CommitAndCreate(host, microvm);
    }

    /** The rest of `reconcileNormal`: finalizer first, then the microVM if there is none, then its ID. */
    method CommitAndCreate(host: string, found: Option<MicroVM>) returns (r: Result)
      requires world.Valid()
      requires world.s.c == Local(NPatchFin, mvm.(finalizer := true), host, found, DONE)
      modifies this, world
      ensures world.GoesOn() && Ended(r)
      ensures r.Quiet() ==> mvm.ready && mvm.condition == IsTrue && mvm.vmState == Some(VMRunning)
      ensures r.error in {PatchError, CreateError} ==> !r.requeue
      ensures r.error == CreateError ==> found.None? && mvm == old(mvm).(finalizer := true)
      ensures r.error !in {NoFailureDomain, NoService, GetError}
      ensures r.error !in {PatchError, CreateError} && found.Some? ==>
                Reported(old(mvm).(finalizer := true).WithProviderID(host, found.value.uid), found.value.state, r, mvm)
    {
      hide Run, Exec, Fetches, Print, Coherent, Good;
      var microvm := found;
      mvm := mvm.(finalizer := true);
      var patched := Patch();
      if !patched {
        return Fail(PatchError);
      }

      if microvm.None? {
        microvm := world.CreateVM(host);
        if microvm.None? {
          return Fail(CreateError);
        }
      }

      SetProviderID(host, microvm.value.uid);
      patched := Patch();
      if !patched {
        return Fail(PatchError);
      }

      r := ParseMicroVMState(microvm.value.state);
    }

    /** The part of `reconcileDelete` for a microVM that was found: not ready first, then the delete call unless
        one was made before. */
    method StopVM(id: VMId, vm: MicroVM) returns (r: Result)
      requires world.Valid() && Target(world.s.c) == id && world.s.c.result == DONE
      requires world.s.c.pc == DPatch && world.s.c.vm == Some(vm) && world.s.c.mem == mvm.AsNotReady(MicrovmDeleting)
      modifies this, world
      ensures world.GoesOn() && Ended(r) && !r.Quiet() && !mvm.ready
      // a microVM that is DELETING is polled: no delete call, and a requeue unless the patch failed
      ensures vm.state == DELETING ==>
                && world.s.h.deletes == old(world.s.h.deletes)
                && (r == Result(NoError, true) || r == Result(PatchError, false))
      ensures r.error == NoError && vm.state != DELETING ==>
                world.s.h.deletes == old(world.s.h.deletes) + multiset{id}
      ensures r.error in {NoError, PatchError, DeleteError} && (r.requeue <==> r.error == NoError)
      ensures mvm == old(mvm).(ready := false, condition := IsFalse(
                if r.error == DeleteError then MicrovmDeleteFailed else MicrovmDeleting))
    {
      hide Run, Exec, Fetches, InstanceOf, Coherent, Agreeing;
      SetNotReady(MicrovmDeleting);
      var patched := Patch();
      if !patched {
        return Fail(PatchError);
      }
      if vm.state != DELETING {
        var deleted := world.DeleteVM(id);
        if !deleted {
          SetNotReady(MicrovmDeleteFailed);
          return Fail(DeleteError);
        }
      }
      return REQUEUE;
    }

    /** `reconcileDelete` */
    method ReconcileDelete() returns (r: Result)
      requires world.Valid() && mvm.deleting
      requires exists c: Local :: c.mem == mvm && world.s.c == OnLoaded(c, snap)
      modifies this, world
      ensures world.GoesOn() && Ended(r)
      ensures r.error == NoFailureDomain <==>
                Unset(snap.machineFD) && old(mvm).GetProviderID() == "" && snap.failureDomains == map[]
      ensures r.error in {NoFailureDomain, GetError} ==> mvm == old(mvm)
      ensures r.Quiet() ==> mvm == old(mvm) || mvm == old(mvm).(finalizer := false)
      ensures r.requeue ==> mvm == old(mvm).(ready := false, condition := IsFalse(MicrovmDeleting))
    {
      hide Run, Exec, Fetches, Print, HostOf, InstanceOf, IsSpecNotFound, Coherent, Agreeing;
      hide HasRank, FailureDomain, OnPatch, OnDelete, ToFinalizerPatch;
      var failureDomain := GetFailureDomain();
      if failureDomain.None? {
        return Fail(NoFailureDomain);
      }
      var host := failureDomain.value;

      var connected := world.Connect(host);
      if !connected {
        return DONE;
      }

      var id := VMId(host, InstanceOf(mvm.GetProviderID()));
      var reply := world.GetVM(id);
      if reply.GetFailed? && !IsSpecNotFound(reply.text) {
        return Fail(GetError);
      }

      if reply.Found? {
        r := StopVM(id, reply.vm);
        return;
      }

      mvm := mvm.(finalizer := false);
      return DONE;
    }
  }

  /** How a reconcile came to its end. */
  datatype Ending = NotRead | NotThere | Stopped | Completed(decisive: nat)

  /**
    `Reconcile`: read, dispatch on the deletion mark, and patch on the way out whatever happened. `early` is
    the answer of the lookups that may stop it before it begins: no owner yet, no cluster, paused.
   */
  method Reconcile(world: World, early: Option<Result>) returns (r: Result, ghost ending: Ending)
    requires world.Valid() && world.s.c.pc == Idle
    requires early.Some? ==> early.value == DONE || early.value == Fail(ReadError)
    modifies world
    ensures world.Continues() && world.s.c.pc == Idle
    ensures Fetches(world.Trace()) == old(Fetches(world.Trace())) + 1
    ensures ending == NotRead ==> r == Fail(ReadError) && Last(world.Trace()) == Fetch(false)
    ensures ending == NotThere ==> r == DONE && Last(world.Trace()) == Fetch(true) && world.s.w.store.Gone?
    ensures ending == Stopped ==> early == Some(r) && Last(world.Trace()) == Skip
    // a whole reconcile: a read, the owners, and at last the deferred patch; its answer is the protocol's
    ensures ending.Completed? ==>
              && early.None? && r == world.s.c.result
              && |world.earlier| > |old(world.Trace())| && Last(world.earlier) == Fetch(true)
              && world.from.c.pc == Fetched && Load in world.since
              && Last(world.since).Patch? && OneReconcile(world.since)
              && (r.Quiet() <==> SomeStepEndsQuietly(world.from, world.since))
              && DecidedAt(world, world.from.c.mem, ending.decisive, r)
  {
    hide Run, Exec, Print, HostOf, InstanceOf, FailureDomain, IsSpecNotFound, Fetches, SomeStepEndsQuietly, EndsQuietly;
    hide DecidedAt;
    var read, failed := world.ReadMachine();
    if read.None? {
      ending := if failed then NotRead else NotThere;
      return if failed then Fail(ReadError) else DONE, ending;
    }
    if early.Some? {
      world.GiveUp();
      return early.value, Stopped;
    }
    FetchesAppend(world.earlier, world.since);
    ghost var k;
    r, k := Dispatch(world, read.value);
    ending := Completed(k);
    FetchesAppend(world.earlier, world.since);
  }

  /** Step `k` of the latest reconcile decides what it answers and what it leaves in memory. */
  ghost predicate DecidedAt(world: World, read: Machine, k: nat, r: Result)
    reads world
  {
    && k < |world.since| && Run(world.from, world.since[..k])
    && var u := Exec(world.from, world.since[..k]);
    && OnItsWay(read, u.c) && Decides(u, world.since[k], r, world.s.c.mem)
  }

  /** From the read to the deferred patch. */
  method Dispatch(world: World, read: Machine) returns (r: Result, ghost k: nat)
    requires world.Valid() && world.s.c.pc == Fetched && world.s.c.mem == read
    requires world.since == [] && world.from == world.s
    modifies world
    ensures world.GoesOn() && world.s.c.pc == Idle && r == world.s.c.result
    ensures Load in world.since && Last(world.since).Patch? && OneReconcile(world.since)
    ensures r.Quiet() <==> SomeStepEndsQuietly(world.from, world.since)
    ensures DecidedAt(world, read, k, r)
  {
    hide Decides, HasRank, Reported;
    hide Run, Exec, Print, HostOf, InstanceOf, FailureDomain, IsSpecNotFound, Fetches, SomeStepEndsQuietly, EndsQuietly;
    var snap := world.ReadOwners();
    var scope := new MachineScope(world, snap, read);
    if scope.mvm.deleting {
      r := scope.ReconcileDelete();
    } else {
      r := scope.ReconcileNormal();
    }
    var patched := scope.Patch();
    QuietExactly(world.from, world.since);
    k := EveryEnding(world.from, world.since, read);
  }

  /** A reconcile to come: the answer of its early lookups, and whether it is killed before its end. */
  datatype Job = Job(early: Option<Result>, killed: bool)

  /** Those that run to their end. */
  function Spared(jobs: seq<Job>): nat {
    if jobs == [] then 0
    else Spared(jobs[..|jobs| - 1]) + (if jobs[|jobs| - 1].killed then 0 else 1)
  }

  /** The controller at work on a new machine, one reconcile after the other, some of them killed at any point.
      Whatever the calls answer and whatever the others do, the microVMs that exist are bounded by the creates
      that lost all their patches. */
  method Operate(world: World, jobs: seq<Job>)
    requires world.Valid() && world.Trace() == [] && Initial(world.s)
    requires forall j :: j in jobs && j.early.Some? ==> j.early.value == DONE || j.early.value == Fail(ReadError)
    modifies world
    ensures world.Continues() && world.start == old(world.s)
    ensures Spared(jobs) <= Fetches(world.Trace()) <= |jobs|
    ensures Run(world.start, world.Trace()) && Exec(world.start, world.Trace()) == world.s
    ensures |world.s.w.vms| <= Losses(world.start, world.Trace(), false) + 1
    ensures !Held(world.s) ==> |world.s.w.vms| <= Losses(world.start, world.Trace(), false)
  {
    hide Run, Exec, Losses, Enabled, Next, HostOf, InstanceOf, Fetches;
    world.TraceIsRun();
    NoStep(world.start);
    assert Fetches([]) == 0 by { NoFetches(); }
    for i := 0 to |jobs|
      invariant world.Continues() && world.s.c.pc == Idle
      invariant Spared(jobs[..i]) <= Fetches(world.Trace()) <= i
    {
      assert jobs[..i + 1][..i] == jobs[..i];
      var before := world.Trace();
      var _, _ := Reconcile(world, jobs[i].early);
      var k: nat := *;
      if jobs[i].killed && |before| <= k < |world.Trace()| {
        FetchesBetween(before, world.Trace(), k);
        world.Kill(k);
      }
    }
    assert jobs[..|jobs|] == jobs;
    world.TraceIsRun();
    NoLeak(world.start, world.Trace());
  }

  lemma NoFetches()
    ensures Fetches([]) == 0
  {
  }
}
