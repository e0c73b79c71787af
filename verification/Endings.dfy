/** What every reconcile that runs to its end answers and leaves in memory, for every outcome of its calls. */
module Endings {
  import opened Controller
  import opened MachineIDs
  import opened Machines
  import opened Options
  import opened Placement
  import opened Protocol
  import opened Safety

  // ---------- The object on its way ----------

  /** What has become of the object `read` by the time of the next call, field by field. */
  predicate OnItsWay(read: Machine, c: Local) {
    match c.pc
    case Fetched => c.mem == read
    case NService => c.mem == read && !read.deleting
    case NGet => c.mem == read && !read.deleting && read.GetProviderID() != ""
    case NPatchFin => c.mem == read.(finalizer := true) && !read.deleting
    case NCreate => c.mem == read.(finalizer := true) && !read.deleting && c.vm.None?
    case NPatchID =>
      && !read.deleting && c.vm.Some?
      && c.mem == read.(finalizer := true, providerID := Some("microvm://" + c.host + "/" + c.vm.value.uid))
    case DService => c.mem == read && read.deleting
    case DGet => c.mem == read && read.deleting
    case DPatch => Stopping(read, c)
    case DDelete => Stopping(read, c) && c.vm.value.state != DELETING
    case _ => false
  }

  predicate Stopping(read: Machine, c: Local) {
    && read.deleting && c.vm.Some?
    && c.mem == read.(ready := false, condition := IsFalse(MicrovmDeleting))
  }

  // ---------- The decisive call ----------

  /** What `parseMicroVMState` makes of the state that a host reports. */
  predicate Reported(was: Machine, state: HostState, r: Result, m: Machine) {
    match state
    case CREATED =>
      m == was.(vmState := Some(VMRunning), ready := true, condition := IsTrue) && r == Result(NoError, false)
    case PENDING =>
      && m == was.(vmState := Some(VMPending), ready := false, condition := IsFalse(MicrovmPending))
      && r == Result(NoError, true)
    case FAILED =>
      && m == was.(vmState := Some(VMFailed), ready := false, condition := IsFalse(MicrovmProvisionFailed))
      && r == Result(ErrMicrovmFailed, false)
    case DELETING => m == was && r == Result(NoError, true)
    case OTHER(_) =>
      && m == was.(vmState := Some(VMUnknown), ready := false, condition := IsFalse(MicrovmUnknownState))
      && r == Result(ErrMicrovmUnknownState, true)
  }

  /** At this call the reconcile ends with the answer `r` and leaves `m` in memory. */
  predicate Decides(s: State, a: Step, r: Result, m: Machine) {
    var was, snap := s.c.mem, s.w.snap;
    match a
    case Load =>
      if !was.deleting && !snap.infraReady then
        m == was.(condition := IsFalse(WaitingForClusterInfra)) && r == Result(NoError, false)
      else if !was.deleting && !snap.bootstrapReady then
        m == was.(condition := IsFalse(WaitingForBootstrapData)) && r == Result(NoError, false)
      else
        && Unset(snap.machineFD) && was.GetProviderID() == "" && snap.failureDomains == map[]
        && m == was && r == Result(NoFailureDomain, false)
    case Service(ok) => !ok && m == was && r == Result(if was.deleting then NoError else NoService, false)
    case Get(reply) =>
      if SaysAbsent(reply) then was.deleting && m == was.(finalizer := false) && r == Result(NoError, false)
      else reply.GetFailed? && m == was && r == Result(GetError, false)
    case CreateFails(_) => m == was && r == Result(CreateError, false)
    case Patch(commit) =>
      if !commit.confirmed then m == was && r == Result(PatchError, false)
      else if was.deleting then s.c.vm.Some? && s.c.vm.value.state == DELETING && m == was && r == Result(NoError, true)
      else s.c.pc == NPatchID && s.c.vm.Some? && Reported(was, s.c.vm.value.state, r, m)
    case Delete(ok, _, _) =>
      if ok then m == was && r == Result(NoError, true)
      else m == was.(ready := false, condition := IsFalse(MicrovmDeleteFailed)) && r == Result(DeleteError, false)
    case _ => false
  }

  /** A step that does not end the reconcile takes the object further. */
  lemma StepOnItsWay(s: State, a: Step, read: Machine)
    requires OnItsWay(read, s.c) && Enabled(s, a) && !a.Fetch? && !a.Skip? && !a.Crash?
    ensures Next(s, a).c.pc != Exit ==> OnItsWay(read, Next(s, a).c)
  {
    hide HostOf, InstanceOf, HostFor, IsSpecNotFound;
  }

  /** The decisive calls are exactly those that end the reconcile, with exactly that answer and that object. */
  lemma DecidesExactly(s: State, a: Step, read: Machine)
    requires OnItsWay(read, s.c) && Enabled(s, a) && !a.Fetch? && !a.Skip? && !a.Crash?
    ensures forall r, m :: Decides(s, a, r, m) <==>
              Next(s, a).c.pc == Exit && Next(s, a).c.result == r && Next(s, a).c.mem == m
  {
    hide HostOf, InstanceOf, HashChoice, IsSpecNotFound;
  }

  /**
    Every reconcile that runs to its end, with any outcome of its calls and any interference, has one decisive
    call: until then the object in memory is the one read, changed only as its position says; that call decides
    the answer and the last change; and nothing changes either of them afterwards.
   */
  lemma {:induction false} EveryEnding(s: State, steps: seq<Step>, read: Machine) returns (k: nat)
    requires Run(s, steps) && OneReconcile(steps) && OnItsWay(read, s.c) && Exec(s, steps).c.pc == Idle
    ensures k < |steps| && Run(s, steps[..k])
    ensures var u, t := Exec(s, steps[..k]), Exec(s, steps);
            OnItsWay(read, u.c) && Decides(u, steps[k], t.c.result, t.c.mem)
    decreases |steps|
  {
    hide Enabled, Next, OnItsWay, Decides;
    NotIdle(read, s.c);
    var t := Next(s, steps[0]);
    StepOnItsWay(s, steps[0], read);
    DecidesExactly(s, steps[0], read);
    if t.c.pc == Exit {
      k := 0;
      SettledMemory(t, steps[1..]);
      assert steps[..0] == [];
    } else {
      k := EveryEnding(t, steps[1..], read);
      k := k + 1;
      assert steps[..k][1..] == steps[1..][..k - 1];
    }
  }

  lemma NotIdle(read: Machine, c: Local)
    requires OnItsWay(read, c)
    ensures c.pc != Idle
  {
  }

  lemma SettledStep(s: State, a: Step)
    requires Enabled(s, a) && !a.Fetch? && !a.Skip? && !a.Crash? && s.c.pc in {Idle, Exit}
    ensures var c := Next(s, a).c;
            c.pc in {Idle, Exit} && c.result == s.c.result && c.mem == s.c.mem
  {
    hide HostOf, InstanceOf, HostFor, IsSpecNotFound, Print;
  }

  lemma {:induction false} SettledMemory(s: State, steps: seq<Step>)
    requires Run(s, steps) && OneReconcile(steps) && s.c.pc in {Idle, Exit}
    ensures Exec(s, steps).c.result == s.c.result && Exec(s, steps).c.mem == s.c.mem
    decreases |steps|
  {
    hide Enabled, Next;
    if steps != [] {
      SettledStep(s, steps[0]);
      SettledMemory(Next(s, steps[0]), steps[1..]);
    }
  }

  // ---------- The deferred patch ----------

  /** A deferred patch that succeeds stores the object in memory, except for the deletion mark, which is the
      store's; or the object goes, if it was being deleted and this was its last finalizer. */
  lemma DeferredPatchStores(s: State, commit: Commit)
    requires s.c.pc == Exit && Enabled(s, Patch(commit)) && commit.confirmed
    ensures var obj, t := s.w.store.obj, Next(s, Patch(commit)).w.store;
            if obj.deleting && !s.c.mem.finalizer && !s.w.store.foreign then t == Gone
            else t == Stored(s.c.mem.(deleting := obj.deleting), s.w.store.foreign)
  {
  }
}
