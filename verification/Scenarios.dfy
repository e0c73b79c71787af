/** Runs that exist: a whole life without failures, what is reported, and what goes wrong and how. */
module Scenarios {
  import opened Controller
  import opened Deletion
  import opened Endings
  import opened Invariant
  import opened MachineIDs
  import opened Machines
  import opened Options
  import opened Placement
  import opened Protocol
  import opened Safety

  // ---------- A whole life ----------

  lemma {:induction false} SmoothAppend(s: State, first: seq<Step>, second: seq<Step>)
    requires SmoothRun(s, first) && Run(s, first) && SmoothRun(Exec(s, first), second)
    ensures SmoothRun(s, first + second) && Run(s, first + second) && Run(Exec(s, first), second)
    ensures Exec(s, first + second) == Exec(Exec(s, first), second)
    decreases |first|
  {
    hide Enabled, Next, Smooth;
    SmoothIsRun(Exec(s, first), second);
    if first == [] {
      assert first + second == second;
    } else {
      SmoothAppend(Next(s, first[0]), first[1..], second);
      assert (first + second)[1..] == first[1..] + second;
    }
    SmoothIsRun(s, first + second);
  }

  lemma OneStep(s: State, a: Step)
    requires Allowed(s, a) && Smooth(a)
    ensures SmoothRun(s, [a]) && Run(s, [a]) && Exec(s, [a]) == Next(s, a)
  {
    hide Enabled, Next, Smooth;
    assert [a][1..] == [];
    assert Run(Next(s, a), []) && Exec(Next(s, a), []) == Next(s, a);
  }

  /** One more step at the end of a run. */
  lemma Then(s: State, steps: seq<Step>, a: Step) returns (longer: seq<Step>)
    requires SmoothRun(s, steps) && Run(s, steps)
    requires Allowed(Exec(s, steps), a) && Smooth(a)
    ensures SmoothRun(s, longer) && Run(s, longer) && Exec(s, longer) == Next(Exec(s, steps), a)
  {
    hide Enabled, Next, Smooth;
    OneStep(Exec(s, steps), a);
    SmoothAppend(s, steps, [a]);
    longer := steps + [a];
  }

  lemma EmptyRun(s: State)
    ensures SmoothRun(s, []) && Run(s, []) && Exec(s, []) == s
  {
  }

  /** With open gates and a host, a machine without a provider ID gets its finalizer and is about to
      get its microVM. */
  lemma Prepare(s: State, host: string) returns (steps: seq<Step>)
    requires s.c.pc == Idle && s.w.store.Stored? && !s.w.store.obj.deleting
    requires s.w.store.obj.GetProviderID() == "" && s.w.snap.infraReady && s.w.snap.bootstrapReady
    requires HostFor(s.w.store.obj, s.w.snap) == Some(host)
    ensures SmoothRun(s, steps) && Run(s, steps)
    ensures var obj := s.w.store.obj.(finalizer := true);
            Exec(s, steps) == State(
              s.w.(store := Stored(obj, s.w.store.foreign)),
              Local(NCreate, obj, host, None, DONE),
              s.h.(absent := {}, pending := None))
  {
    hide HostOf, InstanceOf, FailureDomain, IsSpecNotFound, Run, Exec, SmoothRun, Print;
    EmptyRun(s);
    steps := Then(s, [], Fetch(true));
    steps := Then(s, steps, Load);
    steps := Then(s, steps, Service(true));
    steps := Then(s, steps, Patch(APPLIED));
  }

  /** With open gates and a host, a machine without a provider ID becomes ready in one reconcile whose
      create is answered with CREATED; the microVM is on that host and the provider ID names it. */
  lemma Provision(s: State, host: string, vm: MicroVM) returns (steps: seq<Step>)
    requires s.c.pc == Idle && s.w.store.Stored? && !s.w.store.obj.deleting && s.h.pending.None?
    requires s.w.store.obj.GetProviderID() == "" && s.w.snap.infraReady && s.w.snap.bootstrapReady
    requires HostFor(s.w.store.obj, s.w.snap) == Some(host) && GoodHost(host)
    requires GoodUid(vm.uid) && VMId(host, vm.uid) !in s.w.created && vm.state == CREATED
    ensures SmoothRun(s, steps) && Run(s, steps)
    ensures var t, id := Exec(s, steps), VMId(host, vm.uid);
            && t.c.pc == Idle && t.c.result == DONE && t.h.lost == s.h.lost
            && t.w.store.Stored? && t.w.store.foreign == s.w.store.foreign
            && t.w.store.obj == Machine(true, Some(Print(host, vm.uid)), false, true, Some(VMRunning), IsTrue)
            && RecordedIn(t.w.store) == Some(id)
            && t.w.vms == s.w.vms[id := CREATED]
            && t.w.snap == s.w.snap
  {
    hide HostOf, InstanceOf, FailureDomain, IsSpecNotFound, Run, Exec, SmoothRun, Print;
    RoundTrip(VMId(host, vm.uid));
    steps := Prepare(s, host);
    steps := Then(s, steps, Create(vm));
    steps := Then(s, steps, Patch(APPLIED));
    steps := Then(s, steps, Patch(APPLIED));
  }

  lemma ChosenHost(s: State)
    requires Inv(s) && RecordedIn(s.w.store).Some?
    ensures HostFor(s.w.store.obj, s.w.snap) == Some(RecordedIn(s.w.store).value.host)
  {
    hide HostOf, InstanceOf, Print;
  }

  /** A delete reconcile up to its lookup. */
  lemma ToLookup(s: State, host: string) returns (steps: seq<Step>)
    requires s.c.pc == Idle && s.w.store.Stored? && s.w.store.obj.deleting
    requires HostFor(s.w.store.obj, s.w.snap) == Some(host)
    ensures SmoothRun(s, steps) && Run(s, steps)
    ensures Exec(s, steps) == State(s.w, Local(DGet, s.w.store.obj, host, None, DONE), s.h.(absent := {}))
  {
    hide HostOf, InstanceOf, FailureDomain, IsSpecNotFound, Run, Exec, SmoothRun, Print;
    EmptyRun(s);
    steps := Then(s, [], Fetch(true));
    steps := Then(s, steps, Load);
    steps := Then(s, steps, Service(true));
  }

  /** A delete reconcile that finds its microVM running commits not-ready and gets it deleted. */
  lemma DeleteOnce(s: State) returns (steps: seq<Step>)
    requires Inv(s) && s.c.pc == Idle && Held(s) && s.w.store.obj.deleting && Untouched(s)
    ensures SmoothRun(s, steps) && Run(s, steps)
    ensures var t, id := Exec(s, steps), RecordedIn(s.w.store).value;
            && t.c.pc == Idle && t.c.result == Result(NoError, true) && t.h.lost == s.h.lost
            && t.h.deletes == s.h.deletes + multiset{id}
            && Held(t) && t.w.store.foreign == s.w.store.foreign
            && t.w.store.obj == s.w.store.obj.(ready := false, condition := IsFalse(MicrovmDeleting))
            && RecordedIn(t.w.store) == Some(id)
            && t.w.vms == s.w.vms[id := DELETING]
  {
    hide HostOf, InstanceOf, FailureDomain, IsSpecNotFound, Run, Exec, SmoothRun, Print, Inv;
    var id := RecordedIn(s.w.store).value;
    ChosenHost(s);
    steps := ToLookup(s, id.host);
    steps := Then(s, steps, Get(Found(MicroVM(id.uid, s.w.vms[id]))));
    steps := Then(s, steps, Patch(APPLIED));
    steps := Then(s, steps, Delete(true, true, false));
    steps := Then(s, steps, Patch(APPLIED));
  }

  /** A delete reconcile that finds its microVM DELETING makes no delete call, stores not-ready with the
      deleting reason, and asks to be called again without an error. */
  lemma PollOnce(s: State) returns (steps: seq<Step>)
    requires Inv(s) && s.c.pc == Idle && Held(s) && s.w.store.obj.deleting
    requires RecordedIn(s.w.store).Some? && RecordedIn(s.w.store).value in s.w.vms
    requires s.w.vms[RecordedIn(s.w.store).value] == DELETING
    ensures SmoothRun(s, steps) && Run(s, steps)
    ensures var t := Exec(s, steps);
            && t.c.pc == Idle && t.c.result == Result(NoError, true)
            && t.w.vms == s.w.vms && t.h.deletes == s.h.deletes && t.h.lost == s.h.lost
            && t.w.store.Stored? && t.w.store.foreign == s.w.store.foreign
            && t.w.store.obj == s.w.store.obj.(ready := false, condition := IsFalse(MicrovmDeleting))
  {
    hide HostOf, InstanceOf, FailureDomain, IsSpecNotFound, Run, Exec, SmoothRun, Print, Inv;
    var id := RecordedIn(s.w.store).value;
    ChosenHost(s);
    IdleHasNonePending(s);
    steps := ToLookup(s, id.host);
    steps := Then(s, steps, Get(Found(MicroVM(id.uid, DELETING))));
    steps := Then(s, steps, Patch(APPLIED));
    steps := Then(s, steps, Patch(APPLIED));
  }

  lemma NothingToFind(s: State, host: string)
    requires Inv(s) && s.w.store.Stored?
    requires RecordedIn(s.w.store).Some? ==> RecordedIn(s.w.store).value !in s.w.vms
    requires HostFor(s.w.store.obj, s.w.snap) == Some(host)
    ensures VMId(host, InstanceOf(s.w.store.obj.GetProviderID())) !in s.w.vms
  {
    hide HostOf, InstanceOf, Print;
    EmptyIDReadsEmpty();
  }

  /** A delete reconcile whose recorded microVM is absent, or that has none, lets the object go. */
  lemma LetGo(s: State, host: string) returns (steps: seq<Step>)
    requires Inv(s) && s.c.pc == Idle && Held(s) && s.w.store.obj.deleting && !s.w.store.foreign
    requires RecordedIn(s.w.store).Some? ==> RecordedIn(s.w.store).value !in s.w.vms
    requires HostFor(s.w.store.obj, s.w.snap) == Some(host)
    ensures SmoothRun(s, steps) && Run(s, steps)
    ensures var t := Exec(s, steps);
            t.c.pc == Idle && t.c.result == DONE && t.w.store == Gone && t.w.vms == s.w.vms && t.h.lost == s.h.lost
  {
    hide HostOf, InstanceOf, FailureDomain, IsSpecNotFound, Run, Exec, SmoothRun, Print, Inv;
    NothingToFind(s, host);
    assert s.h.pending.None? by { IdleHasNonePending(s); }
    steps := ToLookup(s, host);
    steps := Then(s, steps, Get(Nothing));
    steps := Then(s, steps, Patch(APPLIED));
  }

  lemma IdleHasNonePending(s: State)
    requires Inv(s) && s.c.pc == Idle
    ensures s.h.pending.None?
  {
    hide HostOf, InstanceOf, Print;
  }

  /** From creation to removal: some run takes a new machine to ready, and from there, after a user's
      delete, some run takes it to an empty store with no microVM on any host. */
  lemma Lifecycle(s: State, host: string, vm: MicroVM) returns (up: seq<Step>, down: seq<Step>)
    requires Initial(s) && !s.w.store.foreign && s.w.snap.infraReady && s.w.snap.bootstrapReady
    requires HostFor(s.w.store.obj, s.w.snap) == Some(host) && GoodHost(host)
    requires GoodUid(vm.uid) && vm.state == CREATED
    ensures Run(s, up) && Exec(s, up).w.store.Stored? && Exec(s, up).w.store.obj.ready
    ensures Exec(s, up).w.vms == map[VMId(host, vm.uid) := CREATED]
    ensures SmoothRun(Exec(s, up), down) && Run(Exec(s, up), down)
    ensures Exec(Exec(s, up), down).w.store == Gone && Exec(Exec(s, up), down).w.vms == map[]
  {
    hide HostOf, InstanceOf, HashChoice, IsSpecNotFound, Print, Inv, Run, Exec, SmoothRun, FailureDomain;
    InitialInv(s);
    up := Provision(s, host, vm);
    var t := Exec(s, up);
    RunKeeps(s, up);
    EmptyRun(t);
    down := Then(t, [], UserDeletes);
    RunKeeps(t, down);
    var stop := DeleteOnce(Exec(t, down));
    SmoothAppend(t, down, stop);
    down := Then(t, down + stop, HostRemoves(VMId(host, vm.uid)));
    RunKeeps(t, down);
    ChosenHost(Exec(t, down));
    var last := LetGo(Exec(t, down), host);
    SmoothAppend(t, down, last);
    down := down + last;
  }

  // ---------- What a reconcile reports ----------

  /** A normal reconcile that meets a closed gate stores its object as it was, ready or not, with the condition
      false and the reason of the first closed gate, makes no microVM, and is quiet. */
  lemma GateIsReported(s: State) returns (steps: seq<Step>)
    requires s.c.pc == Idle && s.w.store.Stored? && !s.w.store.obj.deleting
    requires !s.w.snap.infraReady || !s.w.snap.bootstrapReady
    ensures SmoothRun(s, steps) && Run(s, steps)
    ensures var t := Exec(s, steps);
            && t.c.pc == Idle && t.c.result == Result(NoError, false)
            && t.w == s.w.(store := Stored(s.w.store.obj.(condition := IsFalse(
                 if !s.w.snap.infraReady then WaitingForClusterInfra else WaitingForBootstrapData)), s.w.store.foreign))
  {
    hide HostOf, InstanceOf, FailureDomain, IsSpecNotFound, Run, Exec, SmoothRun, Print;
    EmptyRun(s);
    steps := Then(s, [], Fetch(true));
    steps := Then(s, steps, Load);
    steps := Then(s, steps, Patch(APPLIED));
  }

  /** A normal reconcile that finds its microVM, up to the commit of its ID. */
  lemma ToRecord(s: State) returns (steps: seq<Step>)
    requires Inv(s) && s.c.pc == Idle && Held(s) && !s.w.store.obj.deleting
    requires s.w.snap.infraReady && s.w.snap.bootstrapReady
    requires RecordedIn(s.w.store).Some? && RecordedIn(s.w.store).value in s.w.vms
    ensures SmoothRun(s, steps) && Run(s, steps)
    ensures var id := RecordedIn(s.w.store).value;
            Exec(s, steps) == State(
              s.w,
              Local(NPatchID, s.w.store.obj, id.host, Some(MicroVM(id.uid, s.w.vms[id])), DONE),
              s.h.(absent := {}))
  {
    hide HostOf, InstanceOf, FailureDomain, IsSpecNotFound, Run, Exec, SmoothRun, Inv, Print;
    var id := RecordedIn(s.w.store).value;
    ChosenHost(s);
    RecordedPrints(s);
    IdleHasNonePending(s);
    EmptyRun(s);
    steps := Then(s, [], Fetch(true));
    steps := Then(s, steps, Load);
    steps := Then(s, steps, Service(true));
    steps := Then(s, steps, Get(Found(MicroVM(id.uid, s.w.vms[id]))));
    steps := Then(s, steps, Patch(APPLIED));
  }

  /** A normal reconcile that finds its microVM makes none, keeps the provider ID and stores what the host
      said: ready for CREATED; not ready with the matching state and reason for PENDING, FAILED and states
      without a name; unchanged status for DELETING. */
  lemma FoundIsReported(s: State) returns (steps: seq<Step>)
    requires Inv(s) && s.c.pc == Idle && Held(s) && !s.w.store.obj.deleting
    requires s.w.snap.infraReady && s.w.snap.bootstrapReady
    requires RecordedIn(s.w.store).Some? && RecordedIn(s.w.store).value in s.w.vms
    ensures SmoothRun(s, steps) && Run(s, steps)
    ensures var t, obj := Exec(s, steps), s.w.store.obj;
            && t.c.pc == Idle && t.w.vms == s.w.vms && t.w.created == s.w.created
            && t.w.store.Stored? && t.w.store.foreign == s.w.store.foreign
            && Reported(obj, s.w.vms[RecordedIn(s.w.store).value], t.c.result, t.w.store.obj)
  {
    hide HostOf, InstanceOf, FailureDomain, IsSpecNotFound, Run, Exec, SmoothRun, Inv, Print;
    IdleHasNonePending(s);
    steps := ToRecord(s);
    steps := Then(s, steps, Patch(APPLIED));
    steps := Then(s, steps, Patch(APPLIED));
  }

  lemma RecordedPrints(s: State)
    requires Inv(s) && RecordedIn(s.w.store).Some?
    ensures var id := RecordedIn(s.w.store).value;
            s.w.store.obj.providerID == Some(Print(id.host, id.uid))
  {
    hide HostOf, InstanceOf, Print;
  }

  /** A delete call that fails is reported: an error, a not-ready machine with the delete-failed reason, the
      finalizer still there, and the microVM still recorded. */
  lemma DeleteFailureIsReported(s: State, reached: bool)
    requires Inv(s) && s.c.pc == DDelete
    ensures Allowed(s, Delete(false, reached, false))
    ensures var t := Next(s, Delete(false, reached, false));
            && Allowed(t, Patch(APPLIED))
            && var u := Next(t, Patch(APPLIED));
            && u.c.pc == Idle && u.c.result == Result(DeleteError, false)
            && Held(u) && !u.w.store.obj.ready && u.w.store.obj.condition == IsFalse(MicrovmDeleteFailed)
            && RecordedIn(u.w.store) == RecordedIn(s.w.store)
  {
    hide HostOf, InstanceOf, Print;
  }

  // ---------- A lost create ----------

  /** The bound on lost microVMs is met: whenever a microVM has just been made and the process dies before
      any patch, a user's delete lets the machine go and the microVM stays. */
  lemma CrashAfterCreateLeaks(t: State, host: string) returns (steps: seq<Step>)
    requires Reachable(t) && t.h.pending.Some? && t.h.pending.value in t.w.vms
    requires t.w.store.Stored? && !t.w.store.foreign && HostFor(t.w.store.obj, t.w.snap) == Some(host)
    ensures Run(t, steps)
    ensures var u := Exec(t, steps);
            u.w.store == Gone && t.h.pending.value in u.w.vms && u.h.lost == t.h.lost + {t.h.pending.value}
  {
    hide HostOf, InstanceOf, FailureDomain, IsSpecNotFound, Print, Inv, Run, Exec, SmoothRun, Reachable;
    ReachableInv(t);
    PendingFacts(t);
    StepKeeps(t, Crash);
    var t1 := Next(t, Crash);
    EmptyRun(t1);
    var asked := Then(t1, [], UserDeletes);
    RunKeeps(t1, asked);
    var last := LetGo(Exec(t1, asked), host);
    SmoothAppend(t1, asked, last);
    steps := RunCons(t, Crash, asked + last);
  }

  lemma PendingFacts(t: State)
    requires Inv(t) && t.h.pending.Some?
    ensures Held(t) && t.c.pc != Idle
    ensures RecordedIn(t.w.store).Some? ==> RecordedIn(t.w.store).value !in t.w.vms
  {
    hide HostOf, InstanceOf, Print;
  }

  // ---------- A stalled delete ----------

  /** The stall of `Deletion.StalledForever` is reached from every new machine with open gates that placement
      puts on a published host, with nothing lost: its create fails once, the user deletes it, and the pool
      is emptied. */
  lemma StallReached(s: State, host: string) returns (steps: seq<Step>)
    requires Initial(s) && s.w.snap.infraReady && s.w.snap.bootstrapReady && Unset(s.w.snap.machineFD)
    requires HostFor(s.w.store.obj, s.w.snap) == Some(host)
    ensures Run(s, steps) && Stalled(Exec(s, steps))
    ensures Exec(s, steps).h.lost == {} && Exec(s, steps).w.vms == map[]
  {
    hide HostOf, InstanceOf, FailureDomain, IsSpecNotFound, Run, Exec, SmoothRun, Print;
    var first := Prepare(s, host);
    var t := Exec(s, first);
    var t1 := Next(t, CreateFails(None));
    var t2 := Next(t1, Patch(APPLIED));
    var t3 := Next(t2, UserDeletes);
    var t4 := Next(t3, SetFailureDomains(map[]));
    NoStep(t4);
    var rest := RunCons(t3, SetFailureDomains(map[]), []);
    rest := RunCons(t2, UserDeletes, rest);
    rest := RunCons(t1, Patch(APPLIED), rest);
    rest := RunCons(t, CreateFails(None), rest);
    RunAppend(s, first, rest);
    steps := first + rest;
  }

  // ---------- A misleading error ----------

  /** What it costs to recognise a missing microVM by the text of an error. At every delete lookup of every run
      with the microVM there, any error that does not mean "absent" keeps the finalizer and the record if its
      text has no "not found" in it; and otherwise lets the machine go while the microVM stays. */
  lemma MisleadingDelete(t: State, text: string)
    requires Reachable(t) && t.c.pc == DGet && t.w.store.Stored? && !t.w.store.foreign
    requires RecordedIn(t.w.store).Some? && RecordedIn(t.w.store).value in t.w.vms
    ensures var told := AfterGet(t, GetFailed(text));
            && Allowed(told, Patch(APPLIED))
            && var u := Next(told, Patch(APPLIED));
            && u.c.pc == Idle && u.h.lost == t.h.lost && RecordedIn(t.w.store).value in u.w.vms
            && (u.w.store.Gone? <==> IsSpecNotFound(text))
            && (u.c.result.Quiet() <==> IsSpecNotFound(text))
            && (!IsSpecNotFound(text) ==> Held(u) && RecordedIn(u.w.store) == RecordedIn(t.w.store))
  {
    hide HostOf, InstanceOf, Print, IsSpecNotFound, Reachable;
    ReachableInv(t);
  }

  /** The same in a normal reconcile: a second microVM is made and recorded in place of the first, which stays
      with nobody to name it. */
  lemma MisleadingCreate(t: State, text: string, vm: MicroVM) returns (steps: seq<Step>)
    requires Reachable(t) && t.c.pc == NGet && t.w.store.Stored? && IsSpecNotFound(text)
    requires RecordedIn(t.w.store).Some? && RecordedIn(t.w.store).value in t.w.vms && Fresh(t.w, t.c, vm)
    ensures var told := AfterGet(t, GetFailed(text));
            && SmoothRun(told, steps) && Run(told, steps)
            && var u, id := Exec(told, steps), VMId(t.c.host, vm.uid);
            && u.c.pc == Idle && u.h.lost == t.h.lost && Held(u) && RecordedIn(u.w.store) == Some(id)
            && u.w.vms == t.w.vms[id := vm.state] && RecordedIn(t.w.store).value != id
  {
    hide HostOf, InstanceOf, Print, HashChoice, IsSpecNotFound, Run, Exec, SmoothRun, Inv, Reachable;
    ReachableInv(t);
    LookupFacts(t);
    RoundTrip(VMId(t.c.host, vm.uid));
    var told := AfterGet(t, GetFailed(text));
    EmptyRun(told);
    steps := Then(told, [], Patch(APPLIED));
    steps := Then(told, steps, Create(vm));
    steps := Then(told, steps, Patch(APPLIED));
    steps := Then(told, steps, Patch(APPLIED));
  }

  lemma LookupFacts(t: State)
    requires Inv(t) && t.c.pc == NGet && t.w.store.Stored?
    requires RecordedIn(t.w.store).Some? && RecordedIn(t.w.store).value in t.w.vms
    ensures Held(t) && t.h.pending.None? && !t.c.mem.deleting && GoodHost(t.c.host)
    ensures RecordedIn(t.w.store).value in t.w.created
  {
    hide HostOf, InstanceOf, Print;
  }

  // ---------- A machine that is told to move ----------

  /** A change of the machine's failure domain keeps the stored host and the chosen host equal exactly
      when it unsets the failure domain or sets it to the host where the microVM already is. */
  lemma MoveKeepsHost(t: State, fd: Option<string>)
    requires Enabled(t, SetMachineFD(fd)) && RecordedIn(t.w.store).Some?
    ensures var id, u := RecordedIn(t.w.store).value, Next(t, SetMachineFD(fd));
            HostFor(u.w.store.obj, u.w.snap) == Some(id.host) <==> Unset(fd) || fd.value == id.host
  {
    hide HostOf, InstanceOf, Print;
  }

  lemma OwnFailureDomain(m: Machine, snap: Snapshot)
    requires !Unset(snap.machineFD)
    ensures HostFor(m, snap) == snap.machineFD
  {
  }

  /** A user's delete, and the delete reconcile up to its lookup on the machine's own failure domain. */
  lemma ToMovedLookup(t: State, fd: string) returns (steps: seq<Step>)
    requires t.c.pc == Idle && Held(t) && t.w.snap.machineFD == Some(fd) && fd != ""
    ensures SmoothRun(t, steps) && Run(t, steps)
    ensures var obj := t.w.store.obj.(deleting := true);
            Exec(t, steps) == State(
              t.w.(store := t.w.store.(obj := obj)), Local(DGet, obj, fd, None, DONE), t.h.(absent := {}))
  {
    hide HostOf, InstanceOf, Print, FailureDomain, IsSpecNotFound, Run, Exec, SmoothRun;
    EmptyRun(t);
    var asked := Then(t, [], UserDeletes);
    OwnFailureDomain(Exec(t, asked).w.store.obj, t.w.snap);
    var look := ToLookup(Exec(t, asked), fd);
    SmoothAppend(t, asked, look);
    steps := asked + look;
  }

  /** A machine placed on one host with its only microVM on another: a user's delete lets it go. */
  lemma MovedDelete(t: State, fd: string, id: VMId) returns (steps: seq<Step>)
    requires t.c.pc == Idle && Held(t) && !t.w.store.foreign && t.w.snap.machineFD == Some(fd) && fd != ""
    requires fd != id.host && t.w.vms.Keys == {id}
    ensures SmoothRun(t, steps) && Run(t, steps)
    ensures var u := Exec(t, steps);
            u.w.store == Gone && id in u.w.vms && u.h.lost == t.h.lost
  {
    hide HostOf, InstanceOf, Print, FailureDomain, IsSpecNotFound, Run, Exec, SmoothRun;
    steps := ToMovedLookup(t, fd);
    steps := Then(t, steps, Get(Nothing));
    steps := Then(t, steps, Patch(APPLIED));
  }

  /** Without that agreement the protocol leaks although no call fails and nothing was ever lost: told to
      move to another host while its microVM runs, and then deleted, the machine is let go and its microVM
      stays. */
  lemma MoveThenDeleteLeaks(t: State, fd: string) returns (steps: seq<Step>)
    requires Reachable(t) && t.c.pc == Idle && t.h.lost == {}
    requires Held(t) && !t.w.store.foreign && RecordedIn(t.w.store).Some?
    requires RecordedIn(t.w.store).value in t.w.vms
    requires GoodHost(fd) && fd != "" && fd != RecordedIn(t.w.store).value.host
    ensures Enabled(t, SetMachineFD(Some(fd)))
    ensures var moved := Next(t, SetMachineFD(Some(fd)));
            && SmoothRun(moved, steps) && Run(moved, steps)
            && Exec(moved, steps).w.store == Gone && Exec(moved, steps).h.lost == {}
            && RecordedIn(t.w.store).value in Exec(moved, steps).w.vms
  {
    hide HostOf, InstanceOf, Print, HashChoice, IsSpecNotFound, Run, Exec, SmoothRun, Inv, Reachable;
    ReachableInv(t);
    OnlyRecorded(t);
    steps := MovedDelete(Next(t, SetMachineFD(Some(fd))), fd, RecordedIn(t.w.store).value);
  }

  /** The same after a move in the middle of a reconcile: with a host already chosen and the microVM about to
      be made there, the machine ends up recorded on the old host and placed on the new one. */
  lemma MoveMidwayThenDeleteLeaks(t: State, fd: string, vm: MicroVM) returns (steps: seq<Step>)
    requires Reachable(t) && t.c.pc == NCreate && t.h.lost == {} && t.w.vms == map[]
    requires t.w.store.Stored? && !t.w.store.foreign
    requires GoodHost(fd) && fd != "" && fd != t.c.host && Fresh(t.w, t.c, vm)
    ensures Enabled(t, SetMachineFD(Some(fd)))
    ensures var moved := Next(t, SetMachineFD(Some(fd)));
            && SmoothRun(moved, steps) && Run(moved, steps)
            && Exec(moved, steps).w.store == Gone && Exec(moved, steps).h.lost == {}
            && VMId(t.c.host, vm.uid) in Exec(moved, steps).w.vms
  {
    hide HostOf, InstanceOf, Print, HashChoice, IsSpecNotFound, Run, Exec, SmoothRun, Inv, Reachable;
    ReachableInv(t);
    CreateFacts(t);
    var moved := Next(t, SetMachineFD(Some(fd)));
    EmptyRun(moved);
    var made := Then(moved, [], Create(vm));
    made := Then(moved, made, Patch(APPLIED));
    made := Then(moved, made, Patch(APPLIED));
    var rest := MovedDelete(Exec(moved, made), fd, VMId(t.c.host, vm.uid));
    SmoothAppend(moved, made, rest);
    steps := made + rest;
  }

  lemma CreateFacts(t: State)
    requires Inv(t) && t.c.pc == NCreate
    ensures Held(t) && t.h.pending.None? && t.c.mem.finalizer && !t.c.mem.deleting && GoodHost(t.c.host)
  {
    hide HostOf, InstanceOf, Print;
  }

  lemma OnlyRecorded(t: State)
    requires Inv(t) && t.c.pc == Idle && t.h.lost == {}
    ensures forall id :: id in t.w.vms ==> RecordedIn(t.w.store) == Some(id)
  {
    hide HostOf, InstanceOf, Print;
  }
}
