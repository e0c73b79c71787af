/** The invariant of the protocol, and that every allowed step keeps it. */
module Invariant {
  import opened Controller
  import opened MachineIDs
  import opened Machines
  import opened Options
  import opened Placement
  import opened Protocol

  // ---------- The parts of the invariant ----------

  /** Names have the form the hosts and the cluster promise, and only known microVMs exist. */
  ghost predicate GoodNames(w: World) {
    && (forall n :: n in w.snap.failureDomains ==> GoodHost(n))
    && (w.snap.machineFD.Some? ==> GoodHost(w.snap.machineFD.value))
    && (forall id :: id in w.created ==> Good(id))
    && (forall id :: id in w.vms ==> id in w.created)
  }

  /** A provider ID was printed from a microVM that was made, and both readers recover it. */
  ghost predicate GoodID(created: set<VMId>, m: Machine) {
    m.GetProviderID() != "" ==>
      var id := Recorded(m).value;
      id in created && m.GetProviderID() == Print(id.host, id.uid)
  }

  predicate IsWaiting(c: Condition) {
    c == IsFalse(WaitingForClusterInfra) || c == IsFalse(WaitingForBootstrapData)
  }

  /** The status of a machine tells one story. */
  predicate Coherent(m: Machine) {
    && (m.condition == IsTrue ==> m.ready)
    && (m.ready ==>
          && m.vmState == Some(VMRunning)
          && m.GetProviderID() != ""
          && (m.deleting || m.finalizer)
          && (m.condition == IsTrue || IsWaiting(m.condition)))
    && (m.condition == IsFalse(MicrovmPending) ==> m.vmState == Some(VMPending))
    && (m.condition == IsFalse(MicrovmProvisionFailed) ==> m.vmState == Some(VMFailed))
    && (m.condition == IsFalse(MicrovmUnknownState) ==> m.vmState == Some(VMUnknown))
    && (m.condition == IsFalse(MicrovmDeleting) || m.condition == IsFalse(MicrovmDeleteFailed) ==> m.deleting)
  }

  /** Marking a machine ready is truthful exactly when its VM state is running, it names a microVM, and it
      still has its finalizer unless it is being deleted. */
  lemma ReadyCoherent(m: Machine)
    ensures Coherent(m.AsReady()) <==>
            m.vmState == Some(VMRunning) && m.GetProviderID() != "" && (m.deleting || m.finalizer)
  {
  }

  /** The reason agrees with the VM state and the deletion mark. */
  predicate Agreeing(m: Machine, reason: Reason) {
    match reason
    case MicrovmPending => m.vmState == Some(VMPending)
    case MicrovmProvisionFailed => m.vmState == Some(VMFailed)
    case MicrovmUnknownState => m.vmState == Some(VMUnknown)
    case MicrovmDeleting => m.deleting
    case MicrovmDeleteFailed => m.deleting
    case _ => true
  }

  /** Marking a machine not ready is truthful, from any status, exactly when the reason agrees. */
  lemma NotReadyCoherent(m: Machine, reason: Reason)
    ensures Coherent(m.AsNotReady(reason)) <==> Agreeing(m, reason)
  {
  }

  /** The machine's own failure domain, if set, is this host. */
  predicate Fits(w: World, host: string) {
    Unset(w.snap.machineFD) || w.snap.machineFD.value == host
  }

  ghost predicate StoreOk(s: State) {
    s.w.store.Stored? ==>
      var obj := s.w.store.obj;
      && GoodID(s.w.created, obj) && Coherent(obj)
      && (Recorded(obj).Some? ==>
            && Fits(s.w, Recorded(obj).value.host)
            && Recorded(obj).value !in s.h.lost
            && (!obj.finalizer ==> Recorded(obj).value !in s.w.vms))
      && Settle(s.w.store) == s.w.store
  }

  /** Every existing microVM is recorded in the store, about to be, or counted as lost. */
  ghost predicate NoneForgotten(s: State) {
    forall id :: id in s.w.vms ==>
      id in s.h.lost || s.h.pending == Some(id) || RecordedIn(s.w.store) == Some(id)
  }

  ghost predicate HistoryOk(s: State) {
    && (forall id :: id in s.h.lost ==> id in s.w.created)
    && (forall id :: id in s.h.absent ==> id !in s.w.vms && (id in s.w.created || id.uid == ""))
    && (forall id :: id in s.h.deletes ==>
          s.h.deletes[id] == 1 && id in s.w.created && (id in s.w.vms ==> s.w.vms[id] == DELETING))
  }

  /** The stored object carries the finalizer. */
  predicate Held(s: State) {
    s.w.store.Stored? && s.w.store.obj.finalizer
  }

  ghost predicate SeenAbsent(s: State, m: Machine) {
    Recorded(m).Some? ==> Recorded(m).value in s.h.absent
  }

  /** A microVM made by the reconcile in progress is named by the in-memory object, the store can still
      take that name, and what it would replace was reported absent. */
  ghost predicate PendingOk(s: State) {
    s.h.pending.Some? ==>
      && s.h.pending.value in s.w.created && s.h.pending.value !in s.h.lost && s.h.pending.value !in s.h.absent
      && s.c.pc in {NPatchID, Exit}
      && !s.c.mem.deleting && s.c.mem.finalizer && Held(s)
      && Recorded(s.c.mem) == s.h.pending
      && SeenAbsent(s, s.w.store.obj)
      && (Recorded(s.w.store.obj).Some? ==> Recorded(s.w.store.obj).value.host == s.h.pending.value.host)
  }

  /** The in-memory object against the store, at any point of a reconcile. */
  ghost predicate MemoryOk(s: State) {
    s.c.pc != Idle ==>
      var m := s.c.mem;
      && GoodID(s.w.created, m) && Coherent(m)
      && (Recorded(m).Some? ==> Fits(s.w, Recorded(m).value.host) && Recorded(m).value !in s.h.lost)
      && (s.w.store.Stored? ==>
            var obj := s.w.store.obj;
            && (m.deleting ==> obj.deleting)
            && (!m.deleting && obj.finalizer ==> m.finalizer)
            && (m.deleting && m.finalizer ==> obj.finalizer)
            && (m.deleting && obj.finalizer && !m.finalizer ==>
                  s.c.pc == Exit && SeenAbsent(s, m) && Target(s.c) in s.h.absent)
            && (m.ready ==> obj.GetProviderID() != "" && (obj.deleting || obj.finalizer))
            && (s.h.pending.None? ==> obj.providerID == m.providerID))
  }

  ghost predicate HostOk(s: State) {
    HostChosen(s.c) ==>
      && GoodHost(s.c.host) && Fits(s.w, s.c.host)
      && (Recorded(s.c.mem).Some? ==> Recorded(s.c.mem).value.host == s.c.host)
  }

  /** `vm` is the microVM that the in-memory object records. */
  ghost predicate VmRecorded(c: Local) {
    c.vm.Some? && Recorded(c.mem) == Some(VMId(c.host, c.vm.value.uid))
  }

  ghost predicate PlaceOk(s: State) {
    var c := s.c;
    match c.pc
    case Idle => s.h.pending.None?
    case Fetched => true
    case NService => !c.mem.deleting
    case NGet => !c.mem.deleting && Recorded(c.mem).Some?
    case NPatchFin =>
      && !c.mem.deleting && c.mem.finalizer
      && (if c.vm.Some? then VmRecorded(c) else SeenAbsent(s, c.mem))
    case NCreate => !c.mem.deleting && c.mem.finalizer && Held(s) && c.vm.None? && SeenAbsent(s, c.mem)
    case NPatchID => !c.mem.deleting && c.mem.finalizer && Held(s) && VmRecorded(c)
    case DService => c.mem.deleting
    case DGet => c.mem.deleting
    case DPatch =>
      && c.mem.deleting && !c.mem.ready && Held(s) && VmRecorded(c)
      && (c.vm.value.state != DELETING ==> Recorded(c.mem).value !in s.h.deletes)
    case DDelete =>
      && c.mem.deleting && !c.mem.ready && Held(s) && VmRecorded(c) && !s.w.store.obj.ready
      && Recorded(c.mem).value !in s.h.deletes
    case Exit => true
  }

  ghost predicate Inv(s: State) {
    && GoodNames(s.w)
    && StoreOk(s)
    && NoneForgotten(s)
    && HistoryOk(s)
    && PendingOk(s)
    && MemoryOk(s)
    && HostOk(s)
    && PlaceOk(s)
  }

  // ---------- Kept by every step ----------

  lemma InitialInv(s: State)
    requires Initial(s)
    ensures Inv(s)
  {
  }

  lemma FetchKeeps(s: State, a: Step)
    requires Inv(s) && Enabled(s, a) && (a.Fetch? || a.Skip?)
    ensures Inv(Next(s, a))
  {
    hide HostOf, InstanceOf, Print, HashChoice, IsSpecNotFound, GoodID, Recorded, Settle;
  }

  lemma CrashKeeps(s: State)
    requires Inv(s) && Enabled(s, Crash)
    ensures Inv(Next(s, Crash))
  {
    hide HostOf, InstanceOf, Print, HashChoice, IsSpecNotFound, Coherent, GoodID, Recorded, Settle;
  }

  /** The chosen host has the form of a host, fits the machine's own failure domain, and is the recorded
      host if there is one. */
  lemma ChosenHostOk(w: World, m: Machine)
    requires GoodNames(w) && GoodID(w.created, m) && HostFor(m, w.snap).Some?
    requires Recorded(m).Some? ==> Fits(w, Recorded(m).value.host)
    ensures GoodHost(HostFor(m, w.snap).value) && Fits(w, HostFor(m, w.snap).value)
    ensures Recorded(m).Some? ==> Recorded(m).value.host == HostFor(m, w.snap).value
  {
    hide HostOf, InstanceOf, Print;
  }

  /** Leaving early keeps the invariant from anywhere in a reconcile. */
  lemma LeaveKeeps(s: State, c: Local)
    requires Inv(s) && s.c.pc !in {Idle, Exit} && c.pc == Exit && c.mem == s.c.mem
    ensures Inv(s.(c := c))
  {
    hide HostOf, InstanceOf, Print, HashChoice, IsSpecNotFound, Coherent, GoodID, Recorded, Settle;
  }

  lemma GateKeeps(s: State, c: Local, reason: Condition)
    requires Inv(s) && s.c.pc == Fetched && !s.c.mem.deleting && IsWaiting(reason)
    requires c.pc == Exit && c.mem == s.c.mem.(condition := reason)
    ensures Inv(s.(c := c))
  {
    hide HostOf, InstanceOf, Print, HashChoice, IsSpecNotFound, Settle;
  }

  lemma ChosenKeeps(s: State, c: Local)
    requires Inv(s) && s.c.pc == Fetched && HostFor(s.c.mem, s.w.snap) == Some(c.host)
    requires c.pc == (if s.c.mem.deleting then DService else NService) && c.mem == s.c.mem
    ensures Inv(s.(c := c))
  {
    hide HostOf, InstanceOf, Print, FailureDomain, IsSpecNotFound, Settle, Coherent;
    ChosenHostOk(s.w, s.c.mem);
  }

  lemma LoadKeeps(s: State)
    requires Inv(s) && Enabled(s, Load)
    ensures Inv(Next(s, Load))
  {
    hide Inv, FailureDomain;
    var c := OnLoaded(s.c, s.w.snap);
    if c.pc != Exit { ChosenKeeps(s, c); }
    else if c.mem == s.c.mem { LeaveKeeps(s, c); }
    else { GateKeeps(s, c, c.mem.condition); }
  }

  lemma ServiceKeeps(s: State, ok: bool)
    requires Inv(s) && Enabled(s, Service(ok))
    ensures Inv(Next(s, Service(ok)))
  {
    hide HostOf, InstanceOf, Print, HashChoice, IsSpecNotFound, Settle;
  }

  lemma FinalizerCoherent(m: Machine)
    ensures Coherent(m) ==> Coherent(m.(finalizer := true))
  {
  }

  lemma NormalFoundKeeps(s: State, vm: MicroVM)
    requires Inv(s) && Enabled(s, Get(Found(vm))) && s.c.pc == NGet
    ensures Inv(Next(s, Get(Found(vm))))
  {
    hide HostOf, InstanceOf, Print, HashChoice, IsSpecNotFound, Settle, Coherent;
    FinalizerCoherent(s.c.mem);
  }

  lemma NormalAbsentKeeps(s: State, reply: GetReply)
    requires Inv(s) && Enabled(s, Get(reply)) && SaysAbsent(reply) && s.c.pc == NGet
    ensures Inv(Next(s, Get(reply)))
  {
    hide HostOf, InstanceOf, Print, HashChoice, IsSpecNotFound, Settle, Coherent;
    FinalizerCoherent(s.c.mem);
  }

  lemma DeleteFoundKeeps(s: State, vm: MicroVM)
    requires Inv(s) && Enabled(s, Get(Found(vm))) && s.c.pc == DGet
    ensures Inv(Next(s, Get(Found(vm))))
  {
    hide HostOf, InstanceOf, Print, HashChoice, IsSpecNotFound, Settle;
    EmptyIDReadsEmpty();
  }

  lemma DeleteAbsentKeeps(s: State, reply: GetReply)
    requires Inv(s) && Enabled(s, Get(reply)) && SaysAbsent(reply) && s.c.pc == DGet
    ensures Inv(Next(s, Get(reply)))
  {
    hide HostOf, InstanceOf, Print, HashChoice, IsSpecNotFound, Settle;
    EmptyIDReadsEmpty();
  }

  lemma GetKeeps(s: State, reply: GetReply)
    requires Inv(s) && Enabled(s, Get(reply))
    ensures Inv(Next(s, Get(reply)))
  {
    hide HostOf, InstanceOf, Print, HashChoice, IsSpecNotFound, Inv;
    if reply.GetFailed? && !IsSpecNotFound(reply.text) { LeaveKeeps(s, Leave(s.c, Fail(GetError))); }
    else if s.c.pc == NGet && reply.Found? { NormalFoundKeeps(s, reply.vm); }
    else if s.c.pc == NGet { NormalAbsentKeeps(s, reply); }
    else if reply.Found? { DeleteFoundKeeps(s, reply.vm); }
    else { DeleteAbsentKeeps(s, reply); }
  }

  /** A patch in two halves: first the store takes what is written... */
  ghost function InStore(s: State, commit: Commit): State {
    s.(w := s.w.(store := Committed(s.w.store, s.c.mem, commit)),
       h := if commit.resource then s.h.(pending := None) else s.h)
  }

  lemma CoherentOnceDeleted(m: Machine)
    requires Coherent(m)
    ensures Coherent(m.(deleting := true))
  {
  }

  lemma MergedCoherent(s: State, commit: Commit)
    requires Inv(s) && s.c.pc != Idle && s.w.store.Stored?
    ensures Coherent(Merged(s.w.store.obj, s.c.mem, commit))
  {
    hide HostOf, InstanceOf, Print, HashChoice, IsSpecNotFound, Settle;
  }

  lemma StatusCommitKeeps(s: State, commit: Commit)
    requires s.c.AtPatch() && !commit.resource && s.w.store.Stored?
    requires Inv(s)
    ensures Inv(InStore(s, commit))
  {
    hide HostOf, InstanceOf, Print, HashChoice, IsSpecNotFound, Coherent;
    MergedCoherent(s, commit);
  }

  lemma ResourceCommitKeeps(s: State, commit: Commit)
    requires s.c.AtPatch() && commit.resource && Accepts(s.w.store, s.c.mem)
    requires Inv(s)
    ensures Inv(InStore(s, commit))
    ensures commit.status && s.c.pc != Exit ==>
              Held(InStore(s, commit)) && InStore(s, commit).w.store.obj.ready == s.c.mem.ready
  {
    hide HostOf, InstanceOf, Print, HashChoice, IsSpecNotFound, Coherent;
    MergedCoherent(s, commit);
  }

  /** ... then the controller hears about it. */
  ghost function Heard(s: State, ok: bool): State
    requires s.c.AtPatch() && (s.c.pc in {NPatchID, DPatch} ==> s.c.vm.Some?)
  {
    State(s.w, OnPatch(s.c, ok), if s.c.pc == Exit then Over(s.h) else s.h)
  }

  lemma HeardFailureKeeps(s: State)
    requires s.c.AtPatch() && (s.c.pc in {NPatchID, DPatch} ==> s.c.vm.Some?)
    requires Inv(s)
    ensures Inv(Heard(s, false))
  {
    hide HostOf, InstanceOf, Print, HashChoice, IsSpecNotFound, Settle, Coherent, Recorded, GoodID;
  }

  lemma FinalizerHeardKeeps(s: State)
    requires s.c.pc == NPatchFin
    requires Inv(s) && s.h.pending.None? && Held(s)
    ensures Inv(Heard(s, true))
  {
    hide HostOf, InstanceOf, Print, HashChoice, IsSpecNotFound, Settle, Coherent;
  }

  lemma IDHeardKeeps(s: State)
    requires s.c.pc == NPatchID && s.c.vm.Some?
    requires Inv(s) && s.h.pending.None?
    ensures Inv(Heard(s, true))
  {
    hide HostOf, InstanceOf, Print, HashChoice, IsSpecNotFound, Settle;
  }

  lemma NotReadyHeardKeeps(s: State)
    requires s.c.pc == DPatch && s.c.vm.Some?
    requires Inv(s) && s.h.pending.None? && Held(s) && !s.w.store.obj.ready
    ensures Inv(Heard(s, true))
  {
    hide HostOf, InstanceOf, Print, HashChoice, IsSpecNotFound, Settle, Coherent;
  }

  lemma ExitHeardKeeps(s: State)
    requires s.c.pc == Exit
    requires Inv(s) && s.h.pending.None?
    ensures Inv(Heard(s, true))
  {
    hide HostOf, InstanceOf, Print, HashChoice, IsSpecNotFound, Settle, Coherent;
  }

  lemma PatchKeeps(s: State, commit: Commit)
    requires Inv(s) && Enabled(s, Patch(commit))
    ensures Inv(Next(s, Patch(commit)))
  {
    hide HostOf, InstanceOf, Print, HashChoice, IsSpecNotFound;
    var t := InStore(s, commit);
    if commit.resource { ResourceCommitKeeps(s, commit); }
    else if s.w.store.Stored? { StatusCommitKeeps(s, commit); }
    if !commit.confirmed { HeardFailureKeeps(t); }
    else if s.c.pc == NPatchFin { FinalizerHeardKeeps(t); }
    else if s.c.pc == NPatchID { IDHeardKeeps(t); }
    else if s.c.pc == DPatch { NotReadyHeardKeeps(t); }
    else { ExitHeardKeeps(t); }
  }

  lemma NamedCoherent(m: Machine, host: string, uid: string)
    ensures Coherent(m) ==> Coherent(m.WithProviderID(host, uid))
  {
  }

  lemma CreateKeeps(s: State, vm: MicroVM)
    requires Inv(s) && Enabled(s, Create(vm))
    ensures Inv(Next(s, Create(vm)))
  {
    hide HostOf, InstanceOf, Print, HashChoice, IsSpecNotFound, Settle, Coherent;
    NamedCoherent(s.c.mem, s.c.host, vm.uid);
    RoundTrip(VMId(s.c.host, vm.uid));
  }

  /** A microVM that nobody will ever name. */
  ghost function WithLost(s: State, id: VMId, state: HostState): State {
    s.(w := Made(s.w, id, state), h := s.h.(lost := s.h.lost + {id}))
  }

  lemma LostVMKeeps(s: State, id: VMId, state: HostState)
    requires Inv(s) && Good(id) && id !in s.w.created
    ensures Inv(WithLost(s, id, state))
  {
    hide HostOf, InstanceOf, Print, HashChoice, IsSpecNotFound, Settle, Coherent;
  }

  lemma CreateFailsKeeps(s: State, made: Option<MicroVM>)
    requires Inv(s) && Enabled(s, CreateFails(made))
    ensures Inv(Next(s, CreateFails(made)))
  {
    hide HostOf, InstanceOf, Print, HashChoice, IsSpecNotFound, Inv;
    var t := s;
    if made.Some? {
      ChosenHostGood(s);
      var id := VMId(s.c.host, made.value.uid);
      LostVMKeeps(s, id, made.value.state);
      t := WithLost(s, id, made.value.state);
    }
    LeaveKeeps(t, OnCreate(s.c, None));
  }

  lemma ChosenHostGood(s: State)
    requires Inv(s) && HostChosen(s.c)
    ensures GoodHost(s.c.host)
  {
    hide HostOf, InstanceOf, Print;
  }

  lemma DeleteHeardKeeps(s: State, ok: bool)
    requires Inv(s) && s.c.pc == DDelete
    ensures Inv(s.(c := OnDelete(s.c, ok)))
    ensures Target(s.c) in s.w.created && Target(s.c) !in s.h.deletes
  {
    hide HostOf, InstanceOf, Print, HashChoice, IsSpecNotFound, Settle;
  }

  /** The host carries out a delete. */
  ghost function WithDelete(s: State, id: VMId, removed: bool): State {
    s.(w := s.w.(vms := AfterDelete(s.w.vms, id, removed)), h := s.h.(deletes := s.h.deletes + multiset{id}))
  }

  lemma DeleteReachesKeeps(s: State, id: VMId, removed: bool)
    requires Inv(s) && s.c.pc == Exit && id in s.w.created && id !in s.h.deletes
    ensures Inv(WithDelete(s, id, removed))
  {
    hide HostOf, InstanceOf, Print, HashChoice, IsSpecNotFound, Settle, Coherent, GoodID, Recorded;
  }

  lemma DeleteKeeps(s: State, ok: bool, reached: bool, removed: bool)
    requires Inv(s) && Enabled(s, Delete(ok, reached, removed))
    ensures Inv(Next(s, Delete(ok, reached, removed)))
  {
    hide InstanceOf, Inv;
    DeleteHeardKeeps(s, ok);
    if reached { DeleteReachesKeeps(s.(c := OnDelete(s.c, ok)), Target(s.c), removed); }
  }

  lemma UserDeletesKeeps(s: State)
    requires Inv(s) && Enabled(s, UserDeletes)
    ensures Inv(Next(s, UserDeletes))
  {
    hide HostOf, InstanceOf, Print, HashChoice, IsSpecNotFound, Coherent;
    if Coherent(s.w.store.obj) { CoherentOnceDeleted(s.w.store.obj); }
  }

  lemma ForeignFinalizerKeeps(s: State, present: bool)
    requires Inv(s) && Enabled(s, ForeignFinalizer(present))
    ensures Inv(Next(s, ForeignFinalizer(present)))
  {
    hide HostOf, InstanceOf, Print, HashChoice, IsSpecNotFound, Coherent, GoodID;
  }

  lemma HostMovesKeeps(s: State, a: Step)
    requires Inv(s) && a.HostMoves? && Enabled(s, a)
    ensures Inv(Next(s, a))
  {
    hide HostOf, InstanceOf, Print, HashChoice, IsSpecNotFound, Coherent, GoodID, Recorded, Settle;
  }

  lemma HostRemovesKeeps(s: State, a: Step)
    requires Inv(s) && a.HostRemoves? && Enabled(s, a)
    ensures Inv(Next(s, a))
  {
    hide HostOf, InstanceOf, Print, HashChoice, IsSpecNotFound, Coherent, GoodID, Recorded, Settle;
  }

  lemma SetFailureDomainsKeeps(s: State, a: Step)
    requires Inv(s) && a.SetFailureDomains? && Enabled(s, a)
    ensures Inv(Next(s, a))
  {
    hide HostOf, InstanceOf, Print, HashChoice, IsSpecNotFound, Coherent, GoodID, Recorded, Settle;
  }

  lemma SetGatesKeeps(s: State, a: Step)
    requires Inv(s) && a.SetGates? && Enabled(s, a)
    ensures Inv(Next(s, a))
  {
    hide HostOf, InstanceOf, Print, HashChoice, IsSpecNotFound, Coherent, GoodID, Recorded, Settle;
  }

  lemma SetMachineFDKeeps(s: State, a: Step)
    requires Inv(s) && a.SetMachineFD? && Allowed(s, a)
    ensures Inv(Next(s, a))
  {
    hide HostOf, InstanceOf, Print, HashChoice, IsSpecNotFound, Coherent, GoodID, Recorded, Settle;
  }

  lemma StepKeeps(s: State, a: Step)
    requires Inv(s) && Allowed(s, a)
    ensures Inv(Next(s, a))
  {
    hide HostOf, InstanceOf, Print, HashChoice, IsSpecNotFound;
    match a
    case Fetch(_) => FetchKeeps(s, a);
    case Skip => FetchKeeps(s, a);
    case Load => LoadKeeps(s);
    case Service(ok) => ServiceKeeps(s, ok);
    case Get(reply) => GetKeeps(s, reply);
    case Patch(commit) => PatchKeeps(s, commit);
    case Create(vm) => CreateKeeps(s, vm);
    case CreateFails(made) => CreateFailsKeeps(s, made);
    case Delete(ok, reached, removed) => DeleteKeeps(s, ok, reached, removed);
    case Crash => CrashKeeps(s);
    case UserDeletes => UserDeletesKeeps(s);
    case ForeignFinalizer(present) => ForeignFinalizerKeeps(s, present);
    case HostMoves(_, _) => HostMovesKeeps(s, a);
    case HostRemoves(_) => HostRemovesKeeps(s, a);
    case SetFailureDomains(_) => SetFailureDomainsKeeps(s, a);
    case SetGates(_, _) => SetGatesKeeps(s, a);
    case SetMachineFD(_) => SetMachineFDKeeps(s, a);
  }
}
