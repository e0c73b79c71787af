/**
  The three-party protocol: the stored object, the controller, and the hosts that own the microVMs,
  as a labelled transition system. Every call may fail on its own, the process may die between any
  two calls, and users, hosts and the cluster act at any moment. All freedom is in the labels.
 */
module Protocol {
  import opened Controller
  import opened MachineIDs
  import opened Machines
  import opened Options

  /** The stored object; `foreign` says that finalizers of other controllers are on it. */
  datatype Store = Gone | Stored(obj: Machine, foreign: bool)

  datatype World = World(
    store: Store,
    vms: map<VMId, HostState>,   // the microVMs made for this machine that exist now, on any host
    created: set<VMId>,          // those that ever existed
    snap: Snapshot)              // what a reconcile would read now

  /** Bookkeeping that no party reads. */
  datatype History = History(
    pending: Option<VMId>,   // made by the reconcile in progress, its provider ID in no commit yet
    lost: set<VMId>,         // made by a reconcile that ended with its provider ID in no commit
    absent: set<VMId>,       // reported absent in the reconcile in progress
    deletes: multiset<VMId>) // delete calls that reached a host

  datatype State = State(w: World, c: Local, h: History)

  /** A patch writes the resource and the status. Either part may be written or not, and success is
      reported only if both are; a patch that was written may still be reported as failed. */
  datatype Commit = Commit(resource: bool, status: bool, confirmed: bool)

  const APPLIED := Commit(true, true, true)
  const NOT_APPLIED := Commit(false, false, false)

  datatype Step =
    // calls of the controller
    | Fetch(ok: bool)
    | Skip
    | Load
    | Service(ok: bool)
    | Get(reply: GetReply)
    | Patch(commit: Commit)
    | Create(vm: MicroVM)
    | CreateFails(made: Option<MicroVM>)
    | Delete(ok: bool, reached: bool, removed: bool)
    | Crash
    // the others
    | UserDeletes
    | ForeignFinalizer(present: bool)
    | HostMoves(id: VMId, state: HostState)
    | HostRemoves(id: VMId)
    | SetFailureDomains(failureDomains: map<string, bool>)
    | SetGates(infraReady: bool, bootstrapReady: bool)
    | SetMachineFD(fd: Option<string>)

  predicate ByController(a: Step) {
    || a.Fetch? || a.Skip? || a.Load? || a.Service? || a.Get?
    || a.Patch? || a.Create? || a.CreateFails? || a.Delete? || a.Crash?
  }

  // ---------- The store ----------

  /** A deleting object disappears with its last finalizer. */
  function Settle(store: Store): Store {
    if store.Stored? && store.obj.deleting && !store.obj.finalizer && !store.foreign then Gone else store
  }

  /** The store refuses to patch a missing object and to add a finalizer to a deleting one. */
  predicate Accepts(store: Store, mem: Machine) {
    store.Stored? && (store.obj.deleting && mem.finalizer ==> store.obj.finalizer)
  }

  /** The stored object takes the written parts from memory; the deletion mark is never written. */
  function Merged(obj: Machine, mem: Machine, commit: Commit): Machine {
    var r, s := if commit.resource then mem else obj, if commit.status then mem else obj;
    Machine(r.finalizer, r.providerID, obj.deleting, s.ready, s.vmState, s.condition)
  }

  function Committed(store: Store, mem: Machine, commit: Commit): Store {
    if store.Gone? then Gone else Settle(store.(obj := Merged(store.obj, mem, commit)))
  }

  // ---------- The hosts ----------

  /** The microVM that a lookup or a delete by this controller is about. */
  function Target(c: Local): VMId {
    VMId(c.host, InstanceOf(c.mem.GetProviderID()))
  }

  function Made(w: World, id: VMId, state: HostState): World {
    w.(vms := w.vms[id := state], created := w.created + {id})
  }

  predicate Fresh(w: World, c: Local, vm: MicroVM) {
    GoodUid(vm.uid) && VMId(c.host, vm.uid) !in w.created
  }

  function AfterDelete(vms: map<VMId, HostState>, id: VMId, removed: bool): map<VMId, HostState> {
    if id !in vms then vms
    else if removed then vms - {id}
    else vms[id := DELETING]
  }

  // ---------- Steps ----------

  /** A machine's failure domain counts as unset when it is nil or empty. */
  predicate Unset(fd: Option<string>) {
    fd.None? || fd.value == ""
  }

  predicate Enabled(s: State, a: Step) {
    var w, c := s.w, s.c;
    match a
    case Fetch(ok) => c.pc == Idle
    case Skip => c.pc == Fetched
    case Load => c.pc == Fetched
    case Service(ok) => c.pc == NService || c.pc == DService
    case Get(reply) =>
      && (c.pc == NGet || c.pc == DGet)
      && (reply.Found? ==> Target(c) in w.vms && reply.vm == MicroVM(Target(c).uid, w.vms[Target(c)]))
      && (SaysAbsent(reply) ==> Target(c) !in w.vms)
    case Patch(commit) =>
      && c.AtPatch()
      && (c.pc in {NPatchID, DPatch} ==> c.vm.Some?)
      && (commit.confirmed ==> commit.resource && commit.status)
      && (commit.resource ==> Accepts(w.store, c.mem))
      && (commit.status ==> w.store.Stored?)
    case Create(vm) => c.pc == NCreate && Fresh(w, c, vm)
    case CreateFails(made) => c.pc == NCreate && (made.Some? ==> Fresh(w, c, made.value))
    case Delete(ok, reached, removed) => c.pc == DDelete && (ok ==> reached)
    case Crash => c.pc != Idle
    case UserDeletes => w.store.Stored?
    case ForeignFinalizer(present) => w.store.Stored? && (present ==> !w.store.obj.deleting)
    case HostMoves(id, state) => id in w.vms && (w.vms[id] == DELETING ==> state == DELETING)
    case HostRemoves(id) => id in w.vms
    case SetFailureDomains(fds) => forall n :: n in fds ==> GoodHost(n)
    case SetGates(_, _) => true
    case SetMachineFD(fd) => fd.Some? ==> GoodHost(fd.value)
  }

  /** A reconcile is over; a microVM whose ID it committed nowhere is lost. */
  function Over(h: History): History {
    h.(pending := None, lost := h.lost + if h.pending.Some? then {h.pending.value} else {})
  }

  function AfterPatch(s: State, commit: Commit): State
    requires Enabled(s, Patch(commit))
  {
    var w := s.w.(store := Committed(s.w.store, s.c.mem, commit));
    var h := if commit.resource then s.h.(pending := None) else s.h;
    State(w, OnPatch(s.c, commit.confirmed), if s.c.pc == Exit then Over(h) else h)
  }

  function AfterGet(s: State, reply: GetReply): State {
    var h := if SaysAbsent(reply) then s.h.(absent := s.h.absent + {Target(s.c)}) else s.h;
    s.(c := OnGet(s.c, reply), h := h)
  }

  function Next(s: State, a: Step): State
    requires Enabled(s, a)
  {
    var w, c, h := s.w, s.c, s.h;
    match a
    case Fetch(ok) =>
      if ok && w.store.Stored? then
        s.(c := c.(pc := Fetched, mem := w.store.obj), h := h.(absent := {}))
      else s
    case Skip => s.(c := c.(pc := Idle))
    case Load => s.(c := OnLoaded(c, w.snap))
    case Service(ok) => s.(c := OnService(c, ok))
    case Get(reply) => AfterGet(s, reply)
    case Patch(commit) => AfterPatch(s, commit)
    case Create(vm) =>
      var id := VMId(c.host, vm.uid);
      State(Made(w, id, vm.state), OnCreate(c, Some(vm)), h.(pending := Some(id)))
    case CreateFails(made) =>
      if made.None? then s.(c := OnCreate(c, None))
      else
        var id := VMId(c.host, made.value.uid);
        State(Made(w, id, made.value.state), OnCreate(c, None), h.(lost := h.lost + {id}))
    case Delete(ok, reached, removed) =>
      if !reached then s.(c := OnDelete(c, ok))
      else
        State(w.(vms := AfterDelete(w.vms, Target(c), removed)), OnDelete(c, ok),
              h.(deletes := h.deletes + multiset{Target(c)}))
    case Crash => s.(c := c.(pc := Idle), h := Over(h))
    case UserDeletes => s.(w := w.(store := Settle(w.store.(obj := w.store.obj.(deleting := true)))))
    case ForeignFinalizer(present) => s.(w := w.(store := Settle(w.store.(foreign := present))))
    case HostMoves(id, state) => s.(w := w.(vms := w.vms[id := state]))
    case HostRemoves(id) => s.(w := w.(vms := w.vms - {id}))
    case SetFailureDomains(fds) => s.(w := w.(snap := w.snap.(failureDomains := fds)))
    case SetGates(i, b) => s.(w := w.(snap := w.snap.(infraReady := i, bootstrapReady := b)))
    case SetMachineFD(fd) => s.(w := w.(snap := w.snap.(machineFD := fd)))
  }

  // ---------- Runs ----------

  /** The microVM named by a machine's provider ID, as the two readers see it. */
  function Recorded(m: Machine): Option<VMId> {
    var p := m.GetProviderID();
    if p == "" then None else Some(VMId(HostOf(p), InstanceOf(p)))
  }

  function RecordedIn(store: Store): Option<VMId> {
    if store.Stored? then Recorded(store.obj) else None
  }

  /** The controller has chosen a host for the reconcile in progress and will use it again. */
  predicate HostChosen(c: Local) {
    c.pc !in {Idle, Fetched, Exit}
  }

  /** A change of the machine's failure domain that agrees with the host already in use, if any. */
  predicate Agrees(s: State, fd: Option<string>) {
    Unset(fd) || (
      && (RecordedIn(s.w.store).Some? ==> RecordedIn(s.w.store).value.host == fd.value)
      && (HostChosen(s.c) ==> s.c.host == fd.value)
      && (s.c.pc != Idle && Recorded(s.c.mem).Some? ==> Recorded(s.c.mem).value.host == fd.value))
  }

  /** Steps of the protocol under the assumption that the machine is not told to move. */
  predicate Allowed(s: State, a: Step) {
    Enabled(s, a) && (a.SetMachineFD? ==> Agrees(s, a.fd))
  }

  predicate Run(s: State, steps: seq<Step>)
    decreases |steps|
  {
    steps == [] || (Allowed(s, steps[0]) && Run(Next(s, steps[0]), steps[1..]))
  }

  function Exec(s: State, steps: seq<Step>): State
    requires Run(s, steps)
    decreases |steps|
  {
    if steps == [] then s else Exec(Next(s, steps[0]), steps[1..])
  }

  /** A machine that the controller has not seen yet: no finalizer, no provider ID, no status. */
  ghost predicate Initial(s: State) {
    && s.w.store.Stored?
    && s.w.store.obj == Machine(false, None, false, false, None, Absent)
    && s.w.vms == map[] && s.w.created == {}
    && (forall n :: n in s.w.snap.failureDomains ==> GoodHost(n))
    && (s.w.snap.machineFD.Some? ==> GoodHost(s.w.snap.machineFD.value))
    && s.c.pc == Idle
    && s.h == History(None, {}, {}, multiset{})
  }
}
