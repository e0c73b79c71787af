/**
  The machine controller between two calls to the outside: its position, its local variables and
  how each answer moves them. This is the specification that the reconcile methods are proved against.
 */
module Controller {
  import opened Machines
  import opened Options
  import opened Placement

  /** The next call the controller makes. `N...` belong to a normal reconcile, `D...` to a delete. */
  datatype PC =
    | Idle        // no reconcile in progress
    | Fetched     // the MicrovmMachine has been read
    | NService    // connect to the chosen host
    | NGet        // look up the recorded microVM
    | NPatchFin   // commit the finalizer
    | NCreate     // create the microVM
    | NPatchID    // commit the provider ID
    | DService
    | DGet
    | DPatch      // commit not-ready
    | DDelete     // delete the microVM
    | Exit        // the deferred patch

  /** What the reconcile reads once, besides the MicrovmMachine. */
  datatype Snapshot = Snapshot(
    machineFD: Option<string>,
    failureDomains: map<string, bool>,
    checksum: Checksum,
    infraReady: bool,
    bootstrapReady: bool)

  /** Local state: `mem` is the in-memory MicrovmMachine, `vm` the variable `microvm`. */
  datatype Local = Local(pc: PC, mem: Machine, host: string, vm: Option<MicroVM>, result: Result)
  {
    predicate AtPatch() {
      pc in {NPatchFin, NPatchID, DPatch, Exit}
    }
  }

  function Leave(c: Local, result: Result): Local {
    c.(pc := Exit, result := result)
  }

  function HostFor(mem: Machine, snap: Snapshot): Option<string> {
    FailureDomain(snap.machineFD, mem.GetProviderID(), snap.failureDomains.Keys, snap.checksum)
  }

  /** From the reads to the first call: dispatch, the two gates of a normal reconcile, placement. */
  function OnLoaded(c: Local, snap: Snapshot): Local {
    var start := Local(Exit, c.mem, "", None, DONE);
    if !c.mem.deleting && !snap.infraReady then
      start.(mem := c.mem.(condition := IsFalse(WaitingForClusterInfra)))
    else if !c.mem.deleting && !snap.bootstrapReady then
      start.(mem := c.mem.(condition := IsFalse(WaitingForBootstrapData)))
    else
      match HostFor(c.mem, snap)
      case None => Leave(start, Fail(NoFailureDomain))
      case Some(host) => start.(pc := if c.mem.deleting then DService else NService, host := host)
  }

  function ToFinalizerPatch(c: Local, vm: Option<MicroVM>): Local {
    c.(pc := NPatchFin, mem := c.mem.(finalizer := true), vm := vm)
  }

  function OnService(c: Local, ok: bool): Local {
    if c.pc == DService then
      if ok then c.(pc := DGet) else Leave(c, DONE)
    else if !ok then Leave(c, Fail(NoService))
    else if c.mem.GetProviderID() != "" then c.(pc := NGet)
    else ToFinalizerPatch(c, None)
  }

  function OnGet(c: Local, reply: GetReply): Local {
    if reply.GetFailed? && !IsSpecNotFound(reply.text) then Leave(c, Fail(GetError))
    else
      var vm := if reply.Found? then Some(reply.vm) else None;
      if c.pc == NGet then ToFinalizerPatch(c, vm)
      else if vm.Some? then c.(pc := DPatch, mem := c.mem.AsNotReady(MicrovmDeleting), vm := vm)
      else Leave(c.(mem := c.mem.(finalizer := false)), DONE)
  }

  function ToIDPatch(c: Local, vm: MicroVM): Local {
    c.(pc := NPatchID, mem := c.mem.WithProviderID(c.host, vm.uid), vm := Some(vm))
  }

  function OnCreate(c: Local, created: Option<MicroVM>): Local {
    if created.None? then Leave(c, Fail(CreateError)) else ToIDPatch(c, created.value)
  }

  function OnDelete(c: Local, ok: bool): Local {
    if ok then Leave(c, REQUEUE)
    else Leave(c.(mem := c.mem.AsNotReady(MicrovmDeleteFailed)), Fail(DeleteError))
  }

  /** `parseMicroVMState` */
  function ParseState(mem: Machine, state: HostState): (Machine, Result) {
    match state
    case CREATED => (mem.(vmState := Some(VMRunning)).AsReady(), DONE)
    case PENDING => (mem.(vmState := Some(VMPending)).AsNotReady(MicrovmPending), REQUEUE)
    case FAILED => (mem.(vmState := Some(VMFailed)).AsNotReady(MicrovmProvisionFailed), Fail(ErrMicrovmFailed))
    case DELETING => (mem, REQUEUE)
    case OTHER(_) =>
      (mem.(vmState := Some(VMUnknown)).AsNotReady(MicrovmUnknownState), Result(ErrMicrovmUnknownState, true))
  }

  function OnPatch(c: Local, ok: bool): Local
    requires c.pc in {NPatchID, DPatch} ==> c.vm.Some?
  {
    if c.pc == Exit then c.(pc := Idle)
    else if !ok then Leave(c, Fail(PatchError))
    else if c.pc == NPatchFin then
      if c.vm.Some? then ToIDPatch(c, c.vm.value) else c.(pc := NCreate)
    else if c.pc == NPatchID then
      var (mem, result) := ParseState(c.mem, c.vm.value.state);
      Leave(c.(mem := mem), result)
    else if c.pc == DPatch && c.vm.value.state != DELETING then c.(pc := DDelete)
    else Leave(c, REQUEUE)
  }
}
