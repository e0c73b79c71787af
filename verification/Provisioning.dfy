/** Provisioning a machine comes to an end: the dual of deletion. */
module Provisioning {
  import opened Controller
  import opened Deletion
  import opened Invariant
  import opened MachineIDs
  import opened Machines
  import opened Options
  import opened Protocol

  /** Only normal reconciles from here on. */
  ghost predicate Wanted(s: State) {
    && s.c.pc in {Idle, Fetched, NService, NGet, NPatchFin, NCreate, NPatchID, Exit}
    && (s.c.pc != Idle ==> !s.c.mem.deleting)
    && s.w.store.Stored? && !s.w.store.obj.deleting
  }

  /** Nobody asks for the machine to be deleted. */
  predicate Undisturbed(steps: seq<Step>) {
    UserDeletes !in steps
  }

  /** Ready, with the condition to match and the VM state running. */
  predicate Up(m: Machine) {
    m.ready && m.condition == IsTrue && m.vmState == Some(VMRunning)
  }

  /** What holds a normal reconcile up although no call fails: a closed gate, no host, or a microVM that the
      host has made or found and does not report as CREATED. */
  predicate Setback(s: State, a: Step) {
    || (a.Load? && !(s.w.snap.infraReady && s.w.snap.bootstrapReady))
    || Hostless(s, a)
    || (a.Create? && a.vm.state != CREATED)
    || (a.Get? && a.reply.Found? && a.reply.vm.state != CREATED)
  }

  ghost function Setbacks(s: State, steps: seq<Step>): nat
    requires SmoothRun(s, steps)
    decreases |steps|
  {
    if steps == [] then 0
    else (if Setback(s, steps[0]) then 1 else 0) + Setbacks(Next(s, steps[0]), steps[1..])
  }

  /** A reconcile completes, and leaves a machine that is up in the store. */
  ghost predicate Delivers(s: State, a: Step)
    requires Enabled(s, a)
  {
    a.Patch? && s.c.pc == Exit && Next(s, a).w.store.Stored? && Up(Next(s, a).w.store.obj)
  }

  ghost function Deliveries(s: State, steps: seq<Step>): nat
    requires SmoothRun(s, steps)
    decreases |steps|
  {
    if steps == [] then 0
    else (if Delivers(s, steps[0]) then 1 else 0) + Deliveries(Next(s, steps[0]), steps[1..])
  }

  lemma WantedStep(s: State, a: Step)
    requires Wanted(s) && Enabled(s, a) && Smooth(a) && !a.UserDeletes?
    ensures Wanted(Next(s, a))
  {
    hide HostFor, IsSpecNotFound;
  }

  /** A setback that the reconcile in progress has met and not yet reported. */
  ghost function Debt(s: State): nat {
    match s.c.pc
    case NPatchFin => if s.c.vm.Some? && s.c.vm.value.state != CREATED then 1 else 0
    case NPatchID => if s.c.vm.Some? && s.c.vm.value.state != CREATED then 1 else 0
    case Exit => if Up(s.c.mem) then 0 else 1
    case _ => 0
  }

  lemma StepDebt(s: State, a: Step)
    requires Wanted(s) && Enabled(s, a) && Smooth(a) && !a.UserDeletes?
    ensures (if a.Patch? && s.c.pc == Exit then 1 else 0) + Debt(Next(s, a))
         <= (if Delivers(s, a) then 1 else 0) + (if Setback(s, a) then 1 else 0) + Debt(s)
  {
    hide HostFor, IsSpecNotFound;
  }

  /** How far a normal reconcile has come. */
  function Distance(pc: PC): nat {
    match pc
    case Fetched => 1
    case NService => 2
    case NGet => 3
    case NPatchFin => 4
    case NCreate => 5
    case NPatchID => 6
    case Exit => 7
    case _ => 0
  }

  lemma StepDistance(s: State, a: Step)
    requires Wanted(s) && Enabled(s, a) && Smooth(a) && !a.UserDeletes?
    ensures Distance(s.c.pc) + (if ByController(a) then 1 else 0)
         <= Distance(Next(s, a).c.pc) + (if a.Patch? && s.c.pc == Exit then 8 else 0)
  {
    hide HostFor, IsSpecNotFound;
  }

  lemma {:induction false} RunDebt(s: State, steps: seq<Step>)
    requires Wanted(s) && SmoothRun(s, steps) && Undisturbed(steps)
    ensures Rounds(s, steps) <= Deliveries(s, steps) + Setbacks(s, steps) + Debt(s)
    ensures Distance(s.c.pc) + Calls(steps) <= 8 * Rounds(s, steps) + 7
    decreases |steps|
  {
    hide Wanted, Enabled, Next, Smooth, Debt, Setback, Delivers;
    if steps != [] {
      var a := steps[0];
      WantedStep(s, a);
      StepDebt(s, a);
      StepDistance(s, a);
      RunDebt(Next(s, a), steps[1..]);
    }
  }

  /**
    Provisioning terminates. If no call fails, nobody deletes the machine, and at most `n` times in all a gate
    is closed, placement finds no host, or a microVM is not reported CREATED, then all but `n` of the completed
    reconciles store a machine that is up, whatever everyone else does meanwhile; and `8 * k` calls complete `k`.
   */
  lemma ProvisioningTerminates(t: State, steps: seq<Step>, n: nat)
    requires t.c.pc == Idle && t.w.store.Stored? && !t.w.store.obj.deleting
    requires SmoothRun(t, steps) && Undisturbed(steps) && Setbacks(t, steps) <= n
    ensures Deliveries(t, steps) + n >= Rounds(t, steps) >= Calls(steps) / 8
    ensures Rounds(t, steps) > n || Calls(steps) >= 8 * (n + 1) ==> Deliveries(t, steps) > 0
  {
    hide Enabled, Next, Smooth, Setback, Delivers, SmoothRun;
    RunDebt(t, steps);
  }

  // ---------- No bound is reached by standing still ----------

  /** A length that no uid has. */
  lemma {:induction false} UnusedLength(ids: set<VMId>) returns (n: nat)
    ensures n > 0 && forall id :: id in ids ==> |id.uid| < n
  {
    n := 1;
    if ids != {} {
      var x :| x in ids;
      n := UnusedLength(ids - {x});
      n := if |x.uid| < n then n else |x.uid| + 1;
    }
  }

  /** Hosts do not run out of names. */
  lemma FreshVM(w: World, c: Local, state: HostState) returns (vm: MicroVM)
    ensures Fresh(w, c, vm) && vm.state == state
  {
    var n := UnusedLength(w.created);
    vm := MicroVM(seq(n, _ => 'a'), state);
    assert |VMId(c.host, vm.uid).uid| == n;
  }

  /** Some call of the controller can succeed, at every position of a normal reconcile. */
  lemma CanProceed(s: State) returns (a: Step)
    requires Inv(s) && Wanted(s)
    ensures Allowed(s, a) && Smooth(a) && ByController(a)
  {
    hide HostOf, InstanceOf, Print, HostFor, IsSpecNotFound, Coherent, NoneForgotten, HistoryOk, GoodNames, GoodID;
    match s.c.pc
    case Idle => a := Fetch(true);
    case Fetched => a := Load;
    case NService => a := Service(true);
    case NGet =>
      var id := Target(s.c);
      a := Get(if id in s.w.vms then Found(MicroVM(id.uid, s.w.vms[id])) else Nothing);
    case NCreate =>
      var vm := FreshVM(s.w, s.c, CREATED);
      a := Create(vm);
    case _ => a := Patch(APPLIED);
  }
}
