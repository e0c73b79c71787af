/** Deleting a machine comes to an end. */
module Deletion {
  import opened Controller
  import opened Invariant
  import opened MachineIDs
  import opened Machines
  import opened Protocol
  import opened Safety

  /** A step at which no call of the controller fails. What the others do is not restricted. */
  predicate Smooth(a: Step) {
    match a
    case Fetch(ok) => ok
    case Service(ok) => ok
    case Get(reply) => reply.Found? || SaysAbsent(reply)
    case Patch(commit) => commit.confirmed
    case Delete(ok, _, _) => ok
    case Skip => false
    case Crash => false
    case CreateFails(_) => false
    case _ => true
  }

  ghost predicate SmoothRun(s: State, steps: seq<Step>)
    decreases |steps|
  {
    steps == [] || (Allowed(s, steps[0]) && Smooth(steps[0]) && SmoothRun(Next(s, steps[0]), steps[1..]))
  }

  lemma {:induction false} SmoothIsRun(s: State, steps: seq<Step>)
    requires SmoothRun(s, steps)
    ensures Run(s, steps)
    decreases |steps|
  {
    hide Enabled, Next, Smooth;
    if steps != [] { SmoothIsRun(Next(s, steps[0]), steps[1..]); }
  }

  /** Only delete reconciles from here on. */
  ghost predicate Deleting(s: State) {
    && s.c.pc in {Idle, Fetched, DService, DGet, DPatch, DDelete, Exit}
    && (s.c.pc != Idle ==> s.c.mem.deleting)
    && (s.w.store.Stored? ==> s.w.store.obj.deleting)
  }

  lemma DeletingStep(s: State, a: Step)
    requires Inv(s) && Deleting(s) && Allowed(s, a) && Smooth(a)
    ensures Deleting(Next(s, a))
    ensures !Held(s) ==> !Held(Next(s, a))
  {
    hide HostOf, InstanceOf, Print, HostFor, IsSpecNotFound, Coherent, NoneForgotten, HistoryOk, GoodNames, GoodID;
  }

  // ---------- Counting ----------

  /** Lookups that found the microVM already DELETING. */
  function Polls(steps: seq<Step>): nat {
    if steps == [] then 0
    else (if IsPoll(steps[0]) then 1 else 0) + Polls(steps[1..])
  }

  predicate IsPoll(a: Step) {
    a.Get? && a.reply.Found? && a.reply.vm.state == DELETING
  }

  /** The reconcile finds no host to turn to, and ends with an error before its first call. */
  predicate Hostless(s: State, a: Step) {
    a.Load? && HostFor(s.c.mem, s.w.snap).None?
  }

  /** Exactly when placement finds no host: nothing chosen, nothing recorded, nothing published. */
  lemma HostlessExactly(m: Machine, snap: Snapshot)
    ensures HostFor(m, snap).None? <==>
            Unset(snap.machineFD) && m.GetProviderID() == "" && snap.failureDomains == map[]
  {
    assert snap.failureDomains.Keys == {} <==> snap.failureDomains == map[];
  }

  ghost function HostlessLoads(s: State, steps: seq<Step>): nat
    requires SmoothRun(s, steps)
    decreases |steps|
  {
    if steps == [] then 0
    else (if Hostless(s, steps[0]) then 1 else 0) + HostlessLoads(Next(s, steps[0]), steps[1..])
  }

  /** Completed reconciles. */
  ghost function Rounds(s: State, steps: seq<Step>): nat
    requires SmoothRun(s, steps)
    decreases |steps|
  {
    if steps == [] then 0
    else (if steps[0].Patch? && s.c.pc == Exit then 1 else 0) + Rounds(Next(s, steps[0]), steps[1..])
  }

  /** Calls of the controller. */
  ghost function Calls(steps: seq<Step>): nat {
    if steps == [] then 0
    else (if ByController(steps[0]) then 1 else 0) + Calls(steps[1..])
  }

  /** The recorded microVM exists and has not been told to go. */
  ghost predicate Untouched(s: State) {
    RecordedIn(s.w.store).Some? && RecordedIn(s.w.store).value in s.w.vms
    && s.w.vms[RecordedIn(s.w.store).value] != DELETING
  }

  /** How many more reconciles can complete without a poll, with a host, and without clearing the finalizer. */
  ghost function Budget(s: State): nat {
    if s.c.pc == DDelete || (s.c.pc == DPatch && s.c.vm.Some? && s.c.vm.value.state != DELETING) then 1
    else
      (if Untouched(s) then 1 else 0) + (if s.c.pc == DPatch || (s.c.pc == Exit && s.c.mem.finalizer) then 1 else 0)
  }

  lemma StepBudget(s: State, a: Step)
    requires Inv(s) && Deleting(s) && Allowed(s, a) && Smooth(a)
    requires Held(s) && Held(Next(s, a))
    ensures (if a.Patch? && s.c.pc == Exit then 1 else 0) + Budget(Next(s, a))
         <= (if IsPoll(a) then 1 else 0) + (if Hostless(s, a) then 1 else 0) + Budget(s)
  {
    hide HostOf, InstanceOf, Print, HostFor, IsSpecNotFound, Coherent, NoneForgotten, HistoryOk;
    EmptyIDReadsEmpty();
  }

  /** How far a reconcile has come. */
  function Progress(pc: PC): nat {
    match pc
    case Fetched => 1
    case DService => 2
    case DGet => 3
    case DPatch => 4
    case DDelete => 5
    case Exit => 6
    case _ => 0
  }

  lemma StepProgress(s: State, a: Step)
    requires Inv(s) && Deleting(s) && Allowed(s, a) && Smooth(a) && Held(s)
    ensures Progress(s.c.pc) + (if ByController(a) then 1 else 0)
         <= Progress(Next(s, a).c.pc) + (if a.Patch? && s.c.pc == Exit then 7 else 0)
  {
    hide HostOf, InstanceOf, Print, HostFor, IsSpecNotFound, Coherent, NoneForgotten, HistoryOk, GoodNames, GoodID;
  }

  lemma {:induction false} RunBudget(s: State, steps: seq<Step>)
    requires Inv(s) && Deleting(s) && SmoothRun(s, steps)
    requires Run(s, steps) && Held(Exec(s, steps))
    ensures Rounds(s, steps) <= Polls(steps) + HostlessLoads(s, steps) + Budget(s)
    ensures Progress(s.c.pc) + Calls(steps) <= 7 * Rounds(s, steps) + 6
    decreases |steps|
  {
    hide Inv, Deleting, Enabled, Next, Smooth, Budget;
    if steps != [] {
      var a, t := steps[0], Next(s, steps[0]);
      StepKeeps(s, a);
      DeletingStep(s, a);
      if !Held(t) {
        ReleasedStays(t, steps[1..]);
      } else {
        RunBudget(t, steps[1..]);
        StepBudget(s, a);
        StepProgress(s, a);
      }
    }
  }

  /** A finalizer that is off stays off. */
  lemma {:induction false} ReleasedStays(s: State, steps: seq<Step>)
    requires Inv(s) && Deleting(s) && SmoothRun(s, steps) && Run(s, steps) && !Held(s)
    ensures !Held(Exec(s, steps))
    decreases |steps|
  {
    hide Inv, Deleting, Enabled, Next, Smooth;
    if steps != [] {
      StepKeeps(s, steps[0]);
      DeletingStep(s, steps[0]);
      ReleasedStays(Next(s, steps[0]), steps[1..]);
    }
  }

  /**
    Deletion terminates. If no call fails, and at most `n` times in all the host answers DELETING or
    placement finds no host, then after `n + 2` completed reconciles, or `7 * (n + 2)` calls, the finalizer
    is off and only lost microVMs are left; whatever everyone else does meanwhile.
   */
  lemma DeletionTerminates(t: State, steps: seq<Step>, n: nat)
    requires Reachable(t) && t.c.pc == Idle && t.w.store.Stored? && t.w.store.obj.deleting
    requires SmoothRun(t, steps) && Polls(steps) + HostlessLoads(t, steps) <= n
    requires Rounds(t, steps) >= n + 2 || Calls(steps) >= 7 * (n + 2)
    ensures Run(t, steps) && !Held(Exec(t, steps))
    ensures Exec(t, steps).w.vms.Keys <= Exec(t, steps).h.lost
  {
    hide Inv, Enabled, Next, Smooth, Hostless;
    ReachableInv(t);
    SmoothIsRun(t, steps);
    RunKeeps(t, steps);
    if Held(Exec(t, steps)) {
      RunBudget(t, steps);
    }
    LiveBound(Exec(t, steps));
  }

  // ---------- When placement finds a host ----------

  /** A recorded host is enough: no reconcile goes without a host. */
  lemma {:induction false} RecordedNeverHostless(s: State, steps: seq<Step>, host: string)
    requires Inv(s) && StuckTo(s, host) && SmoothRun(s, steps)
    ensures HostlessLoads(s, steps) == 0
    decreases |steps|
  {
    hide Inv, Enabled, Next, Smooth, HostFor;
    if steps != [] {
      StepKeeps(s, steps[0]);
      StuckStep(s, steps[0], host);
      RecordedNeverHostless(Next(s, steps[0]), steps[1..], host);
      HostlessExactly(s.c.mem, s.w.snap);
      FetchedAtLoad(s, steps[0]);
    }
  }

  lemma FetchedAtLoad(s: State, a: Step)
    requires Enabled(s, a)
    ensures a.Load? ==> s.c.pc == Fetched
  {
  }

  /** A machine with a stored provider ID is deleted with no assumption about placement at all. */
  lemma RecordedDeletionTerminates(t: State, steps: seq<Step>, polls: nat)
    requires Reachable(t) && t.c.pc == Idle && t.w.store.Stored? && t.w.store.obj.deleting
    requires RecordedIn(t.w.store).Some?
    requires SmoothRun(t, steps) && Polls(steps) <= polls
    requires Rounds(t, steps) >= polls + 2 || Calls(steps) >= 7 * (polls + 2)
    ensures Run(t, steps) && !Held(Exec(t, steps))
    ensures Exec(t, steps).w.vms.Keys <= Exec(t, steps).h.lost
  {
    hide Inv, Enabled, Next, Smooth, Hostless, HostOf, InstanceOf;
    ReachableInv(t);
    RecordedNeverHostless(t, steps, RecordedIn(t.w.store).value.host);
    DeletionTerminates(t, steps, polls);
  }

  // ---------- When it does not ----------

  /** Nobody changes what placement reads. */
  predicate PlacementKept(steps: seq<Step>) {
    forall a :: a in steps ==> !a.SetFailureDomains? && !a.SetMachineFD?
  }

  /** A machine being deleted that holds its finalizer and has no host to turn to. */
  predicate Stalled(s: State) {
    && Held(s) && s.w.store.obj.deleting && s.w.store.obj.GetProviderID() == ""
    && Unset(s.w.snap.machineFD) && s.w.snap.failureDomains == map[]
    && s.c.pc in {Idle, Fetched, Exit}
    && (s.c.pc != Idle ==> s.c.mem.deleting && s.c.mem.finalizer && s.c.mem.GetProviderID() == "")
    && (s.c.pc == Exit ==> s.c.result == Fail(NoFailureDomain))
  }

  lemma StalledStep(s: State, a: Step)
    requires Stalled(s) && Enabled(s, a) && !a.SetFailureDomains? && !a.SetMachineFD?
    ensures Stalled(Next(s, a))
  {
    hide HostOf, InstanceOf;
  }

  /** The stall. While placement is left alone, such a machine keeps its finalizer through every run, whether
      or not calls succeed: each delete reconcile ends in the error that no failure domain was found. */
  lemma {:induction false} StalledForever(s: State, steps: seq<Step>)
    requires Stalled(s) && Run(s, steps) && PlacementKept(steps)
    ensures Stalled(Exec(s, steps))
    decreases |steps|
  {
    hide Enabled, Next, Stalled;
    if steps != [] {
      StalledStep(s, steps[0]);
      StalledForever(Next(s, steps[0]), steps[1..]);
    }
  }

  /** Something is chosen or published. */
  predicate Placeable(snap: Snapshot) {
    !Unset(snap.machineFD) || snap.failureDomains != map[]
  }

  lemma PlaceableStep(s: State, a: Step)
    requires Enabled(s, a) && !a.SetFailureDomains? && !a.SetMachineFD?
    ensures Placeable(Next(s, a).w.snap) == Placeable(s.w.snap)
  {
    hide HostFor, HostOf, InstanceOf;
  }

  lemma {:induction false} PlaceableNeverHostless(s: State, steps: seq<Step>)
    requires Placeable(s.w.snap) && SmoothRun(s, steps) && PlacementKept(steps)
    ensures HostlessLoads(s, steps) == 0
    decreases |steps|
  {
    hide Enabled, Next, Smooth, HostFor;
    if steps != [] {
      PlaceableStep(s, steps[0]);
      PlaceableNeverHostless(Next(s, steps[0]), steps[1..]);
      HostlessExactly(s.c.mem, s.w.snap);
    }
  }

  /**
    Exactly when deletion ends, while placement is left alone and no call fails: after two more completed
    reconciles than polls, or seven times as many calls, the finalizer is off if and only if placement found
    a host at the start. (Calls go on once the object is gone, completed reconciles do not.)
   */
  lemma DeletionEndsExactly(t: State, steps: seq<Step>, polls: nat)
    requires Reachable(t) && t.c.pc == Idle && Held(t) && t.w.store.obj.deleting
    requires SmoothRun(t, steps) && PlacementKept(steps) && Polls(steps) <= polls
    requires Rounds(t, steps) >= polls + 2 || Calls(steps) >= 7 * (polls + 2)
    ensures Run(t, steps)
    ensures !Held(Exec(t, steps)) <==> HostFor(t.w.store.obj, t.w.snap).Some?
  {
    hide Inv, Enabled, Next, Smooth, Hostless, HostFor, HostOf, InstanceOf;
    SmoothIsRun(t, steps);
    HostlessExactly(t.w.store.obj, t.w.snap);
    if HostFor(t.w.store.obj, t.w.snap).None? {
      StalledForever(t, steps);
    } else if RecordedIn(t.w.store).Some? {
      RecordedDeletionTerminates(t, steps, polls);
    } else {
      PlaceableNeverHostless(t, steps);
      DeletionTerminates(t, steps, polls);
    }
  }

  // ---------- No bound is reached by standing still ----------

  /** The controller is between two reconciles, or the object is still there for its patches. */
  ghost predicate Going(s: State) {
    Inv(s) && Deleting(s) && (s.c.pc == Idle || s.w.store.Stored?)
  }

  /** The next lookup would be a poll. */
  predicate AboutToPoll(s: State) {
    s.c.pc == DGet && Target(s.c) in s.w.vms && s.w.vms[Target(s.c)] == DELETING
  }

  /** Some call of the controller can succeed. */
  lemma CanMove(s: State) returns (a: Step)
    requires Going(s)
    ensures Allowed(s, a) && Smooth(a) && ByController(a) && (IsPoll(a) ==> AboutToPoll(s))
  {
    hide HostOf, InstanceOf, Print, HostFor, IsSpecNotFound, Coherent, NoneForgotten, HistoryOk, GoodNames, GoodID;
    match s.c.pc
    case Idle => a := Fetch(true);
    case Fetched => a := Load;
    case DService => a := Service(true);
    case DGet =>
      var id := Target(s.c);
      a := Get(if id in s.w.vms then Found(MicroVM(id.uid, s.w.vms[id])) else Nothing);
    case DDelete => a := Delete(true, true, false);
    case _ => a := Patch(APPLIED);
  }

  lemma GoingStep(s: State, a: Step)
    requires Going(s) && Allowed(s, a) && Smooth(a) && (ByController(a) || a.HostRemoves?)
    ensures Going(Next(s, a))
    ensures a.HostRemoves? && a.id == Target(s.c) ==> !AboutToPoll(Next(s, a))
  {
    hide HostOf, InstanceOf, Print, HostFor, IsSpecNotFound, Coherent, NoneForgotten, HistoryOk, GoodNames, GoodID;
    StepKeeps(s, a);
    DeletingStep(s, a);
  }

  /** So any number of calls can succeed in a row, without a poll and with placement left alone. */
  lemma {:induction false} CanGoOn(s: State, n: nat) returns (steps: seq<Step>)
    requires Going(s)
    ensures SmoothRun(s, steps) && PlacementKept(steps) && Polls(steps) == 0 && Calls(steps) == n
    decreases n, AboutToPoll(s)
  {
    hide Going, Enabled, Next, Smooth, AboutToPoll;
    if n == 0 {
      steps := [];
    } else if AboutToPoll(s) {
      var a := HostRemoves(Target(s.c));
      RemovalAllowed(s);
      GoingStep(s, a);
      steps := CanGoOn(Next(s, a), n);
      steps := [a] + steps;
    } else {
      var a := CanMove(s);
      GoingStep(s, a);
      steps := CanGoOn(Next(s, a), n - 1);
      steps := [a] + steps;
    }
  }

  lemma RemovalAllowed(s: State)
    requires AboutToPoll(s)
    ensures Allowed(s, HostRemoves(Target(s.c))) && Smooth(HostRemoves(Target(s.c)))
  {
    hide InstanceOf;
  }

  /** With placement left alone, a machine being deleted can lose its finalizer, by any run at all, if and only
      if placement finds a host for it now. */
  lemma DeletableExactly(t: State)
    requires Reachable(t) && t.c.pc == Idle && Held(t) && t.w.store.obj.deleting
    ensures (exists steps :: Run(t, steps) && PlacementKept(steps) && !Held(Exec(t, steps)))
            <==> HostFor(t.w.store.obj, t.w.snap).Some?
  {
    hide Inv, Enabled, Next, Smooth, HostFor, HostOf, InstanceOf;
    ReachableInv(t);
    HostlessExactly(t.w.store.obj, t.w.snap);
    if HostFor(t.w.store.obj, t.w.snap).Some? {
      var steps := CanGoOn(t, 14);
      DeletionEndsExactly(t, steps, 0);
    }
    forall steps | Run(t, steps) && PlacementKept(steps) && !Held(Exec(t, steps))
      ensures HostFor(t.w.store.obj, t.w.snap).Some?
    {
      if Stalled(t) { StalledForever(t, steps); }
    }
  }
}
