/** What holds in every reachable state and at every step of every run. */
module Safety {
  import opened Controller
  import opened Invariant
  import opened MachineIDs
  import opened Machines
  import opened Options
  import opened Placement
  import opened Protocol

  // ---------- Runs ----------

  lemma {:induction false} RunKeeps(s: State, steps: seq<Step>)
    requires Inv(s) && Run(s, steps)
    ensures Inv(Exec(s, steps))
    decreases |steps|
  {
    hide Inv;
    if steps != [] {
      StepKeeps(s, steps[0]);
      RunKeeps(Next(s, steps[0]), steps[1..]);
    }
  }

  /** Runs compose. */
  lemma {:induction false} RunAppend(s: State, first: seq<Step>, second: seq<Step>)
    requires Run(s, first) && Run(Exec(s, first), second)
    ensures Run(s, first + second) && Exec(s, first + second) == Exec(Exec(s, first), second)
    decreases |first|
  {
    hide Enabled, Next;
    if first == [] {
      assert first + second == second;
    } else {
      RunAppend(Next(s, first[0]), first[1..], second);
      assert (first + second)[1..] == first[1..] + second;
    }
  }

  /** A run up to one of its steps is a run, and that step is allowed where it ends. */
  lemma {:induction false} RunPrefix(s: State, steps: seq<Step>, k: nat)
    requires Run(s, steps) && k <= |steps|
    ensures Run(s, steps[..k])
    ensures k < |steps| ==> Allowed(Exec(s, steps[..k]), steps[k])
    decreases k
  {
    hide Enabled, Next;
    if k > 0 {
      RunPrefix(Next(s, steps[0]), steps[1..], k - 1);
      assert steps[..k][1..] == steps[1..][..k - 1];
    }
  }

  lemma NoStep(s: State)
    ensures Run(s, []) && Exec(s, []) == s
  {
  }

  lemma RunCons(s: State, a: Step, rest: seq<Step>) returns (steps: seq<Step>)
    requires Allowed(s, a) && Run(Next(s, a), rest)
    ensures steps == [a] + rest && Run(s, steps) && Exec(s, steps) == Exec(Next(s, a), rest)
  {
    hide Enabled, Next;
    steps := [a] + rest;
    assert steps[1..] == rest;
  }

  ghost predicate Reachable(t: State) {
    exists s, steps :: Initial(s) && Run(s, steps) && Exec(s, steps) == t
  }

  lemma ReachableByRun(s: State, steps: seq<Step>)
    requires Initial(s) && Run(s, steps)
    ensures Reachable(Exec(s, steps))
  {
  }

  lemma ReachableInv(t: State)
    requires Reachable(t)
    ensures Inv(t)
  {
    hide Inv;
    var s, steps :| Initial(s) && Run(s, steps) && Exec(s, steps) == t;
    InitialInv(s);
    RunKeeps(s, steps);
  }

  /** Every state that a run passes through is reachable, so a statement about the allowed steps of
      reachable states is a statement about every step of every run. */
  lemma ReachableRun(t: State, steps: seq<Step>)
    requires Reachable(t) && Run(t, steps)
    ensures Reachable(Exec(t, steps))
  {
    hide Enabled, Next;
    var s, before :| Initial(s) && Run(s, before) && Exec(s, before) == t;
    RunAppend(s, before, steps);
  }

  // ---------- No leak ----------

  /** The microVMs that a run loses, read off its labels and the controller's position: a create that failed
      after making one, and a create whose reconcile ended, by a crash or a deferred patch, before any patch
      wrote the resource. `open` says that such a create is waiting for its patch. */
  ghost function Losses(s: State, steps: seq<Step>, open: bool): nat
    requires Run(s, steps)
    decreases |steps|
  {
    if steps == [] then 0
    else
      var a, s', rest := steps[0], Next(s, steps[0]), steps[1..];
      if a.Create? then Losses(s', rest, true)
      else if a.CreateFails? && a.made.Some? then 1 + Losses(s', rest, open)
      else if a.Patch? && a.commit.resource then Losses(s', rest, false)
      else if a.Crash? || (a.Patch? && s.c.pc == Exit) then (if open then 1 else 0) + Losses(s', rest, false)
      else Losses(s', rest, open)
  }

  /** What one step loses. */
  ghost function LostBy(s: State, a: Step): set<VMId> {
    if a.CreateFails? && a.made.Some? then {VMId(s.c.host, a.made.value.uid)}
    else if s.h.pending.Some? && (a.Crash? || (a.Patch? && !a.commit.resource && s.c.pc == Exit)) then
      {s.h.pending.value}
    else {}
  }

  lemma StepLosses(s: State, a: Step)
    requires Enabled(s, a)
    ensures Next(s, a).h.lost == s.h.lost + LostBy(s, a)
    ensures Next(s, a).h.pending.Some? == (
              if a.Create? then true
              else if (a.Patch? && (a.commit.resource || s.c.pc == Exit)) || a.Crash? then false
              else s.h.pending.Some?)
  {
    hide HostOf, InstanceOf, HostFor, IsSpecNotFound;
  }

  /** Nothing is lost twice. */
  lemma LostOnce(s: State, a: Step)
    requires Inv(s) && Enabled(s, a)
    ensures s.h.lost !! LostBy(s, a)
  {
    hide HostOf, InstanceOf, Print, HostFor, IsSpecNotFound, StoreOk, NoneForgotten, MemoryOk, HostOk, PlaceOk;
  }

  lemma {:induction false} LostIsLosses(s: State, steps: seq<Step>)
    requires Inv(s) && Run(s, steps)
    ensures |Exec(s, steps).h.lost| == |s.h.lost| + Losses(s, steps, s.h.pending.Some?)
    decreases |steps|
  {
    hide Inv, Next, Enabled;
    if steps != [] {
      var a := steps[0];
      StepKeeps(s, a);
      StepLosses(s, a);
      LostOnce(s, a);
      assert |s.h.lost + LostBy(s, a)| == |s.h.lost| + |LostBy(s, a)|;
      LostIsLosses(Next(s, a), steps[1..]);
    }
  }

  lemma SubsetSize<T>(a: set<T>, b: set<T>, x: T)
    requires a <= b + {x}
    ensures |a| <= |b| + 1
    ensures a <= b ==> |a| <= |b|
  {
    SetSize(a - {x}, b);
    if a <= b { SetSize(a, b); }
    if x in a { assert |a - {x}| == |a| - 1; } else { assert a - {x} == a; }
  }

  lemma {:induction false} SetSize<T>(a: set<T>, b: set<T>)
    requires a <= b
    ensures |a| <= |b|
  {
    if a != {} {
      var x :| x in a;
      SetSize(a - {x}, b - {x});
    }
  }

  /** In a state of the invariant: one microVM at most besides the lost ones, and it is recorded in the
      store or named by the reconcile in progress; none besides the lost ones without the finalizer. */
  lemma LiveBound(t: State)
    requires Inv(t)
    ensures |t.w.vms.Keys| <= |t.h.lost| + 1
    ensures !Held(t) ==> t.w.vms.Keys <= t.h.lost && |t.w.vms.Keys| <= |t.h.lost|
  {
    hide HostOf, InstanceOf, Print;
    var recorded := RecordedIn(t.w.store);
    var x := if t.h.pending.Some? then t.h.pending.value
             else if recorded.Some? then recorded.value
             else VMId("", "");
    assert t.w.vms.Keys <= t.h.lost + {x};
    SubsetSize(t.w.vms.Keys, t.h.lost, x);
  }

  /**
    No leak. In every run, the microVMs that exist are the one the stored provider ID names, the one a
    reconcile in progress has just made, and lost ones, and there are no more lost ones than creates
    whose explicit and deferred patches were both lost. Once the stored object is gone or without the
    finalizer, only lost ones are left.
   */
  lemma NoLeak(s: State, steps: seq<Step>)
    requires Initial(s) && Run(s, steps)
    ensures var t := Exec(s, steps);
            && (forall id :: id in t.w.vms ==>
                  id in t.h.lost || t.h.pending == Some(id) || RecordedIn(t.w.store) == Some(id))
            && |t.h.lost| == Losses(s, steps, false)
            && |t.w.vms| <= Losses(s, steps, false) + 1
            && (!Held(t) ==> t.w.vms.Keys <= t.h.lost && |t.w.vms| <= Losses(s, steps, false))
  {
    hide HostOf, InstanceOf, Enabled, Next;
    InitialInv(s);
    RunKeeps(s, steps);
    LostIsLosses(s, steps);
    var t := Exec(s, steps);
    LiveBound(t);
    assert |t.w.vms| == |t.w.vms.Keys|;
  }

  /** If no create lost all its patches, no microVM is left on any host once the finalizer is off; crashes,
      failed calls and failed patches in any number included. */
  lemma NoLeakWhenNothingLost(s: State, steps: seq<Step>)
    requires Initial(s) && Run(s, steps) && Losses(s, steps, false) == 0
    requires !Held(Exec(s, steps))
    ensures Exec(s, steps).w.vms == map[]
  {
    hide Enabled, Next, Losses, HostOf, InstanceOf;
    NoLeak(s, steps);
    assert |Exec(s, steps).w.vms.Keys| == 0;
  }

  // ---------- The finalizer ----------

  /** Whenever a create is called, in any run, the stored object already carries the finalizer, even if
      the user has deleted it in the meantime. */
  lemma FinalizerBeforeCreate(t: State, a: Step)
    requires Reachable(t) && Allowed(t, a) && (a.Create? || a.CreateFails?)
    ensures Held(t)
  {
    hide HostOf, InstanceOf, Print;
    ReachableInv(t);
  }

  lemma FinalizerStep(t: State, a: Step)
    requires Inv(t) && Enabled(t, a) && Held(t) && !Held(Next(t, a))
    ensures a.Patch? && t.c.pc == Exit && t.c.mem.deleting && !t.c.mem.finalizer && t.w.store.obj.deleting
    ensures Target(t.c) in t.h.absent && Target(t.c) !in t.w.vms
    ensures RecordedIn(t.w.store).Some? ==>
              RecordedIn(t.w.store).value in t.h.absent && RecordedIn(t.w.store).value !in t.w.vms
    ensures Next(t, a).h.lost == t.h.lost
  {
    hide HostOf, InstanceOf, Print, HostFor, IsSpecNotFound, Coherent, NoneForgotten, GoodID, GoodNames, HostOk;
  }

  /** The finalizer leaves the store only with the deferred patch of a delete reconcile whose own lookup was
      answered with "absent"; the recorded microVM, if there is one, is what it asked about. It is then still
      absent, and only lost microVMs are left. */
  lemma FinalizerKept(t: State, a: Step)
    requires Reachable(t) && Allowed(t, a) && Held(t) && !Held(Next(t, a))
    ensures a.Patch? && t.c.pc == Exit && t.c.mem.deleting && !t.c.mem.finalizer && t.w.store.obj.deleting
    ensures Target(t.c) in t.h.absent && Target(t.c) !in t.w.vms
    ensures RecordedIn(t.w.store).Some? ==>
              RecordedIn(t.w.store).value in t.h.absent && RecordedIn(t.w.store).value !in t.w.vms
    ensures Next(t, a).w.vms.Keys <= t.h.lost
  {
    hide HostOf, InstanceOf, Enabled, Next, Inv, Reachable;
    ReachableInv(t);
    FinalizerStep(t, a);
    StepKeeps(t, a);
    LiveBound(Next(t, a));
  }

  /** An object leaves the store only when it is being deleted and no finalizer is left, its own or another's;
      and such an object is never found in the store. */
  lemma ObjectGoes(t: State, a: Step)
    requires Reachable(t) && Allowed(t, a) && t.w.store.Stored?
    ensures !t.w.store.obj.deleting || t.w.store.obj.finalizer || t.w.store.foreign
    ensures Next(t, a).w.store.Gone? <==>
              var obj, foreign := t.w.store.obj, t.w.store.foreign;
              || (a.Patch? && a.commit.resource && obj.deleting && !t.c.mem.finalizer && !foreign)
              || (a.UserDeletes? && !obj.finalizer && !foreign)
              || (a.ForeignFinalizer? && !a.present && obj.deleting && !obj.finalizer)
  {
    hide HostOf, InstanceOf, Print, HostFor, IsSpecNotFound, Coherent, NoneForgotten, HistoryOk, GoodID, Reachable;
    ReachableInv(t);
  }

  // ---------- The provider ID and the host ----------

  /** A stored provider ID is the printed form of a microVM that was made, on the host where it was made,
      and that host is the one a reconcile would choose now. */
  lemma StoredHostIsChosen(t: State)
    requires Reachable(t) && RecordedIn(t.w.store).Some?
    ensures var id := RecordedIn(t.w.store).value;
            && id in t.w.created && id.uid != ""
            && t.w.store.obj.GetProviderID() == Print(id.host, id.uid)
            && HostFor(t.w.store.obj, t.w.snap) == Some(id.host)
  {
    hide HostOf, InstanceOf, Print;
    ReachableInv(t);
  }

  /** Lookups and deletes go to the microVM that the store records. */
  lemma CallsReachRecorded(t: State)
    requires Reachable(t) && t.c.pc in {NGet, DGet, DDelete} && RecordedIn(t.w.store).Some?
    ensures Target(t.c) == RecordedIn(t.w.store).value
  {
    hide HostOf, InstanceOf, Print;
    ReachableInv(t);
  }

  /** A stored provider ID is replaced only by a patch of a reconcile to which the host reported the
      recorded microVM absent; and the replacement names the same host. */
  lemma ProviderIDStable(t: State, a: Step)
    requires Reachable(t) && Allowed(t, a)
    requires RecordedIn(t.w.store).Some? && Next(t, a).w.store.Stored?
    ensures RecordedIn(Next(t, a).w.store).Some?
    ensures RecordedIn(Next(t, a).w.store).value.host == RecordedIn(t.w.store).value.host
    ensures Next(t, a).w.store.obj.providerID != t.w.store.obj.providerID ==>
              a.Patch? && !t.c.mem.deleting && RecordedIn(t.w.store).value in t.h.absent
  {
    hide HostOf, InstanceOf, Print, HashChoice, IsSpecNotFound, Coherent, NoneForgotten, HistoryOk, Reachable;
    ReachableInv(t);
  }

  /** A reconcile that found its microVM writes the same provider ID again. */
  lemma FoundKeepsProviderID(t: State)
    requires Reachable(t) && t.c.pc == NPatchID && t.h.pending.None?
    ensures Held(t) && t.c.mem.providerID == t.w.store.obj.providerID
  {
    hide HostOf, InstanceOf, Print;
    ReachableInv(t);
  }

  /** Everything in this state points at one host. */
  ghost predicate StuckTo(t: State, host: string) {
    && (t.w.store.Stored? ==> Recorded(t.w.store.obj).Some? && Recorded(t.w.store.obj).value.host == host)
    && (HostChosen(t.c) ==> t.c.host == host)
    && (t.c.pc == Fetched ==> Recorded(t.c.mem).Some? && Recorded(t.c.mem).value.host == host)
  }

  lemma StuckStep(t: State, a: Step, host: string)
    requires Inv(t) && StuckTo(t, host) && Allowed(t, a)
    ensures StuckTo(Next(t, a), host)
  {
    hide HostOf, InstanceOf, Print, HashChoice, IsSpecNotFound, Coherent, NoneForgotten, HistoryOk, GoodID, GoodNames;
  }

  lemma {:induction false} StuckRun(t: State, steps: seq<Step>, host: string)
    requires Inv(t) && StuckTo(t, host) && Run(t, steps)
    ensures StuckTo(Exec(t, steps), host)
    decreases |steps|
  {
    hide Inv, Enabled, Next;
    if steps != [] {
      StepKeeps(t, steps[0]);
      StuckStep(t, steps[0], host);
      StuckRun(Next(t, steps[0]), steps[1..], host);
    }
  }

  /** Sticky placement. Once a provider ID is stored, the host it names is the host of every later
      reconcile and of every later provider ID, whatever happens to the failure-domain map. */
  lemma StickyPlacement(t: State, steps: seq<Step>)
    requires Reachable(t) && RecordedIn(t.w.store).Some? && Run(t, steps)
    ensures var host, u := RecordedIn(t.w.store).value.host, Exec(t, steps);
            && (u.w.store.Stored? ==> Recorded(u.w.store.obj).Some? && Recorded(u.w.store.obj).value.host == host)
            && (HostChosen(u.c) ==> u.c.host == host)
  {
    hide HostOf, InstanceOf, Print, Enabled, Next;
    ReachableInv(t);
    StuckRun(t, steps, RecordedIn(t.w.store).value.host);
  }

  // ---------- Deletes ----------

  /** When a delete is called, the stored object is already marked not ready and still has its finalizer. */
  lemma NotReadyBeforeDelete(t: State, a: Step)
    requires Reachable(t) && Allowed(t, a) && a.Delete?
    ensures Held(t) && !t.w.store.obj.ready && t.w.store.obj.condition != IsTrue
    ensures RecordedIn(t.w.store) == Some(Target(t.c))
  {
    hide HostOf, InstanceOf, Print;
    ReachableInv(t);
  }

  /** The order of the writes, at every position of every run: a create finds the finalizer stored; a delete
      finds not-ready and the finalizer stored, and is about the recorded microVM; and the finalizer goes only
      after a lookup of the same reconcile was answered with "absent". */
  lemma WriteOrder(t: State, steps: seq<Step>, k: nat)
    requires Reachable(t) && Run(t, steps) && k < |steps|
    ensures Run(t, steps[..k]) && Allowed(Exec(t, steps[..k]), steps[k])
    ensures var u, a := Exec(t, steps[..k]), steps[k];
            && (a.Create? || a.CreateFails? ==> Held(u))
            && (a.Delete? ==> Held(u) && !u.w.store.obj.ready && RecordedIn(u.w.store) == Some(Target(u.c)))
            && (Held(u) && !Held(Next(u, a)) ==> a.Patch? && u.c.mem.deleting && Target(u.c) in u.h.absent)
  {
    hide Run, Exec, Enabled, Next, Inv, HostOf, InstanceOf, Reachable;
    RunPrefix(t, steps, k);
    ReachableRun(t, steps[..k]);
    var u, a := Exec(t, steps[..k]), steps[k];
    if a.Create? || a.CreateFails? { FinalizerBeforeCreate(u, a); }
    if a.Delete? { NotReadyBeforeDelete(u, a); }
    if Held(u) && !Held(Next(u, a)) { FinalizerKept(u, a); }
  }

  /** The delete calls of a run that reached a host for one microVM. */
  ghost function DeleteCalls(s: State, steps: seq<Step>, id: VMId): nat
    requires Run(s, steps)
    decreases |steps|
  {
    if steps == [] then 0
    else
      (if steps[0].Delete? && steps[0].reached && Target(s.c) == id then 1 else 0)
      + DeleteCalls(Next(s, steps[0]), steps[1..], id)
  }

  lemma {:induction false} DeletesAreCalls(s: State, steps: seq<Step>, id: VMId)
    requires Run(s, steps)
    ensures Exec(s, steps).h.deletes[id] == s.h.deletes[id] + DeleteCalls(s, steps, id)
    decreases |steps|
  {
    hide HostOf, InstanceOf, HashChoice, IsSpecNotFound;
    if steps != [] {
      DeletesAreCalls(Next(s, steps[0]), steps[1..], id);
    }
  }

  /** Over any run, each microVM gets at most one delete that reaches its host: one that is already
      DELETING is only polled. */
  lemma DeletedAtMostOnce(s: State, steps: seq<Step>, id: VMId)
    requires Initial(s) && Run(s, steps)
    ensures DeleteCalls(s, steps, id) <= 1
  {
    hide HostOf, InstanceOf, Print, Enabled, Next;
    InitialInv(s);
    RunKeeps(s, steps);
    DeletesAreCalls(s, steps, id);
    var t := Exec(s, steps);
    if id in t.h.deletes {
      assert t.h.deletes[id] == 1;
    }
  }

  // ---------- Status ----------

  /** In every reachable state: the condition is true only if Ready; Ready means that the VM state is
      running, the provider ID names an instance, the finalizer is there unless the object is being
      deleted, and the condition is true or was turned false by one of the two gates. A false condition
      about the microVM agrees with the VM state, and one about a deletion with the deletion mark. */
  lemma StatusCoherent(t: State)
    requires Reachable(t) && t.w.store.Stored?
    ensures var m := t.w.store.obj;
            && (m.condition == IsTrue ==> m.ready)
            && (m.ready ==>
                  && m.vmState == Some(VMRunning)
                  && InstanceOf(m.GetProviderID()) != ""
                  && (!m.deleting ==> m.finalizer)
                  && (m.condition == IsTrue || IsWaiting(m.condition)))
            && (m.condition == IsFalse(MicrovmPending) ==> m.vmState == Some(VMPending))
            && (m.condition == IsFalse(MicrovmProvisionFailed) ==> m.vmState == Some(VMFailed))
            && (m.condition == IsFalse(MicrovmUnknownState) ==> m.vmState == Some(VMUnknown))
            && (m.condition == IsFalse(MicrovmDeleting) || m.condition == IsFalse(MicrovmDeleteFailed) ==> m.deleting)
  {
    hide HostOf, InstanceOf, Print;
    ReachableInv(t);
  }

  /** The gates do not close again. */
  ghost predicate GatesOnlyOpen(s: State, steps: seq<Step>)
    requires Run(s, steps)
    decreases |steps|
  {
    steps == [] || (
      && (steps[0].SetGates? ==>
            && (s.w.snap.infraReady ==> steps[0].infraReady)
            && (s.w.snap.bootstrapReady ==> steps[0].bootstrapReady))
      && GatesOnlyOpen(Next(s, steps[0]), steps[1..]))
  }

  ghost predicate Past(s: State) {
    var open := s.w.snap.infraReady && s.w.snap.bootstrapReady;
    && (s.w.store.Stored? && s.w.store.obj.ready ==> open && s.w.store.obj.condition == IsTrue)
    && (s.c.pc != Idle && s.c.mem.ready ==> open && s.c.mem.condition == IsTrue)
    && (s.c.pc in {NService, NGet, NPatchFin, NCreate, NPatchID} ==> open)
  }

  lemma PastStep(s: State, a: Step)
    requires Past(s) && Allowed(s, a)
    requires a.SetGates? ==> (s.w.snap.infraReady ==> a.infraReady) && (s.w.snap.bootstrapReady ==> a.bootstrapReady)
    ensures Past(Next(s, a))
  {
    hide HostOf, InstanceOf, HostFor, IsSpecNotFound, Print, Accepts, Agrees, AfterDelete;
  }

  lemma {:induction false} PastRun(s: State, steps: seq<Step>)
    requires Past(s) && Run(s, steps) && GatesOnlyOpen(s, steps)
    ensures Past(Exec(s, steps))
    decreases |steps|
  {
    hide Past, Enabled, Next;
    if steps != [] {
      PastStep(s, steps[0]);
      PastRun(Next(s, steps[0]), steps[1..]);
    }
  }

  /** If the gates never close again, Ready and the condition agree. */
  lemma ReadyIffConditionTrue(s: State, steps: seq<Step>)
    requires Initial(s) && Run(s, steps) && GatesOnlyOpen(s, steps)
    ensures var t := Exec(s, steps);
            t.w.store.Stored? ==> (t.w.store.obj.ready <==> t.w.store.obj.condition == IsTrue)
  {
    hide Inv, Enabled, Next;
    PastRun(s, steps);
    if Exec(s, steps).w.store.Stored? {
      assert Reachable(Exec(s, steps));
      StatusCoherent(Exec(s, steps));
    }
  }

  /** The hypothesis is needed: from any idle state with a ready machine that is not being deleted,
      closing a gate and reconciling once leaves Ready with a false condition. */
  lemma ClosingAGateSplitsStatus(t: State, infraReady: bool) returns (steps: seq<Step>)
    requires t.c.pc == Idle && t.w.store.Stored? && t.w.store.obj.ready && !t.w.store.obj.deleting
    ensures Run(t, steps)
    ensures var u := Exec(t, steps).w.store;
            && u.Stored? && u.obj.ready
            && u.obj.condition == IsFalse(if infraReady then WaitingForBootstrapData else WaitingForClusterInfra)
  {
    hide HostOf, InstanceOf, HostFor, Run, Exec;
    var t1 := Next(t, SetGates(infraReady, false));
    var t2 := Next(t1, Fetch(true));
    var t3 := Next(t2, Load);
    var t4 := Next(t3, Patch(APPLIED));
    NoStep(t4);
    steps := RunCons(t3, Patch(APPLIED), []);
    steps := RunCons(t2, Load, steps);
    steps := RunCons(t1, Fetch(true), steps);
    steps := RunCons(t, SetGates(infraReady, false), steps);
  }

  // ---------- No silent stall ----------

  /** The ways to end a reconcile with neither an error nor a requeue: a gate of a normal reconcile is
      closed; the provider ID is committed for a microVM that the host reported CREATED; a delete is told
      that the microVM is absent; a delete cannot connect to the host. */
  ghost predicate EndsQuietly(s: State, a: Step) {
    || (a.Load? && !s.c.mem.deleting && !(s.w.snap.infraReady && s.w.snap.bootstrapReady))
    || (s.c.pc == NPatchID && a.Patch? && a.commit.confirmed && s.c.vm.Some? && s.c.vm.value.state == CREATED)
    || (s.c.pc == DGet && a.Get? && SaysAbsent(a.reply))
    || (s.c.pc == DService && a == Service(false))
  }

  ghost predicate SomeStepEndsQuietly(s: State, steps: seq<Step>)
    requires Run(s, steps)
    decreases |steps|
  {
    steps != [] && (EndsQuietly(s, steps[0]) || SomeStepEndsQuietly(Next(s, steps[0]), steps[1..]))
  }

  /** The steps of one reconcile, and whatever the others do meanwhile. */
  predicate OneReconcile(steps: seq<Step>) {
    forall a :: a in steps ==> !a.Fetch? && !a.Skip? && !a.Crash?
  }

  lemma QuietStep(s: State, a: Step)
    requires Enabled(s, a) && !a.Fetch? && !a.Skip? && !a.Crash?
    ensures s.c.pc == Idle ==> Next(s, a).c == s.c && !EndsQuietly(s, a)
    ensures s.c.pc == Exit ==>
              Next(s, a).c.pc in {Exit, Idle} && Next(s, a).c.result == s.c.result && !EndsQuietly(s, a)
    ensures s.c.pc !in {Idle, Exit} ==>
              && Next(s, a).c.pc != Idle
              && (Next(s, a).c.pc == Exit ==> (Next(s, a).c.result.Quiet() <==> EndsQuietly(s, a)))
              && (EndsQuietly(s, a) ==> Next(s, a).c.pc == Exit)
  {
    hide HostOf, InstanceOf, HostFor, IsSpecNotFound, Print;
  }

  lemma {:induction false} Settled(s: State, steps: seq<Step>)
    requires Run(s, steps) && OneReconcile(steps) && s.c.pc in {Idle, Exit}
    ensures Exec(s, steps).c.result == s.c.result && !SomeStepEndsQuietly(s, steps)
    decreases |steps|
  {
    hide Enabled, Next, EndsQuietly;
    if steps != [] {
      QuietStep(s, steps[0]);
      Settled(Next(s, steps[0]), steps[1..]);
    }
  }

  /**
    No silent stall. A reconcile that runs to its end returns neither an error nor a requeue if and only if
    one of its steps is among those four. In particular a normal reconcile that passes both gates is quiet
    only for a microVM reported CREATED, and a delete only if it is done or could not connect.
   */
  lemma {:induction false} QuietExactly(s: State, steps: seq<Step>)
    requires Run(s, steps) && OneReconcile(steps) && s.c.pc !in {Idle, Exit} && Exec(s, steps).c.pc == Idle
    ensures Exec(s, steps).c.result.Quiet() <==> SomeStepEndsQuietly(s, steps)
    decreases |steps|
  {
    hide Enabled, Next, EndsQuietly;
    var t := Next(s, steps[0]);
    QuietStep(s, steps[0]);
    if t.c.pc == Exit {
      Settled(t, steps[1..]);
    } else {
      QuietExactly(t, steps[1..]);
    }
  }

  /** What a quiet ending leaves in memory: a ready machine, or one without the finalizer. */
  lemma QuietMeans(s: State, a: Step)
    requires Enabled(s, a)
    ensures s.c.pc == NPatchID && EndsQuietly(s, a) ==>
              var m := Next(s, a).c.mem;
              m.ready && m.condition == IsTrue && m.vmState == Some(VMRunning)
    ensures s.c.pc == DGet && EndsQuietly(s, a) ==> !Next(s, a).c.mem.finalizer
  {
    hide HostOf, InstanceOf, HostFor, IsSpecNotFound, Print;
  }
}
