/** The stored status, told from what reconciles concluded and what was written of it. */
module StatusStory {
  import opened Controller
  import opened Invariant
  import opened MachineIDs
  import opened Machines
  import opened Options
  import opened Protocol
  import opened Safety

  /** What a reconcile has concluded so far about the microVM. */
  datatype Verdict = Silent | Gated | Running | NotRunning

  /** What has been written: whether the last verdict on the microVM itself was Running, and whether a gate
      has been reported since. */
  datatype Tale = Tale(running: bool, gated: bool)

  function Told(t: Tale, v: Verdict): Tale {
    match v
    case Silent => t
    case Gated => t.(gated := true)
    case Running => Tale(true, false)
    case NotRunning => Tale(false, false)
  }

  /** The verdict after a step, from the step and the controller's position alone. */
  function VerdictAfter(s: State, a: Step, v: Verdict): Verdict
    requires Enabled(s, a)
  {
    match a
    case Fetch(_) => Silent
    case Load => if !s.c.mem.deleting && !(s.w.snap.infraReady && s.w.snap.bootstrapReady) then Gated else v
    case Get(reply) => if s.c.pc == DGet && reply.Found? then NotRunning else v
    case Delete(ok, _, _) => if ok then v else NotRunning
    case Patch(commit) =>
      if s.c.pc != NPatchID || !commit.confirmed then v
      else if s.c.vm.value.state == CREATED then Running
      else if s.c.vm.value.state == DELETING then v
      else NotRunning
    case _ => v
  }

  /** A patch that writes the status tells the verdict reached before it. */
  function TaleAfter(s: State, a: Step, v: Verdict, t: Tale): Tale
    requires Enabled(s, a)
  {
    if a.Patch? && a.commit.status then Told(t, v) else t
  }

  ghost function Story(s: State, steps: seq<Step>, v: Verdict, t: Tale): Tale
    requires Run(s, steps)
    decreases |steps|
  {
    if steps == [] then t
    else Story(Next(s, steps[0]), steps[1..], VerdictAfter(s, steps[0], v), TaleAfter(s, steps[0], v, t))
  }

  /** A status as the tale has it. */
  predicate Shows(m: Machine, t: Tale) {
    && m.ready == t.running
    && (m.ready ==> (m.condition == IsTrue <==> !t.gated))
  }

  predicate Faithful(s: State, v: Verdict, t: Tale) {
    && (s.w.store.Stored? ==> Shows(s.w.store.obj, t))
    && (s.c.pc != Idle ==> Shows(s.c.mem, Told(t, v)))
    && (s.c.pc == Fetched ==> v == Silent)
  }

  lemma FaithfulPatch(s: State, a: Step, v: Verdict, t: Tale)
    requires Faithful(s, v, t) && a.Patch? && Enabled(s, a)
    ensures Faithful(Next(s, a), VerdictAfter(s, a, v), TaleAfter(s, a, v, t))
  {
    hide HostOf, InstanceOf, Print, Accepts;
  }

  lemma FaithfulStep(s: State, a: Step, v: Verdict, t: Tale)
    requires Faithful(s, v, t) && Enabled(s, a)
    ensures Faithful(Next(s, a), VerdictAfter(s, a, v), TaleAfter(s, a, v, t))
  {
    hide HostOf, InstanceOf, HostFor, IsSpecNotFound, Print, AfterDelete, AfterPatch;
    if a.Patch? { FaithfulPatch(s, a, v, t); }
  }

  lemma {:induction false} FaithfulRun(s: State, steps: seq<Step>, v: Verdict, t: Tale)
    requires Faithful(s, v, t) && Run(s, steps)
    ensures Exec(s, steps).w.store.Stored? ==> Shows(Exec(s, steps).w.store.obj, Story(s, steps, v, t))
    decreases |steps|
  {
    hide Enabled, Next, VerdictAfter, TaleAfter, Told;
    if steps != [] {
      var a := steps[0];
      FaithfulStep(s, a, v, t);
      FaithfulRun(Next(s, a), steps[1..], VerdictAfter(s, a, v), TaleAfter(s, a, v, t));
    }
  }

  /**
    Which runs leave Ready with a false condition: exactly those in which the last written verdict on the
    microVM is that it runs, and a closed gate has been written since. Ready itself is exactly the first half.
   */
  lemma SplitExactly(s: State, steps: seq<Step>)
    requires Initial(s) && Run(s, steps) && Exec(s, steps).w.store.Stored?
    ensures var m, told := Exec(s, steps).w.store.obj, Story(s, steps, Silent, Tale(false, false));
            && (m.ready <==> told.running)
            && (m.ready && m.condition != IsTrue <==> told.running && told.gated)
            && (m.ready && m.condition != IsTrue ==> IsWaiting(m.condition))
  {
    hide Enabled, Next, Story, Reachable;
    FaithfulRun(s, steps, Silent, Tale(false, false));
    assert Reachable(Exec(s, steps)) by { ReachableByRun(s, steps); }
    StatusCoherent(Exec(s, steps));
  }
}
