/**
 The solution controller as a step system: any number of threads call start, resume, pause and
 interrupt while the asynchronous task bodies they have launched go through their own steps, until
 the destructor ends it all.
 */
module ControllerProtocol {
  import opened Concepts
  import opened Runs

  /**
   Where a thread is inside launchTask. The body it starts runs before the thread stores the body's
   future, which waits for the body of the future stored before.
   */
  datatype LaunchPc = AtFinalCheck | AtCas | AtWait | AtClear | AtStart | AtAssign(b: nat) {
    /** It has won the compare-and-swap and has not started a body yet. */
    predicate PastCas() {
      AtWait? || AtClear? || AtStart?
    }
  }

  /**
   Where a task body is. An algorithm publishes nothing after a final solution, with which it is Closing;
   Returning has cleared the started flag and is not waited for successfully yet.
   */
  datatype BodyPc = Solving | Closing | FinalCheck | Persisting | Clearing | Returning | Done {
    predicate Running() {
      Solving? || Closing? || FinalCheck? || Persisting? || Clearing?
    }
  }

  datatype Phase = Alive | Destroying | Destroyed

  /** A failed start of a body leaves the started flag set with nobody to clear it: the controller is stuck. */
  datatype Controller = Controller(
    phase: Phase,
    started: bool,
    stuck: bool,
    interrupted: bool,
    hasFinal: bool,
    launchers: map<nat, LaunchPc>,
    bodies: map<nat, BodyPc>,
    future: Option<nat>)
  {
    predicate FutureIsReady() {
      future.Some? ==> future.value in bodies && bodies[future.value].Done?
    }

    predicate IsAt(t: nat, pc: LaunchPc) {
      t in launchers && launchers[t] == pc
    }

    predicate BodyIsAt(b: nat, pc: BodyPc) {
      b in bodies && bodies[b] == pc
    }
  }

  const INITIAL := Controller(Alive, false, false, true, false, map[], map[], None)

  datatype Step =
    | Enter(t: nat)
    | CheckFinal(t: nat)
    | Cas(t: nat)
    | Wait(t: nat)
    | ClearInterrupt(t: nat)
    | Start(t: nat, b: nat)
    | FailStart(t: nat)
    | Assign(t: nat)
    | Interrupt
    | Destroy
    | FinishDestroying
    | Publish(b: nat, final: bool)
    | FinishSolve(b: nat)
    | CheckBeforePersist(b: nat)
    | Persist(b: nat)
    | Fail(b: nat)
    | ClearStarted(b: nat)
    | Return(b: nat)

  function ApplyLaunch(s: Controller, step: Step): Option<Controller> {
    match step
    case Enter(t) =>
      if t in s.launchers || !s.phase.Alive? then None else Some(s.(launchers := s.launchers[t := AtFinalCheck]))
    case CheckFinal(t) =>
      if !s.IsAt(t, AtFinalCheck) then None
      else if s.hasFinal then Some(s.(launchers := s.launchers - {t}))
      else Some(s.(launchers := s.launchers[t := AtCas]))
    case Cas(t) =>
      if !s.IsAt(t, AtCas) then None
      else if s.started then Some(s.(launchers := s.launchers - {t}))
      else Some(s.(started := true, launchers := s.launchers[t := AtWait]))
    case Wait(t) =>
      if !s.IsAt(t, AtWait) || (s.interrupted && !s.FutureIsReady()) then None
      else Some(s.(launchers := s.launchers[t := AtClear]))
    case ClearInterrupt(t) =>
      if !s.IsAt(t, AtClear) then None else Some(s.(interrupted := false, launchers := s.launchers[t := AtStart]))
    case Start(t, b) =>
      if !s.IsAt(t, AtStart) || b in s.bodies then None
      else Some(s.(launchers := s.launchers[t := AtAssign(b)], bodies := s.bodies[b := Solving]))
    case FailStart(t) =>
      if !s.IsAt(t, AtStart) then None else Some(s.(launchers := s.launchers - {t}, stuck := true))
    case Assign(t) =>
      if t !in s.launchers || !s.launchers[t].AtAssign? || !s.FutureIsReady() then None
      else Some(s.(launchers := s.launchers - {t}, future := Some(s.launchers[t].b)))
    case _ => None
  }

  /** The language lets nobody be inside launchTask when the destructor begins, or call anything afterwards. */
  function ApplyOwner(s: Controller, step: Step): Option<Controller> {
    match step
    case Interrupt => if s.phase.Alive? then Some(s.(interrupted := true)) else None
    case Destroy =>
      if !s.phase.Alive? || s.launchers != map[] then None else Some(s.(phase := Destroying, interrupted := true))
    case FinishDestroying =>
      if !s.phase.Destroying? || (s.interrupted && !s.FutureIsReady()) then None else Some(s.(phase := Destroyed))
    case _ => None
  }

  function ApplyBody(s: Controller, step: Step): Option<Controller> {
    match step
    case Publish(b, final) =>
      if !s.BodyIsAt(b, Solving) then None
      else Some(s.(hasFinal := final, bodies := s.bodies[b := if final then Closing else Solving]))
    case FinishSolve(b) =>
      if !s.BodyIsAt(b, Solving) && !s.BodyIsAt(b, Closing) then None else Some(s.(bodies := s.bodies[b := FinalCheck]))
    case CheckBeforePersist(b) =>
      if !s.BodyIsAt(b, FinalCheck) then None
      else Some(s.(bodies := s.bodies[b := if s.hasFinal then Clearing else Persisting]))
    case Persist(b) =>
      if !s.BodyIsAt(b, Persisting) then None else Some(s.(bodies := s.bodies[b := Clearing]))
    case Fail(b) =>
      if !s.BodyIsAt(b, Solving) && !s.BodyIsAt(b, Closing) && !s.BodyIsAt(b, Persisting) then None
      else Some(s.(bodies := s.bodies[b := Clearing]))
    case ClearStarted(b) =>
      if !s.BodyIsAt(b, Clearing) then None else Some(s.(started := false, bodies := s.bodies[b := Returning]))
    case Return(b) =>
      if !s.BodyIsAt(b, Returning) then None else Some(s.(bodies := s.bodies[b := Done]))
    case _ => None
  }

  predicate IsBodyStep(step: Step) {
    step.Publish? || step.FinishSolve? || step.CheckBeforePersist? || step.Persist? || step.Fail? || step.ClearStarted? || step.Return?
  }

  predicate IsOwnerStep(step: Step) {
    step.Interrupt? || step.Destroy? || step.FinishDestroying?
  }

  /** The state after a step; None if the step is not possible. */
  function Apply(s: Controller, step: Step): Option<Controller> {
    if IsBodyStep(step) then ApplyBody(s, step)
    else if IsOwnerStep(step) then ApplyOwner(s, step)
    else ApplyLaunch(s, step)
  }

  /*---------- Exclusion ----------*/

  function Launching(s: Controller): set<nat> {
    set t | t in s.launchers && s.launchers[t].PastCas()
  }

  function RunningBodies(s: Controller): set<nat> {
    set b | b in s.bodies && s.bodies[b].Running()
  }

  /** Launchers past the compare-and-swap and running bodies are one in all if started is set and not stuck, none otherwise. */
  ghost predicate Counted(s: Controller) {
    |Launching(s)| + |RunningBodies(s)| == (if s.started && !s.stuck then 1 else 0) && (s.stuck ==> s.started)
  }

  /** The thread that has started the body has yet to store its future. */
  ghost predicate AwaitsStorage(s: Controller, b: nat) {
    exists t :: t in s.launchers && s.launchers[t] == AtAssign(b)
  }

  /** A body that is not done has its future stored, or is about to; the destructor finds no launcher and all bodies done. */
  ghost predicate Owned(s: Controller) {
    && (s.future.Some? ==> s.future.value in s.bodies)
    && (forall t :: t in s.launchers && s.launchers[t].AtAssign? ==> s.launchers[t].b in s.bodies)
    && (forall b :: b in s.bodies ==> s.future == Some(b) || s.bodies[b].Done? || AwaitsStorage(s, b))
    && (!s.phase.Alive? ==> s.launchers == map[] && s.interrupted)
    && (s.phase.Destroyed? ==> s.FutureIsReady())
  }

  ghost predicate Exclusive(s: Controller) {
    Counted(s) && Owned(s)
  }

  lemma CasKeepsCount(s: Controller, t: nat)
    requires Counted(s) && Apply(s, Cas(t)).Some?
    ensures Counted(Apply(s, Cas(t)).value)
  {
    var s' := Apply(s, Cas(t)).value;
    assert RunningBodies(s') == RunningBodies(s);
    if s.started {
      assert Launching(s') == Launching(s);
    } else {
      assert Launching(s') == Launching(s) + {t};
    }
  }

  lemma StartKeepsCount(s: Controller, t: nat, b: nat)
    requires Counted(s) && Apply(s, Start(t, b)).Some?
    ensures Counted(Apply(s, Start(t, b)).value)
  {
    var s' := Apply(s, Start(t, b)).value;
    assert t in Launching(s) && b !in RunningBodies(s);
    assert Launching(s') == Launching(s) - {t};
    assert RunningBodies(s') == RunningBodies(s) + {b};
  }

  lemma FailStartKeepsCount(s: Controller, t: nat)
    requires Counted(s) && Apply(s, FailStart(t)).Some?
    ensures Counted(Apply(s, FailStart(t)).value)
  {
    var s' := Apply(s, FailStart(t)).value;
    assert t in Launching(s);
    assert Launching(s') == Launching(s) - {t};
    assert RunningBodies(s') == RunningBodies(s);
  }

  lemma ClearStartedKeepsCount(s: Controller, b: nat)
    requires Counted(s) && Apply(s, ClearStarted(b)).Some?
    ensures Counted(Apply(s, ClearStarted(b)).value)
  {
    var s' := Apply(s, ClearStarted(b)).value;
    assert b in RunningBodies(s);
    assert RunningBodies(s') == RunningBodies(s) - {b};
    assert Launching(s') == Launching(s);
  }

  /** A body counts until it clears the started flag. */
  lemma BodyKeepsCount(s: Controller, step: Step)
    requires Counted(s) && IsBodyStep(step) && Apply(s, step).Some?
    ensures Counted(Apply(s, step).value)
  {
    if step.ClearStarted? {
      ClearStartedKeepsCount(s, step.b);
    } else {
      var s' := Apply(s, step).value;
      assert RunningBodies(s') == RunningBodies(s);
      assert Launching(s') == Launching(s);
    }
  }

  lemma CountKept(s: Controller, step: Step)
    requires Counted(s) && Apply(s, step).Some?
    ensures Counted(Apply(s, step).value)
  {
    if step.Cas? {
      CasKeepsCount(s, step.t);
    } else if step.Start? {
      StartKeepsCount(s, step.t, step.b);
    } else if step.FailStart? {
      FailStartKeepsCount(s, step.t);
    } else if IsBodyStep(step) {
      BodyKeepsCount(s, step);
    } else {
      var s' := Apply(s, step).value;
      assert Launching(s') == Launching(s);
      assert RunningBodies(s') == RunningBodies(s);
    }
  }

  lemma StartKeepsOwned(s: Controller, t: nat, b: nat)
    requires Owned(s) && Apply(s, Start(t, b)).Some?
    ensures Owned(Apply(s, Start(t, b)).value)
  {
    var s' := Apply(s, Start(t, b)).value;
    assert s'.launchers[t] == AtAssign(b);
    forall b': nat | AwaitsStorage(s, b') ensures AwaitsStorage(s', b') {
      var u :| u in s.launchers && s.launchers[u] == AtAssign(b');
      assert s'.launchers[u] == AtAssign(b');
    }
  }

  /** Storing the new future lets go only of a body that is done. */
  lemma AssignKeepsOwned(s: Controller, t: nat)
    requires Owned(s) && Apply(s, Assign(t)).Some?
    ensures Owned(Apply(s, Assign(t)).value)
  {
    var s' := Apply(s, Assign(t)).value;
    forall b: nat | AwaitsStorage(s, b) ensures s'.future == Some(b) || AwaitsStorage(s', b) {
      var u :| u in s.launchers && s.launchers[u] == AtAssign(b);
      assert u != t ==> s'.launchers[u] == AtAssign(b);
    }
  }

  /** A step that leaves the future and the bodies' owners alone. */
  ghost predicate KeepsOwners(s: Controller, s': Controller) {
    && s'.future == s.future && s'.bodies.Keys == s.bodies.Keys
    && (forall b :: b in s.bodies && s.bodies[b].Done? ==> s'.bodies[b].Done?)
    && (forall t :: t in s.launchers && s.launchers[t].AtAssign? ==> t in s'.launchers && s'.launchers[t] == s.launchers[t])
    && (forall t :: t in s'.launchers && s'.launchers[t].AtAssign? ==> t in s.launchers && s'.launchers[t] == s.launchers[t])
  }

  lemma KeepingOwnersKeepsOwned(s: Controller, s': Controller)
    requires Owned(s) && KeepsOwners(s, s')
    requires !s'.phase.Alive? ==> s'.launchers == map[] && s'.interrupted
    requires s'.phase.Destroyed? ==> s'.FutureIsReady()
    ensures Owned(s')
  {
    forall b: nat | AwaitsStorage(s, b) ensures AwaitsStorage(s', b) {
      var u :| u in s.launchers && s.launchers[u] == AtAssign(b);
      assert s'.launchers[u] == AtAssign(b);
    }
  }

  lemma BodyKeepsOwned(s: Controller, step: Step)
    requires Owned(s) && IsBodyStep(step) && Apply(s, step).Some?
    ensures Owned(Apply(s, step).value)
  {
    assert KeepsOwners(s, Apply(s, step).value);
    KeepingOwnersKeepsOwned(s, Apply(s, step).value);
  }

  lemma OwnerKeepsOwned(s: Controller, step: Step)
    requires Owned(s) && IsOwnerStep(step) && Apply(s, step).Some?
    ensures Owned(Apply(s, step).value)
  {
    assert KeepsOwners(s, Apply(s, step).value);
    KeepingOwnersKeepsOwned(s, Apply(s, step).value);
  }

  lemma LaunchKeepsOwned(s: Controller, step: Step)
    requires Owned(s) && !IsBodyStep(step) && !IsOwnerStep(step) && !step.Start? && !step.Assign? && Apply(s, step).Some?
    ensures Owned(Apply(s, step).value)
  {
    assert KeepsOwners(s, Apply(s, step).value);
    KeepingOwnersKeepsOwned(s, Apply(s, step).value);
  }

  lemma OwnedKept(s: Controller, step: Step)
    requires Owned(s) && Apply(s, step).Some?
    ensures Owned(Apply(s, step).value)
  {
    if step.Start? {
      StartKeepsOwned(s, step.t, step.b);
    } else if step.Assign? {
      AssignKeepsOwned(s, step.t);
    } else if IsBodyStep(step) {
      BodyKeepsOwned(s, step);
    } else if IsOwnerStep(step) {
      OwnerKeepsOwned(s, step);
    } else {
      LaunchKeepsOwned(s, step);
    }
  }

  lemma ExclusiveKept(s: Controller, step: Step)
    requires Exclusive(s) && Apply(s, step).Some?
    ensures Exclusive(Apply(s, step).value)
  {
    CountKept(s, step);
    OwnedKept(s, step);
  }

  /** A new body may start beside old ones only when those have left the algorithm and the container. */
  lemma StartFindsOthersLeaving(s: Controller, t: nat, b: nat)
    requires Exclusive(s) && s.IsAt(t, AtStart) && b in s.bodies
    ensures s.bodies[b].Returning? || s.bodies[b].Done?
  {
    assert t in Launching(s);
    AtMostOne(Launching(s), RunningBodies(s), t, t);
    assert s.bodies[b].Running() ==> b in RunningBodies(s);
  }

  lemma {:induction false} ExclusiveThroughout(s: Controller, steps: seq<Step>)
    requires Exclusive(s) && Run(Apply, s, steps).Some?
    ensures Exclusive(Run(Apply, s, steps).value)
    decreases |steps|
  {
    if steps != [] {
      ExclusiveKept(s, steps[0]);
      ExclusiveThroughout(Apply(s, steps[0]).value, steps[1..]);
    }
  }

  /** Under any interleaving of any number of threads and bodies, exclusion holds all the time. */
  lemma ExclusionHolds(steps: seq<Step>)
    requires Run(Apply, INITIAL, steps).Some?
    ensures Exclusive(Run(Apply, INITIAL, steps).value)
  {
    assert Launching(INITIAL) == {} && RunningBodies(INITIAL) == {};
    ExclusiveThroughout(INITIAL, steps);
  }

  lemma AtMostOne(a: set<nat>, b: set<nat>, x: nat, y: nat)
    requires |a| + |b| <= 1 && x in a + b && y in a + b
    ensures x == y || (x in a && y in b) || (x in b && y in a)
    ensures x in a ==> b == {}
    ensures x in a && y in a ==> x == y
    ensures x in b && y in b ==> x == y
  {
    if x in a {
      assert |a| == |a - {x}| + 1;
      assert y in a ==> y == x || y in a - {x};
    }
    if x in b {
      assert |b| == |b - {x}| + 1;
      assert y in b ==> y == x || y in b - {x};
    }
  }

  /** So no two bodies are ever inside the algorithm or the state container at once. */
  lemma OneBodyInTheContainer(steps: seq<Step>, b: nat, b': nat)
    requires Run(Apply, INITIAL, steps).Some?
    requires var s := Run(Apply, INITIAL, steps).value; b in RunningBodies(s) && b' in RunningBodies(s)
    ensures b == b' && Run(Apply, INITIAL, steps).value.started && Launching(Run(Apply, INITIAL, steps).value) == {}
  {
    ExclusionHolds(steps);
    var s := Run(Apply, INITIAL, steps).value;
    AtMostOne(RunningBodies(s), Launching(s), b, b');
  }

  /** When the destructor has finished, every body is done and nothing can happen any more. */
  lemma NothingRunsAfterDestructor(steps: seq<Step>, step: Step)
    requires Run(Apply, INITIAL, steps).Some? && Run(Apply, INITIAL, steps).value.phase.Destroyed?
    ensures var s := Run(Apply, INITIAL, steps).value;
            (forall b :: b in s.bodies ==> s.bodies[b].Done?) && s.started == s.stuck && Apply(s, step).None?
  {
    ExclusionHolds(steps);
    var s := Run(Apply, INITIAL, steps).value;
    forall b | b in s.bodies ensures s.bodies[b].Done? { assert !AwaitsStorage(s, b); }
    assert Launching(s) == {} && RunningBodies(s) == {};
  }

  /*---------- What an interrupt and the end of a body bring about ----------*/

  lemma StoppedStays(s: Controller, step: Step, b: nat)
    requires b in s.bodies && !s.bodies[b].Running() && Apply(s, step).Some?
    ensures b in Apply(s, step).value.bodies && !Apply(s, step).value.bodies[b].Running()
  {
  }

  lemma {:induction false} StoppedForever(s: Controller, steps: seq<Step>, b: nat)
    requires b in s.bodies && !s.bodies[b].Running() && Run(Apply, s, steps).Some?
    ensures b !in RunningBodies(Run(Apply, s, steps).value)
    decreases |steps|
  {
    if steps != [] {
      StoppedStays(s, steps[0], b);
      StoppedForever(Apply(s, steps[0]).value, steps[1..], b);
    }
  }

  lemma RunningBodyStays(s: Controller, step: Step, steps: seq<Step>, b: nat)
    requires Apply(s, step).Some? && b in RunningBodies(s) && Run(Apply, Apply(s, step).value, steps).Some?
    requires b in RunningBodies(Run(Apply, Apply(s, step).value, steps).value)
    ensures b in RunningBodies(Apply(s, step).value)
  {
    var s' := Apply(s, step).value;
    assert b in s'.bodies;
    if b !in RunningBodies(s') { StoppedForever(s', steps, b); }
  }

  lemma RunningBodyIsAlone(s: Controller, b: nat, b': nat)
    requires Counted(s) && b in RunningBodies(s)
    ensures Launching(s) == {} && (b' in RunningBodies(s) ==> b' == b)
  {
    AtMostOne(RunningBodies(s), Launching(s), b, b);
    if b' in RunningBodies(s) { AtMostOne(RunningBodies(s), Launching(s), b, b'); }
  }

  lemma FlagStays(s: Controller, step: Step, b: nat)
    requires Exclusive(s) && s.interrupted && b in RunningBodies(s) && Apply(s, step).Some?
    ensures Apply(s, step).value.interrupted
  {
    RunningBodyIsAlone(s, b, b);
    forall t | t in s.launchers ensures !s.launchers[t].AtClear? { assert t !in Launching(s); }
  }

  lemma {:induction false} FlagStaysThroughout(s: Controller, steps: seq<Step>, b: nat)
    requires Exclusive(s) && s.interrupted && b in RunningBodies(s) && Run(Apply, s, steps).Some?
    requires b in RunningBodies(Run(Apply, s, steps).value)
    ensures Run(Apply, s, steps).value.interrupted
    decreases |steps|
  {
    if steps != [] {
      ExclusiveKept(s, steps[0]);
      FlagStays(s, steps[0], b);
      RunningBodyStays(s, steps[0], steps[1..], b);
      FlagStaysThroughout(Apply(s, steps[0]).value, steps[1..], b);
    }
  }

  /** An interrupt, or the destructor's, that finds a body running stays visible for as long as that body runs. */
  lemma InterruptReachesBody(s: Controller, step: Step, steps: seq<Step>, b: nat)
    requires Exclusive(s) && b in RunningBodies(s) && (step == Interrupt || step == Destroy) && Apply(s, step).Some?
    requires Run(Apply, Apply(s, step).value, steps).Some? && b in RunningBodies(Run(Apply, Apply(s, step).value, steps).value)
    ensures Run(Apply, Apply(s, step).value, steps).value.interrupted
  {
    ExclusiveKept(s, step);
    assert RunningBodies(Apply(s, step).value) == RunningBodies(s);
    FlagStaysThroughout(Apply(s, step).value, steps, b);
  }

  lemma ClosingStep(s: Controller, step: Step, b: nat)
    requires Exclusive(s) && s.hasFinal && b in RunningBodies(s) && !s.bodies[b].Solving? && Apply(s, step).Some?
    ensures Apply(s, step).value.hasFinal && b in Apply(s, step).value.bodies && !Apply(s, step).value.bodies[b].Solving?
  {
    if step.Publish? {
      assert step.b in RunningBodies(s);
      RunningBodyIsAlone(s, b, step.b);
    }
  }

  lemma {:induction false} ClosingThroughout(s: Controller, steps: seq<Step>, b: nat)
    requires Exclusive(s) && s.hasFinal && b in RunningBodies(s) && !s.bodies[b].Solving? && Run(Apply, s, steps).Some?
    requires b in RunningBodies(Run(Apply, s, steps).value)
    ensures Run(Apply, s, steps).value.hasFinal
    decreases |steps|
  {
    if steps != [] {
      ClosingStep(s, steps[0], b);
      RunningBodyStays(s, steps[0], steps[1..], b);
      ExclusiveKept(s, steps[0]);
      ClosingThroughout(Apply(s, steps[0]).value, steps[1..], b);
    }
  }

  /** A final solution stays final as long as the body that has published it runs. */
  lemma FinalStaysFinal(s: Controller, steps: seq<Step>, b: nat)
    requires Exclusive(s) && Apply(s, Publish(b, true)).Some? && Run(Apply, Apply(s, Publish(b, true)).value, steps).Some?
    requires b in RunningBodies(Run(Apply, Apply(s, Publish(b, true)).value, steps).value)
    ensures Run(Apply, Apply(s, Publish(b, true)).value, steps).value.hasFinal
  {
    ExclusiveKept(s, Publish(b, true));
    ClosingThroughout(Apply(s, Publish(b, true)).value, steps, b);
  }

  /** Whether the running body may have persisted the state by now, and whether it may have failed. */
  ghost predicate OnItsWay(s: Controller, b: nat, persisted: bool, failed: bool) {
    && b in s.bodies
    && match s.bodies[b]
       case Solving => !persisted && !failed
       case FinalCheck => !persisted && !failed
       case Closing => !persisted && !failed && s.hasFinal
       case Persisting => !persisted && !failed && !s.hasFinal
       case Clearing => persisted <==> !s.hasFinal && !failed
       case _ => false
  }

  lemma OnItsWayStep(s: Controller, step: Step, b: nat, persisted: bool, failed: bool)
    requires Exclusive(s) && Apply(s, step).Some? && OnItsWay(s, b, persisted, failed)
    requires b in RunningBodies(Apply(s, step).value)
    ensures OnItsWay(Apply(s, step).value, b, persisted || step == Persist(b), failed || step == Fail(b))
  {
    assert b in RunningBodies(s);
    if step.Publish? {
      assert step.b in RunningBodies(s);
      RunningBodyIsAlone(s, b, step.b);
    }
  }

  lemma {:induction false} OnItsWayThroughout(s: Controller, steps: seq<Step>, b: nat, persisted: bool, failed: bool)
    requires Exclusive(s) && OnItsWay(s, b, persisted, failed) && Run(Apply, s, steps).Some?
    requires b in RunningBodies(Run(Apply, s, steps).value)
    ensures OnItsWay(Run(Apply, s, steps).value, b, persisted || Persist(b) in steps, failed || Fail(b) in steps)
    decreases |steps|
  {
    if steps != [] {
      assert steps == [steps[0]] + steps[1..];
      RunningBodyStays(s, steps[0], steps[1..], b);
      OnItsWayStep(s, steps[0], b, persisted, failed);
      ExclusiveKept(s, steps[0]);
      OnItsWayThroughout(Apply(s, steps[0]).value, steps[1..], b, persisted || steps[0] == Persist(b), failed || steps[0] == Fail(b));
    }
  }

  /** A body persists the state on its way out exactly if it has not failed and the session has no final solution then. */
  lemma PersistedIff(s: Controller, steps: seq<Step>, b: nat)
    requires Exclusive(s) && s.BodyIsAt(b, Solving) && Run(Apply, s, steps).Some?
    requires Run(Apply, s, steps).value.BodyIsAt(b, Clearing)
    ensures Persist(b) in steps <==> !Run(Apply, s, steps).value.hasFinal && Fail(b) !in steps
  {
    OnItsWayThroughout(s, steps, b, false, false);
  }

  /** Nobody gets past the wait before the stored body is done, as long as the flag is up. */
  ghost predicate WaitsFor(s: Controller, b: nat) {
    && s.future == Some(b) && b in s.bodies
    && (s.interrupted || s.bodies[b].Done?)
    && (forall t :: t in s.launchers ==> !s.launchers[t].AtAssign?)
    && (forall t :: t in s.launchers && (s.launchers[t].AtClear? || s.launchers[t].AtStart?) ==> s.bodies[b].Done?)
  }

  lemma LaunchWaits(s: Controller, step: Step, b: nat)
    requires WaitsFor(s, b) && ApplyLaunch(s, step).Some? && !step.Start?
    ensures WaitsFor(ApplyLaunch(s, step).value, b)
  {
  }

  lemma BodyWaits(s: Controller, step: Step, b: nat)
    requires WaitsFor(s, b) && ApplyBody(s, step).Some?
    ensures WaitsFor(ApplyBody(s, step).value, b)
  {
  }

  lemma {:induction false} WaitsThroughout(s: Controller, steps: seq<Step>, b: nat)
    requires WaitsFor(s, b) && Run(Apply, s, steps).Some? && forall i :: 0 <= i < |steps| ==> !steps[i].Start?
    ensures WaitsFor(Run(Apply, s, steps).value, b)
    decreases |steps|
  {
    if steps != [] {
      if IsBodyStep(steps[0]) {
        BodyWaits(s, steps[0], b);
      } else if !IsOwnerStep(steps[0]) {
        LaunchWaits(s, steps[0], b);
      }
      WaitsThroughout(Apply(s, steps[0]).value, steps[1..], b);
    }
  }

  /** After an interrupt the next body starts only when the interrupted one, whose future is stored, is done. */
  lemma InterruptedBodyEndsFirst(s: Controller, steps: seq<Step>, b: nat, t: nat, b': nat)
    requires s.interrupted && s.future == Some(b) && b in s.bodies
    requires forall u :: u in s.launchers ==> s.launchers[u].AtFinalCheck? || s.launchers[u].AtCas? || s.launchers[u].AtWait?
    requires Run(Apply, s, steps).Some? && forall i :: 0 <= i < |steps| ==> !steps[i].Start?
    requires Apply(Run(Apply, s, steps).value, Start(t, b')).Some?
    ensures Run(Apply, s, steps).value.BodyIsAt(b, Done)
  {
    WaitsThroughout(s, steps, b);
  }

  /*---------- Relaunching a finished session ----------*/

  /** A thread that has passed the check for a final solution, and may yet start a body. */
  predicate PastCheck(s: Controller, t: nat) {
    t in s.launchers && (s.launchers[t].PastCas() || (s.launchers[t].AtCas? && !s.stuck))
  }

  /** Some thread is past the check, or a body may still take the final solution back, which lets threads pass it. */
  ghost predicate MayLaunch(s: Controller) {
    (exists t :: PastCheck(s, t)) || (s.phase.Alive? && exists b :: s.BodyIsAt(b, Solving))
  }

  /** Finished or stuck, with nobody to launch a body. */
  ghost predicate Retired(s: Controller) {
    && Exclusive(s)
    && (forall t :: !PastCheck(s, t))
    && (s.stuck || !s.phase.Alive? || (s.hasFinal && forall b :: !s.BodyIsAt(b, Solving)))
  }

  lemma StuckRunsNothing(s: Controller, b: nat)
    requires Exclusive(s) && s.stuck && b in s.bodies
    ensures !s.bodies[b].Running()
  {
    assert RunningBodies(s) == {};
    assert s.bodies[b].Running() ==> b in RunningBodies(s);
  }

  lemma RetiredStays(s: Controller, step: Step)
    requires Retired(s) && Apply(s, step).Some?
    ensures Retired(Apply(s, step).value) && !step.Start?
  {
    ExclusiveKept(s, step);
    var s' := Apply(s, step).value;
    if IsBodyStep(step) {
      if s.stuck { StuckRunsNothing(s, step.b); }
      assert !s.BodyIsAt(step.b, Solving) || s.stuck || !s.phase.Alive?;
    } else if !IsOwnerStep(step) {
      assert !PastCheck(s, step.t);
    }
    forall t ensures !PastCheck(s', t) { assert !PastCheck(s, t); }
    forall b | s'.BodyIsAt(b, Solving) ensures s.BodyIsAt(b, Solving) {}
  }

  lemma {:induction false} RetiredForever(s: Controller, steps: seq<Step>)
    requires Retired(s) && Run(Apply, s, steps).Some?
    ensures Retired(Run(Apply, s, steps).value) && forall i :: 0 <= i < |steps| ==> !steps[i].Start?
    decreases |steps|
  {
    if steps != [] {
      RetiredStays(s, steps[0]);
      RetiredForever(Apply(s, steps[0]).value, steps[1..]);
      forall i | 0 <= i < |steps| ensures !steps[i].Start? {
        assert i > 0 ==> steps[i] == steps[1..][i - 1];
      }
    }
  }

  /** One more step after a run. */
  lemma Take(s0: Controller, s: Controller, step: Step) returns (s': Controller)
    requires Reaches(Apply, s0, s) && Apply(s, step).Some?
    ensures Reaches(Apply, s0, s') && Apply(s, step) == Some(s')
  {
    s' := Apply(s, step).value;
    Then(Apply, s0, s, step);
  }

  /** Another thread's place is unchanged. */
  ghost predicate OthersStay(s: Controller, s': Controller, t: nat) {
    forall u :: u != t && u in s.launchers ==> u in s'.launchers && s'.launchers[u] == s.launchers[u]
  }

  lemma PassesCheck(s0: Controller, s: Controller, t: nat) returns (s': Controller)
    requires Reaches(Apply, s0, s) && s.phase.Alive? && t !in s.launchers && !s.hasFinal
    ensures Reaches(Apply, s0, s') && s'.IsAt(t, AtCas) && OthersStay(s, s', t) && s'.launchers.Keys == s.launchers.Keys + {t}
    ensures s' == s.(launchers := s'.launchers)
  {
    s' := Take(s0, s, Enter(t));
    s' := Take(s0, s', CheckFinal(t));
  }

  lemma WinsRace(s0: Controller, s: Controller, t: nat) returns (s': Controller)
    requires Reaches(Apply, s0, s) && s.IsAt(t, AtCas) && !s.started && (!s.interrupted || s.FutureIsReady())
    ensures Reaches(Apply, s0, s') && s'.IsAt(t, AtClear) && OthersStay(s, s', t)
    ensures s' == s.(started := true, launchers := s'.launchers)
  {
    s' := Take(s0, s, Cas(t));
    s' := Take(s0, s', Wait(t));
  }

  lemma StartsBody(s0: Controller, s: Controller, t: nat, b: nat) returns (s': Controller)
    requires Reaches(Apply, s0, s) && s.IsAt(t, AtClear) && b !in s.bodies
    ensures Reaches(Apply, s0, s') && s'.IsAt(t, AtAssign(b)) && OthersStay(s, s', t)
    ensures s' == s.(interrupted := false, launchers := s'.launchers, bodies := s.bodies[b := Solving])
  {
    s' := Take(s0, s, ClearInterrupt(t));
    s' := Take(s0, s', Start(t, b));
  }

  /** Some continuation starts a body. */
  ghost predicate CanLaunch(s: Controller) {
    exists s', t, b :: Reaches(Apply, s, s') && Apply(s', Start(t, b)).Some?
  }

  lemma WinnerCanLaunch(s: Controller, s': Controller, t: nat)
    requires Reaches(Apply, s, s') && (s'.IsAt(t, AtClear) || s'.IsAt(t, AtStart))
    ensures CanLaunch(s)
  {
    var s1 := s';
    if s'.IsAt(t, AtClear) { s1 := Take(s, s', ClearInterrupt(t)); }
    var b := FreshId(s1.bodies.Keys);
    assert Apply(s1, Start(t, b)).Some?;
  }

  /** As long as no body runs, the future is ready or about to be. */
  lemma FutureGetsReady(s0: Controller, s: Controller) returns (s': Controller)
    requires Reaches(Apply, s0, s) && Exclusive(s) && RunningBodies(s) == {}
    ensures Reaches(Apply, s0, s') && s'.FutureIsReady() && s' == s.(bodies := s'.bodies)
  {
    s' := s;
    if !s.FutureIsReady() {
      assert s.future.value !in RunningBodies(s);
      s' := Take(s0, s, Return(s.future.value));
    }
  }

  lemma CheckedLauncherCanLaunch(s0: Controller, s: Controller, t: nat)
    requires Reaches(Apply, s0, s) && Exclusive(s) && !s.started && s.IsAt(t, AtCas)
    ensures CanLaunch(s0)
  {
    assert RunningBodies(s) == {};
    var s' := FutureGetsReady(s0, s);
    s' := WinsRace(s0, s', t);
    WinnerCanLaunch(s0, s', t);
  }

  lemma PastCasCanLaunch(s: Controller, t: nat)
    requires Exclusive(s) && t in s.launchers && s.launchers[t].PastCas()
    ensures CanLaunch(s)
  {
    Reflexive(Apply, s);
    var s' := s;
    if s.launchers[t].AtWait? {
      assert t in Launching(s);
      AtMostOne(Launching(s), RunningBodies(s), t, t);
      s' := FutureGetsReady(s, s);
      s' := Take(s, s', Wait(t));
    }
    WinnerCanLaunch(s, s', t);
  }

  /** The next step of a running body that takes nothing back. */
  function NextOfBody(b: nat, pc: BodyPc): Step {
    if pc.FinalCheck? then CheckBeforePersist(b) else if pc.Persisting? then Persist(b) else FinishSolve(b)
  }

  function StepsToClear(pc: BodyPc): nat {
    if pc.Solving? || pc.Closing? then 3 else if pc.FinalCheck? then 2 else if pc.Persisting? then 1 else 0
  }

  /** A running body comes to the point where the started flag is cleared. */
  lemma {:induction false} BodyComesToClear(s0: Controller, s: Controller, b: nat) returns (s': Controller)
    requires Reaches(Apply, s0, s) && b in s.bodies && s.bodies[b].Running()
    ensures Reaches(Apply, s0, s') && s'.BodyIsAt(b, Clearing) && s'.launchers == s.launchers
    decreases StepsToClear(s.bodies[b])
  {
    if s.bodies[b].Clearing? {
      s' := s;
    } else {
      var s1 := Take(s0, s, NextOfBody(b, s.bodies[b]));
      s' := BodyComesToClear(s0, s1, b);
    }
  }

  lemma ReachedIsExclusive(s0: Controller, s: Controller)
    requires Exclusive(s0) && Reaches(Apply, s0, s)
    ensures Exclusive(s)
  {
    var steps: seq<Step> :| Run(Apply, s0, steps) == Some(s);
    ExclusiveThroughout(s0, steps);
  }

  /** A thread at the compare-and-swap wins it as soon as the body that runs has cleared the flag. */
  lemma WaitingLauncherCanLaunch(s0: Controller, s: Controller, t: nat, b: nat)
    requires Exclusive(s0) && Reaches(Apply, s0, s) && s.IsAt(t, AtCas) && b in s.bodies && s.bodies[b].Running()
    ensures CanLaunch(s0)
  {
    var s' := BodyComesToClear(s0, s, b);
    s' := Take(s0, s', ClearStarted(b));
    ReachedIsExclusive(s0, s');
    CheckedLauncherCanLaunch(s0, s', t);
  }

  lemma AtCasCanLaunch(s: Controller, t: nat)
    requires Exclusive(s) && s.IsAt(t, AtCas) && !s.stuck
    ensures CanLaunch(s)
  {
    Reflexive(Apply, s);
    if !s.started {
      CheckedLauncherCanLaunch(s, s, t);
    } else if b :| b in RunningBodies(s) {
      WaitingLauncherCanLaunch(s, s, t, b);
    } else {
      assert RunningBodies(s) == {};
      assert Launching(s) != {};
      var u :| u in Launching(s);
      PastCasCanLaunch(s, u);
    }
  }

  /** A body that solves a finished session again takes the final solution back, and then any thread passes the check. */
  lemma SolvingCanLaunch(s: Controller, b: nat)
    requires Exclusive(s) && s.phase.Alive? && s.BodyIsAt(b, Solving)
    ensures CanLaunch(s)
  {
    Reflexive(Apply, s);
    var t := FreshId(s.launchers.Keys);
    var s' := Take(s, s, Publish(b, false));
    s' := PassesCheck(s, s', t);
    WaitingLauncherCanLaunch(s, s', t, b);
  }

  lemma {:induction false} FreshId(ids: set<nat>) returns (unused: nat)
    ensures unused !in ids && forall id :: id in ids ==> id < unused
    decreases |ids|
  {
    if ids == {} {
      unused := 0;
    } else {
      var id :| id in ids;
      unused := FreshId(ids - {id});
      unused := Max(unused, id + 1);
      assert forall other :: other in ids ==> other == id || other in ids - {id};
    }
  }

  lemma RetiredCannotLaunch(s: Controller)
    requires Retired(s)
    ensures !CanLaunch(s)
  {
    forall s', t, b | Reaches(Apply, s, s') ensures Apply(s', Start(t, b)).None? {
      var steps: seq<Step> :| Run(Apply, s, steps) == Some(s');
      RetiredForever(s, steps);
      assert !PastCheck(s', t);
    }
  }

  /**
   A session whose final solution has been published can be launched again exactly when some thread
   had passed the check for it before, or a body is already at it again.
   */
  lemma FinishedSessionCanBeRelaunchedIff(s: Controller)
    requires Exclusive(s) && s.hasFinal
    ensures CanLaunch(s) <==> MayLaunch(s)
  {
    if exists t :: PastCheck(s, t) {
      var t :| PastCheck(s, t);
      if s.launchers[t].PastCas() { PastCasCanLaunch(s, t); } else { AtCasCanLaunch(s, t); }
    } else if s.phase.Alive? && exists b :: s.BodyIsAt(b, Solving) {
      var b :| s.BodyIsAt(b, Solving);
      SolvingCanLaunch(s, b);
    } else {
      RetiredCannotLaunch(s);
    }
  }

  /** A failed start is the end of all launching: the flag stays set, and the session never counts as stopped again. */
  lemma FailedStartBlocksForever(s: Controller, s': Controller)
    requires Exclusive(s) && s.stuck && Reaches(Apply, s, s')
    ensures !CanLaunch(s) && s'.started && s'.stuck
  {
    assert Launching(s) == {};
    forall t ensures !PastCheck(s, t) { assert t !in Launching(s); }
    RetiredCannotLaunch(s);
    var steps: seq<Step> :| Run(Apply, s, steps) == Some(s');
    StuckStays(s, steps);
  }

  lemma StuckStep(s: Controller, step: Step)
    requires Exclusive(s) && s.stuck && Apply(s, step).Some?
    ensures Apply(s, step).value.stuck && Apply(s, step).value.started
  {
    if step.ClearStarted? { StuckRunsNothing(s, step.b); }
  }

  lemma {:induction false} StuckStays(s: Controller, steps: seq<Step>)
    requires Exclusive(s) && s.stuck && Run(Apply, s, steps).Some?
    ensures Run(Apply, s, steps).value.stuck && Run(Apply, s, steps).value.started
    decreases |steps|
  {
    if steps != [] {
      ExclusiveKept(s, steps[0]);
      StuckStep(s, steps[0]);
      StuckStays(Apply(s, steps[0]).value, steps[1..]);
    }
  }

  /*---------- A run that relaunches one ----------*/

  lemma FindsFinal(s0: Controller, s: Controller, b: nat) returns (s': Controller)
    requires Reaches(Apply, s0, s) && s.BodyIsAt(b, Solving)
    ensures Reaches(Apply, s0, s') && s' == s.(hasFinal := true, bodies := s.bodies[b := FinalCheck])
  {
    s' := Take(s0, s, Publish(b, true));
    s' := Take(s0, s', FinishSolve(b));
  }

  lemma LeavesContainer(s0: Controller, s: Controller, b: nat) returns (s': Controller)
    requires Reaches(Apply, s0, s) && s.BodyIsAt(b, FinalCheck) && s.hasFinal
    ensures Reaches(Apply, s0, s') && s'.BodyIsAt(b, Returning) && s' == s.(started := false, bodies := s'.bodies)
    ensures s'.bodies.Keys == s.bodies.Keys
  {
    s' := Take(s0, s, CheckBeforePersist(b));
    s' := Take(s0, s', ClearStarted(b));
  }

  /** Two threads pass the check, one launches a body, and that body publishes the final solution and is leaving. */
  lemma FirstBodyFinishes() returns (s: Controller)
    ensures Reaches(Apply, INITIAL, s) && s.hasFinal && !s.started && !s.interrupted
    ensures s.IsAt(1, AtCas) && s.bodies.Keys == {0} && s.BodyIsAt(0, Returning)
  {
    Reflexive(Apply, INITIAL);
    s := PassesCheck(INITIAL, INITIAL, 0);
    s := PassesCheck(INITIAL, s, 1);
    s := WinsRace(INITIAL, s, 0);
    s := StartsBody(INITIAL, s, 0, 0);
    assert s.IsAt(1, AtCas);
    s := FindsFinal(INITIAL, s, 0);
    s := LeavesContainer(INITIAL, s, 0);
  }

  /** A session with its final solution published is solved again, while the body that published it has yet to return. */
  lemma FinishedSessionIsRelaunched()
    ensures exists s, s' ::
              && Reaches(Apply, INITIAL, s) && s.hasFinal && !s.started && RunningBodies(s) == {}
              && Reaches(Apply, s, s') && s'.BodyIsAt(0, Returning) && s'.BodyIsAt(1, Solving)
  {
    var s := FirstBodyFinishes();
    assert RunningBodies(s) == {};
    Reflexive(Apply, s);
    var s' := WinsRace(s, s, 1);
    s' := StartsBody(s, s', 1, 1);
  }
}
