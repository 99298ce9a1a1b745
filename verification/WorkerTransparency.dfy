/** What the workers' protocol makes of solving histories: which states are loaded, and which solutions are final. */
module WorkerTransparency {
  import opened Concepts
  import opened Runs
  import opened TwoOptRuns
  import opened TwoOptSearch
  import opened TwoOptSession
  import opened WorkerProtocol
  import opened WorkerAttempts

  /*---------- Where loaded states come from ----------*/

  /** The step saves the state for the task. */
  predicate Saves(s: System, step: Step, t: Task, state: SavedState) {
    step.BodySavesState? && s.Get(step.w).task == t && step.state == state
  }

  /** Some step of the run saves the state for the task. */
  ghost predicate SavedIn(s: System, steps: seq<Step>, t: Task, state: SavedState)
    decreases |steps|
  {
    steps != [] && Enabled(s, steps[0]) && (Saves(s, steps[0], t, state) || SavedIn(Apply(s, steps[0]), steps[1..], t, state))
  }

  /** The state is in the store for the task, or a worker has loaded it for the task; or it is no state at all. */
  ghost predicate Known(s: System, t: Task, state: SavedState) {
    || state == NO_STATE
    || (t in s.store.saved && s.store.saved[t] == state)
    || exists w :: s.Get(w).task == t && s.Get(w).loaded == state
  }

  lemma LoopLoads(store: Store, me: Worker, step: Step)
    requires LoopEnabled(me, step)
    ensures var me' := LoopAfter(store, me, step);
            me'.loaded == NO_STATE || (me'.task == me.task && me'.loaded in {me.loaded, store.SavedOf(me.task)})
  {
  }

  lemma OthersLoadNothing(store: Store, me: Worker, step: Step)
    requires StepEnabled(me, step) && (step.OfBody() || step.OfListener())
    ensures WorkerAfter(store, me, step).loaded == me.loaded && WorkerAfter(store, me, step).task == me.task
  {
  }

  lemma WorkerKnows(s: System, step: Step, w: WorkerId)
    requires Enabled(s, step)
    ensures Known(s, Apply(s, step).Get(w).task, Apply(s, step).Get(w).loaded)
  {
    if step.ServerInterrupts? || w != step.w {
      OthersKept(s, step, w);
    } else if step.OfBody() || step.OfListener() {
      OthersLoadNothing(s.store, s.Get(w), step);
    } else {
      LoopLoads(s.store, s.Get(w), step);
    }
  }

  lemma KnownBefore(s: System, step: Step, t: Task, state: SavedState)
    requires Enabled(s, step) && Known(Apply(s, step), t, state)
    ensures Known(s, t, state) || Saves(s, step, t, state)
  {
    var s' := Apply(s, step);
    if exists w :: s'.Get(w).task == t && s'.Get(w).loaded == state {
      var w :| s'.Get(w).task == t && s'.Get(w).loaded == state;
      WorkerKnows(s, step, w);
    }
  }

  lemma {:induction false} KnownWasSaved(s: System, steps: seq<Step>, s': System, t: Task, state: SavedState)
    requires IsRun(s, steps, s') && Known(s', t, state)
    ensures Known(s, t, state) || SavedIn(s, steps, t, state)
    decreases |steps|
  {
    if steps != [] {
      KnownWasSaved(Apply(s, steps[0]), steps[1..], s', t, state);
      if Known(Apply(s, steps[0]), t, state) { KnownBefore(s, steps[0], t, state); }
    }
  }

  /** What a session starts from is nothing, or a state that an earlier session of the same task has left in the store. */
  lemma LoadedStateWasSaved(steps: seq<Step>, s: System, w: WorkerId)
    requires IsRun(INITIAL, steps, s)
    ensures s.Get(w).loaded == NO_STATE || SavedIn(INITIAL, steps, s.Get(w).task, s.Get(w).loaded)
  {
    KnownWasSaved(INITIAL, steps, s, s.Get(w).task, s.Get(w).loaded);
    assert forall v :: INITIAL.Get(v) == NEW_WORKER;
  }

  /** The saved state of the task is replaced or cleared. */
  function TouchesSaved(t: Task): (System, Step) -> bool {
    (s: System, step: Step) =>
      || (step.BodySavesState? && s.Get(step.w).task == t)
      || (step.CallbackClears? && !step.failed && s.Get(step.w).callback.Call? && s.Get(step.w).callback.t == t)
  }

  function Loads(w: WorkerId): (System, Step) -> bool {
    (s: System, step: Step) => step.LoadState? && step.w == w
  }

  lemma {:induction false} SavedStays(s: System, steps: seq<Step>, s': System, t: Task)
    requires IsRun(s, steps, s') && Occurrences(s, steps, TouchesSaved(t)) == 0
    ensures s'.store.SavedOf(t) == s.store.SavedOf(t)
    decreases |steps|
  {
    if steps != [] {
      assert Apply(s, steps[0]).store.SavedOf(t) == s.store.SavedOf(t);
      SavedStays(Apply(s, steps[0]), steps[1..], s', t);
    }
  }

  lemma LoopKeepsLoaded(store: Store, me: Worker, step: Step)
    requires LoopEnabled(me, step) && !step.Receive? && !step.LoadState?
    ensures LoopAfter(store, me, step).loaded == me.loaded
  {
  }

  lemma LoadedStep(s: System, step: Step, w: WorkerId)
    requires Enabled(s, step) && !Receives(w)(s, step) && !Loads(w)(s, step)
    ensures Apply(s, step).Get(w).loaded == s.Get(w).loaded
  {
    if step.ServerInterrupts? || w != step.w {
      OthersKept(s, step, w);
    } else if step.OfBody() || step.OfListener() {
      OthersLoadNothing(s.store, s.Get(w), step);
    } else {
      LoopKeepsLoaded(s.store, s.Get(w), step);
    }
  }

  lemma {:induction false} LoadedStays(s: System, steps: seq<Step>, s': System, w: WorkerId)
    requires IsRun(s, steps, s') && Occurrences(s, steps, Receives(w)) == 0 && Occurrences(s, steps, Loads(w)) == 0
    ensures s'.Get(w).loaded == s.Get(w).loaded
    decreases |steps|
  {
    if steps != [] {
      LoadedStep(s, steps[0], w);
      LoadedStays(Apply(s, steps[0]), steps[1..], s', w);
    }
  }

  /**
   However many steps of whichever workers come in between, a session whose read works starts from just the state that
   was saved last for its task, and from nothing if it was cleared last or if the read fails.
   */
  lemma LastSaveIsLoaded(s: System, step: Step, steps: seq<Step>, s1: System, t: Task, w: WorkerId, failed: bool, more: seq<Step>, s': System)
    requires Enabled(s, step) && TouchesSaved(t)(s, step)
    requires IsRun(Apply(s, step), steps, s1) && Occurrences(Apply(s, step), steps, TouchesSaved(t)) == 0
    requires Enabled(s1, LoadState(w, failed)) && s1.Get(w).task == t && IsRun(Apply(s1, LoadState(w, failed)), more, s')
    requires Occurrences(Apply(s1, LoadState(w, failed)), more, Receives(w)) == 0
    requires Occurrences(Apply(s1, LoadState(w, failed)), more, Loads(w)) == 0
    ensures s'.Get(w).loaded == if step.BodySavesState? && !failed then step.state else NO_STATE
  {
    assert Apply(s, step).store.SavedOf(t) == if step.BodySavesState? then step.state else NO_STATE;
    SavedStays(Apply(s, step), steps, s1, t);
    LoadedStays(Apply(s1, LoadState(w, failed)), more, s', w);
  }

  /*---------- Transparency ----------*/

  /** What is stored under a task's id: its points, and its cost and validity. */
  datatype Problem = Problem(est: Estimator, task: TspTask)

  type Problems = Task -> Problem

  /** Solving needs two points. */
  ghost predicate Solvable(problems: Problems) {
    forall t :: 2 <= |problems(t).task.points|
  }

  /** A session saves what the algorithm has left after some run from what the session has loaded. */
  ghost predicate SavesOwnRun(problems: Problems, me: Worker, step: Step)
    requires Solvable(problems)
  {
    step.BodySavesState? ==> exists log, trials :: Solved(problems(me.task).est, problems(me.task).task, me.loaded, log, trials, step.state)
  }

  /** The protocol's steps with the 2-opt algorithm as the bodies. */
  ghost function Solving(problems: Problems): (System, Step) -> Option<System>
    requires Solvable(problems)
  {
    (s: System, step: Step) =>
      if Enabled(s, step) && (step.ServerInterrupts? || SavesOwnRun(problems, s.Get(step.w), step)) then Some(Apply(s, step)) else None
  }

  /** Every state known for a task is one of that task's uninterrupted search. */
  ghost predicate OnTrajectories(problems: Problems, s: System)
    requires Solvable(problems)
  {
    forall t, state :: Known(s, t, state) ==> OnTrajectory(problems(t).est, problems(t).task, state)
  }

  lemma OnTrajectoriesKept(problems: Problems, s: System, step: Step)
    requires Solvable(problems) && OnTrajectories(problems, s) && Solving(problems)(s, step).Some?
    ensures OnTrajectories(problems, Apply(s, step))
  {
    forall t, state | Known(Apply(s, step), t, state) ensures OnTrajectory(problems(t).est, problems(t).task, state) {
      KnownBefore(s, step, t, state);
      if Saves(s, step, t, state) {
        var me := s.Get(step.w);
        assert Known(s, t, me.loaded);
        var log, trials :| Solved(problems(t).est, problems(t).task, me.loaded, log, trials, state);
        RunStaysOnTrajectory(problems(t).est, problems(t).task, me.loaded, log, trials, state);
      }
    }
  }

  lemma {:induction false} OnTrajectoriesThroughout(problems: Problems, s: System, steps: seq<Step>)
    requires Solvable(problems) && OnTrajectories(problems, s) && Run(Solving(problems), s, steps).Some?
    ensures OnTrajectories(problems, Run(Solving(problems), s, steps).value)
    decreases |steps|
  {
    if steps != [] {
      OnTrajectoriesKept(problems, s, steps[0]);
      OnTrajectoriesThroughout(problems, Apply(s, steps[0]), steps[1..]);
    }
  }

  lemma InitialOnTrajectories(problems: Problems)
    requires Solvable(problems)
    ensures OnTrajectories(problems, INITIAL)
  {
    assert forall v :: INITIAL.Get(v) == NEW_WORKER;
  }

  /**
   Whatever the workers, duplicate messages, pauses, lost and cleared states have been: a run of the
   algorithm from what a worker has loaded, if it publishes a final solution, publishes the one with
   which the task's uninterrupted fresh search ends.
   */
  lemma FinalSolutionsAreTransparent(problems: Problems, steps: seq<Step>, s: System, w: WorkerId,
                                     log: seq<TspSolution>, trials: nat, after: StateDto, q: nat)
    requires Solvable(problems) && Run(Solving(problems), INITIAL, steps) == Some(s)
    requires Solved(problems(s.Get(w).task).est, problems(s.Get(w).task).task, s.Get(w).loaded, log, trials, after) && q < |log| && log[q].final
    ensures log[q] == FinalSolution(problems(s.Get(w).task).est, problems(s.Get(w).task).task)
  {
    InitialOnTrajectories(problems);
    OnTrajectoriesThroughout(problems, INITIAL, steps);
    var me := s.Get(w);
    assert Known(s, me.task, me.loaded);
    var session := Session(me.loaded, log, trials, after);
    OnlyClosingIsFinal(problems(me.task).est, problems(me.task).task, session, q);
    ClosingSolution(problems(me.task).est, problems(me.task).task, session);
  }
}
