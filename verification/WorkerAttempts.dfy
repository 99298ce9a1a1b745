/** How often a task is started, and how a turn that ends in an exception is counted. */
module WorkerAttempts {
  import opened Concepts
  import opened Runs
  import opened WorkerProtocol

  /** How many steps of a run are of a kind. */
  ghost function Occurrences(s: System, steps: seq<Step>, kind: (System, Step) -> bool): nat
    decreases |steps|
  {
    if steps == [] || !Enabled(s, steps[0]) then 0
    else (if kind(s, steps[0]) then 1 else 0) + Occurrences(Apply(s, steps[0]), steps[1..], kind)
  }

  /*---------- Passing the gate ----------*/

  /** The gate lets the task through. */
  function Passes(t: Task): (System, Step) -> bool {
    (s: System, step: Step) => !step.ServerInterrupts? && s.Get(step.w).task == t && LetsThrough(s.Get(step.w), step)
  }

  lemma {:induction false} PassesAreCounted(s: System, steps: seq<Step>, s': System, t: Task)
    requires IsRun(s, steps, s')
    ensures s'.store.Passes(t) == s.store.Passes(t) + Occurrences(s, steps, Passes(t))
    decreases |steps|
  {
    if steps != [] {
      assert Apply(s, steps[0]).store.Passes(t) == s.store.Passes(t) + if Passes(t)(s, steps[0]) then 1 else 0;
      PassesAreCounted(Apply(s, steps[0]), steps[1..], s', t);
    }
  }

  /** Whatever the workers, the messages and the pauses, a task that is not paused gets through at most four times. */
  lemma RetriesAreBounded(steps: seq<Step>, s: System, t: Task)
    requires IsRun(INITIAL, steps, s)
    ensures Occurrences(INITIAL, steps, Passes(t)) <= 4
  {
    Reachable(steps, s);
    assert Gated(s, t);
    PassesAreCounted(INITIAL, steps, s, t);
  }

  /** An attempt at the task is counted, also if the answer is lost. */
  function Counts(t: Task): (System, Step) -> bool {
    (s: System, step: Step) => step.Count? && s.Get(step.w).task == t
  }

  lemma {:induction false} AttemptsAreCounted(s: System, steps: seq<Step>, s': System, t: Task)
    requires IsRun(s, steps, s')
    ensures s'.store.Attempts(t) == s.store.Attempts(t) + Occurrences(s, steps, Counts(t))
    decreases |steps|
  {
    if steps != [] {
      assert Apply(s, steps[0]).store.Attempts(t) == s.store.Attempts(t) + if Counts(t)(s, steps[0]) then 1 else 0;
      AttemptsAreCounted(Apply(s, steps[0]), steps[1..], s', t);
    }
  }

  /*---------- Starting ----------*/

  /** A worker reports that it starts the task. */
  function Starts(t: Task): (System, Step) -> bool {
    (s: System, step: Step) => step.SendStarted? && s.Get(step.w).task == t
  }

  /** A pause callback writes the status. */
  function Pauses(t: Task): (System, Step) -> bool {
    (s: System, step: Step) =>
      step.CallbackSends? && s.Get(step.w).callback.Call? && s.Get(step.w).callback.pause && s.Get(step.w).callback.t == t
  }

  ghost predicate AboutToStart(s: System, w: WorkerId, t: Task) {
    Holds(s, w, t) && (s.Get(w).pc.Preparing? || s.Get(w).pc.Loaded?)
  }

  /** Every start has used up a pass or a pause, and so will the one that is about to happen or that PAUSED allows. */
  ghost predicate Budgeted(s: System, t: Task, starts: nat, pauses: nat) {
    && starts <= s.store.Passes(t) + pauses
    && (s.store.StatusOf(t).Paused? ==> starts < s.store.Passes(t) + pauses)
    && (forall w :: AboutToStart(s, w, t) ==> starts < s.store.Passes(t) + pauses)
  }

  lemma StartKeepsBudget(s: System, v: WorkerId, lost: bool, t: Task, starts: nat, pauses: nat)
    requires Inv(s) && Enabled(s, SendStarted(v, lost)) && s.Get(v).task == t && Budgeted(s, t, starts, pauses)
    ensures Budgeted(Apply(s, SendStarted(v, lost)), t, starts + 1, pauses)
  {
    var s' := Apply(s, SendStarted(v, lost));
    assert AboutToStart(s, v, t);
    forall w | Holds(s', w, t) ensures w == v { HoldingKept(s, SendStarted(v, lost), w, t); }
  }

  /** Only passing the gate and finding PAUSED bring a worker about to start. */
  lemma LoopComesAboutToStart(store: Store, me: Worker, step: Step)
    requires LoopEnabled(me, step)
    requires LoopAfter(store, me, step).pc.Preparing? || LoopAfter(store, me, step).pc.Loaded?
    ensures LoopAfter(store, me, step).task == me.task && (me.pc.Preparing? || step.PassGate? || step.CheckPaused?)
    ensures step.PassGate? ==> LetsThrough(me, step)
    ensures step.CheckPaused? ==> store.StatusOf(me.task).Paused?
  {
  }

  lemma ComesAboutToStart(s: System, step: Step, w: WorkerId, t: Task)
    requires Enabled(s, step) && AboutToStart(Apply(s, step), w, t) && !AboutToStart(s, w, t)
    ensures s.store.StatusOf(t).Paused? || Passes(t)(s, step)
  {
    if step.ServerInterrupts? || w != step.w {
      OthersKept(s, step, w);
    } else if step.OfBody() || step.OfListener() {
      OthersKeepHolding(s.store, s.Get(w), step);
    } else {
      LoopComesAboutToStart(s.store, s.Get(w), step);
    }
  }

  lemma OtherStepsKeepBudget(s: System, step: Step, t: Task, starts: nat, pauses: nat)
    requires Enabled(s, step) && Budgeted(s, t, starts, pauses) && !Starts(t)(s, step)
    ensures Budgeted(Apply(s, step), t, starts, pauses + if Pauses(t)(s, step) then 1 else 0)
  {
    var s' := Apply(s, step);
    assert s'.store.Passes(t) == s.store.Passes(t) + if Passes(t)(s, step) then 1 else 0;
    forall w | AboutToStart(s', w, t) ensures starts < s'.store.Passes(t) + pauses {
      if !AboutToStart(s, w, t) { ComesAboutToStart(s, step, w, t); }
    }
  }

  lemma {:induction false} StartsAreBudgeted(s: System, steps: seq<Step>, s': System, t: Task, starts: nat, pauses: nat)
    requires Inv(s) && IsRun(s, steps, s') && Budgeted(s, t, starts, pauses)
    ensures Budgeted(s', t, starts + Occurrences(s, steps, Starts(t)), pauses + Occurrences(s, steps, Pauses(t)))
    decreases |steps|
  {
    if steps != [] {
      var s1 := Apply(s, steps[0]);
      InvKept(s, steps[0]);
      if Starts(t)(s, steps[0]) {
        StartKeepsBudget(s, steps[0].w, steps[0].lost, t, starts, pauses);
        StartsAreBudgeted(s1, steps[1..], s', t, starts + 1, pauses);
      } else {
        var more := if Pauses(t)(s, steps[0]) then 1 else 0;
        OtherStepsKeepBudget(s, steps[0], t, starts, pauses);
        StartsAreBudgeted(s1, steps[1..], s', t, starts, pauses + more);
      }
    }
  }

  /** A task is started at most four times, and once more for every pause. */
  lemma StartsAreBounded(steps: seq<Step>, s: System, t: Task)
    requires IsRun(INITIAL, steps, s)
    ensures Occurrences(INITIAL, steps, Starts(t)) <= 4 + Occurrences(INITIAL, steps, Pauses(t))
  {
    InitialInv();
    assert forall w :: INITIAL.Get(w) == NEW_WORKER;
    StartsAreBudgeted(INITIAL, steps, s, t, 0, 0);
    Reachable(steps, s);
    assert Gated(s, t);
  }

  /*---------- Messages ----------*/

  function StartsBy(w: WorkerId, t: Task): (System, Step) -> bool {
    (s: System, step: Step) => step.SendStarted? && step.w == w && s.Get(w).task == t
  }

  function Messages(w: WorkerId, t: Task): (System, Step) -> bool {
    (s: System, step: Step) => step == Receive(w, t)
  }

  /** A message for the task may yet lead to a start. */
  predicate MayStart(me: Worker, t: Task) {
    && me.task == t
    && (me.pc.Locking? || me.pc.CheckingFinished? || me.pc.CheckingPaused? || me.pc.Counting? || me.pc.Gate?
        || me.pc.Preparing? || me.pc.Loaded?)
  }

  lemma LoopUsesMessage(store: Store, me: Worker, step: Step, t: Task)
    requires LoopEnabled(me, step) && MayStart(LoopAfter(store, me, step), t)
    ensures (MayStart(me, t) && !step.SendStarted?) || (step.Receive? && step.t == t)
  {
  }

  lemma StartUsesMessage(s: System, step: Step, w: WorkerId, t: Task)
    requires Enabled(s, step) && StartsBy(w, t)(s, step)
    ensures MayStart(s.Get(w), t)
  {
  }

  lemma OthersUseNothing(s: System, step: Step, w: WorkerId)
    requires Enabled(s, step) && (step.ServerInterrupts? || w != step.w || step.OfBody() || step.OfListener())
    ensures Apply(s, step).Get(w).pc == s.Get(w).pc && Apply(s, step).Get(w).task == s.Get(w).task
  {
    if step.ServerInterrupts? || w != step.w { OthersKept(s, step, w); } else { OthersKeepHolding(s.store, s.Get(w), step); }
  }

  lemma MessageStep(s: System, step: Step, w: WorkerId, t: Task)
    requires Enabled(s, step) && MayStart(Apply(s, step).Get(w), t)
    ensures (MayStart(s.Get(w), t) && !StartsBy(w, t)(s, step)) || Messages(w, t)(s, step)
  {
    if step.ServerInterrupts? || w != step.w || step.OfBody() || step.OfListener() {
      OthersUseNothing(s, step, w);
    } else {
      LoopUsesMessage(s.store, s.Get(w), step, t);
    }
  }

  lemma {:induction false} MessagesAreUsed(s: System, steps: seq<Step>, s': System, w: WorkerId, t: Task)
    requires IsRun(s, steps, s')
    ensures Occurrences(s, steps, StartsBy(w, t)) + (if MayStart(s'.Get(w), t) then 1 else 0)
         <= Occurrences(s, steps, Messages(w, t)) + if MayStart(s.Get(w), t) then 1 else 0
    decreases |steps|
  {
    if steps != [] {
      if MayStart(Apply(s, steps[0]).Get(w), t) { MessageStep(s, steps[0], w, t); }
      if StartsBy(w, t)(s, steps[0]) { StartUsesMessage(s, steps[0], w, t); }
      MessagesAreUsed(Apply(s, steps[0]), steps[1..], s', w, t);
    }
  }

  /** A worker starts a task at most once for each message that names it. */
  lemma StartsNeedMessages(steps: seq<Step>, s: System, w: WorkerId, t: Task)
    requires IsRun(INITIAL, steps, s)
    ensures Occurrences(INITIAL, steps, StartsBy(w, t)) <= Occurrences(INITIAL, steps, Messages(w, t))
  {
    assert INITIAL.Get(w) == NEW_WORKER;
    MessagesAreUsed(INITIAL, steps, s, w, t);
  }

  /*---------- Turns that end in an exception ----------*/

  predicate Throws(step: Step) {
    step.Throw? || (step.Count? && step.replyLost) || (step.SendStarted? && step.lost) || (step.Heartbeat? && step.lost)
  }

  /** An exception is on its way to the error handler, past the destructor of the session if there is one. */
  predicate Failed(pc: Pc) {
    pc.Failing? || (pc.Destroying? && pc.failed)
  }

  /** The step writes the status of the task. */
  function Writes(t: Task): (System, Step) -> bool {
    (s: System, step: Step) =>
      match step
      case SendStarted(w, lost) => s.Get(w).task == t
      case Heartbeat(w, lost) => s.Get(w).task == t
      case HandleError(w) => s.Get(w).task == t
      case BodySendsFinished(w, lost) => s.Get(w).task == t
      case BodySendsError(w, lost) => s.Get(w).task == t
      case CallbackSends(w, lost) => s.Get(w).callback.Call? && s.Get(w).callback.t == t
      case ServerInterrupts(u) => u == t
      case _ => false
  }

  lemma {:induction false} UnwrittenStays(s: System, steps: seq<Step>, s': System, t: Task)
    requires IsRun(s, steps, s') && Occurrences(s, steps, Writes(t)) == 0
    ensures s'.store.StatusOf(t) == s.store.StatusOf(t)
    decreases |steps|
  {
    if steps != [] {
      assert Apply(s, steps[0]).store.StatusOf(t) == s.store.StatusOf(t);
      UnwrittenStays(Apply(s, steps[0]), steps[1..], s', t);
    }
  }

  lemma LoopStaysFailed(store: Store, me: Worker, step: Step)
    requires LoopEnabled(me, step) && Failed(me.pc) && !step.HandleError?
    ensures Failed(LoopAfter(store, me, step).pc) && LoopAfter(store, me, step).task == me.task
  {
  }

  lemma FailedStays(s: System, step: Step, w: WorkerId)
    requires Enabled(s, step) && Failed(s.Get(w).pc) && step != HandleError(w)
    ensures Failed(Apply(s, step).Get(w).pc) && Apply(s, step).Get(w).task == s.Get(w).task
  {
    if step.ServerInterrupts? || w != step.w {
      OthersKept(s, step, w);
    } else if step.OfBody() || step.OfListener() {
      OthersKeepHolding(s.store, s.Get(w), step);
    } else {
      LoopStaysFailed(s.store, s.Get(w), step);
    }
  }

  lemma ThrowingFails(s: System, step: Step)
    requires Enabled(s, step) && Throws(step)
    ensures Failed(Apply(s, step).Get(step.w).pc) && Apply(s, step).Get(step.w).task == s.Get(step.w).task
  {
  }

  /** The worker adds an attempt and gets through the gate if there have been three at most. */
  ghost predicate AddsAttempt(s: System, v: WorkerId) {
    && Enabled(s, Count(v, false))
    && var s', n := Apply(s, Count(v, false)), s.store.Attempts(s.Get(v).task);
       && s'.store.Attempts(s.Get(v).task) == n + 1
       && Enabled(s', PassGate(v)) && Apply(s', PassGate(v)).Get(v).pc == if n <= 3 then Preparing else EarlyUnlocking
  }

  /** So it does when its read works. */
  ghost predicate CountsAttempt(s: System, v: WorkerId) {
    Enabled(s, CheckPaused(v, false)) && AddsAttempt(Apply(s, CheckPaused(v, false)), v)
  }

  lemma CountingAddsAttempt(s: System, v: WorkerId)
    ensures AddsAttempt(s, v) <==> s.Get(v).pc.Counting?
  {
    if s.Get(v).pc.Counting? {
      var s', n := Apply(s, Count(v, false)), s.store.Attempts(s.Get(v).task);
      assert s'.store.Attempts(s.Get(v).task) == n + 1;
      GateOpensIff(s', v, n + 1);
    }
  }

  lemma GateOpensIff(s: System, v: WorkerId, attempts: nat)
    requires s.Get(v).pc == Gate(attempts)
    ensures Enabled(s, PassGate(v)) && Apply(s, PassGate(v)).Get(v).pc == if attempts <= 4 then Preparing else EarlyUnlocking
  {
  }

  /** The worker, whose read works, gives the task back. */
  predicate LeavesAlone(s: System, v: WorkerId) {
    Enabled(s, CheckFinished(v, false)) && Apply(s, CheckFinished(v, false)).Get(v).pc == EarlyUnlocking
  }

  /** The worker, whose read works, goes on to the task without counting an attempt. */
  predicate SkipsCounting(s: System, v: WorkerId) {
    Enabled(s, CheckPaused(v, false)) && Apply(s, CheckPaused(v, false)).Get(v).pc == Preparing
  }

  lemma FinishedDecides(s: System, v: WorkerId)
    requires s.Get(v).pc.CheckingFinished?
    ensures LeavesAlone(s, v) <==> s.store.StatusOf(s.Get(v).task).Finished?
  {
    var s1 := Apply(s, CheckFinished(v, false));
    assert s1.Get(v).pc == if s.store.StatusOf(s.Get(v).task).Finished? then EarlyUnlocking else CheckingPaused;
  }

  lemma PausedDecides(s: System, v: WorkerId)
    requires s.Get(v).pc.CheckingPaused?
    ensures SkipsCounting(s, v) <==> s.store.StatusOf(s.Get(v).task).Paused?
    ensures CountsAttempt(s, v) <==> !s.store.StatusOf(s.Get(v).task).Paused?
  {
    var s1 := Apply(s, CheckPaused(v, false));
    assert s1.Get(v).pc == if s.store.StatusOf(s.Get(v).task).Paused? then Preparing else Counting;
    CountingAddsAttempt(s1, v);
  }

  /** A pause callback sends. */
  predicate SendsPause(s: System, step: Step) {
    step.CallbackSends? && s.Get(step.w).callback.Call? && s.Get(step.w).callback.pause
  }

  function Sent(s: System, step: Step): Status {
    match step
    case SendStarted(_, _) => Started
    case Heartbeat(_, _) => InProgress
    case BodySendsFinished(_, _) => Finished
    case BodySendsError(_, _) => Error
    case HandleError(_) => Error
    case CallbackSends(_, _) => if SendsPause(s, step) then Paused else Interrupted
    case ServerInterrupts(_) => Interrupted
    case _ => NoStatus
  }

  lemma SentIsStored(s: System, step: Step, t: Task)
    requires Enabled(s, step) && Writes(t)(s, step)
    ensures Apply(s, step).store.StatusOf(t) == Sent(s, step)
  {
  }

  /**
   However many other steps follow the last write of a task's status, the next worker whose reads work leaves the task
   alone exactly if the body sent FINISHED, goes on without counting an attempt exactly if a pause callback sent
   PAUSED, and counts one in all other cases.
   */
  lemma LastWriteDecides(s: System, step: Step, steps: seq<Step>, s': System, t: Task)
    requires Enabled(s, step) && Writes(t)(s, step) && IsRun(Apply(s, step), steps, s')
    requires Occurrences(Apply(s, step), steps, Writes(t)) == 0
    ensures s'.store.StatusOf(t) == Sent(s, step)
    ensures forall v :: s'.Get(v).pc.CheckingFinished? && s'.Get(v).task == t ==> (LeavesAlone(s', v) <==> step.BodySendsFinished?)
    ensures forall v :: s'.Get(v).pc.CheckingPaused? && s'.Get(v).task == t ==>
              (SkipsCounting(s', v) <==> SendsPause(s, step)) && (CountsAttempt(s', v) <==> !SendsPause(s, step))
  {
    SentIsStored(s, step, t);
    UnwrittenStays(Apply(s, step), steps, s', t);
    forall v | s'.Get(v).pc.CheckingFinished? ensures LeavesAlone(s', v) <==> s'.store.StatusOf(s'.Get(v).task).Finished? {
      FinishedDecides(s', v);
    }
    forall v | s'.Get(v).pc.CheckingPaused?
      ensures SkipsCounting(s', v) <==> s'.store.StatusOf(s'.Get(v).task).Paused?
      ensures CountsAttempt(s', v) <==> !s'.store.StatusOf(s'.Get(v).task).Paused?
    {
      PausedDecides(s', v);
    }
  }

  /** Nobody else comes to work at a task before the error of a failed turn has been handled. */
  lemma {:induction false} FailureIsHandled(s: System, steps: seq<Step>, s': System, w: WorkerId, v: WorkerId)
    returns (before: seq<Step>, s1: System, after: seq<Step>)
    requires IsRun(s, steps, s') && Failed(s.Get(w).pc) && Exclusive(s')
    requires s'.Get(v).pc.CheckingPaused? && s'.Get(v).task == s.Get(w).task
    ensures steps == before + [HandleError(w)] + after && IsRun(s, before, s1)
    ensures Enabled(s1, HandleError(w)) && s1.Get(w).task == s.Get(w).task && IsRun(Apply(s1, HandleError(w)), after, s')
    decreases |steps|
  {
    if steps == [] {
      assert Holds(s', w, s.Get(w).task) && Holds(s', v, s.Get(w).task);
      before, s1, after := [], s, [];
    } else if steps[0] == HandleError(w) {
      before, s1, after := [], s, steps[1..];
    } else {
      FailedStays(s, steps[0], w);
      before, s1, after := FailureIsHandled(Apply(s, steps[0]), steps[1..], s', w, v);
      before := [steps[0]] + before;
      assert before[1..] + [HandleError(w)] + after == steps[1..];
    }
  }

  lemma HandledErrorIsCounted(s: System, w: WorkerId, steps: seq<Step>, s': System, v: WorkerId)
    requires Enabled(s, HandleError(w)) && IsRun(Apply(s, HandleError(w)), steps, s')
    requires s'.Get(v).pc.CheckingPaused? && s'.Get(v).task == s.Get(w).task
    ensures Apply(s, HandleError(w)).store.StatusOf(s.Get(w).task) == Error
    ensures Occurrences(Apply(s, HandleError(w)), steps, Writes(s.Get(w).task)) == 0 ==> CountsAttempt(s', v)
  {
    if Occurrences(Apply(s, HandleError(w)), steps, Writes(s.Get(w).task)) == 0 {
      LastWriteDecides(s, HandleError(w), steps, s', s.Get(w).task);
    }
  }

  /**
   When a worker comes to ask whether a task is paused, any earlier turn for it that ended in an exception has been
   reported as an error; unless the status has been written since, the worker counts an attempt.
   */
  lemma FailedTurnIsCounted(s: System, step: Step, steps: seq<Step>, s': System, v: WorkerId)
    returns (before: seq<Step>, s1: System, after: seq<Step>)
    requires Inv(s) && Enabled(s, step) && Throws(step) && IsRun(Apply(s, step), steps, s')
    requires s'.Get(v).pc.CheckingPaused? && s'.Get(v).task == s.Get(step.w).task
    ensures steps == before + [HandleError(step.w)] + after
    ensures IsRun(Apply(s, step), before, s1) && Enabled(s1, HandleError(step.w))
    ensures var t, s2 := s.Get(step.w).task, Apply(s1, HandleError(step.w));
            && s2.store.StatusOf(t) == Error && IsRun(s2, after, s')
            && (Occurrences(s2, after, Writes(t)) == 0 ==> CountsAttempt(s', v))
  {
    ThrowingFails(s, step);
    InvKept(s, step);
    InvHoldsThroughout(Apply(s, step), steps, s');
    before, s1, after := FailureIsHandled(Apply(s, step), steps, s', step.w, v);
    HandledErrorIsCounted(s1, step.w, after, s', v);
  }

  /*---------- The end of a turn ----------*/

  /** The body, or a callback of this turn, ends the worker's wait. */
  function SetsDone(w: WorkerId): (System, Step) -> bool {
    (s: System, step: Step) =>
      step == BodySetsDone(w) || (step == CallbackSetsDone(w) && s.Get(w).callback.Call? && !s.Get(w).callback.late)
  }

  function Receives(w: WorkerId): (System, Step) -> bool {
    (s: System, step: Step) => step.Receive? && step.w == w
  }

  lemma LoopKeepsDone(store: Store, me: Worker, step: Step)
    requires LoopEnabled(me, step) && !step.Receive?
    ensures LoopAfter(store, me, step).done == me.done
  {
  }

  lemma DoneStep(s: System, step: Step, w: WorkerId)
    requires Enabled(s, step) && !Receives(w)(s, step)
    ensures Apply(s, step).Get(w).done <==> s.Get(w).done || SetsDone(w)(s, step)
  {
    if step.ServerInterrupts? || w != step.w {
      OthersKept(s, step, w);
    } else if !step.OfBody() && !step.OfListener() {
      LoopKeepsDone(s.store, s.Get(w), step);
    }
  }

  lemma {:induction false} DoneThroughout(s: System, steps: seq<Step>, s': System, w: WorkerId)
    requires IsRun(s, steps, s') && Occurrences(s, steps, Receives(w)) == 0
    ensures s'.Get(w).done <==> s.Get(w).done || 0 < Occurrences(s, steps, SetsDone(w))
    decreases |steps|
  {
    if steps != [] {
      DoneStep(s, steps[0], w);
      DoneThroughout(Apply(s, steps[0]), steps[1..], s', w);
    }
  }

  lemma DoneDecides(s: System, w: WorkerId)
    requires s.Get(w).pc.Waiting?
    ensures Enabled(s, WaitEnds(w)) == s.Get(w).done
    ensures Enabled(s, WaitTimesOut(w)) == !s.Get(w).done
  {
  }

  lemma ReceivingClearsDone(s: System, w: WorkerId, t: Task)
    requires Enabled(s, Receive(w, t))
    ensures !Apply(s, Receive(w, t)).Get(w).done
  {
  }

  /** A waiting worker may stop exactly when its own body or a callback of its own turn has ended the wait. */
  lemma WaitEndsIff(s: System, w: WorkerId, t: Task, s0: System, steps: seq<Step>, s': System)
    requires Enabled(s, Receive(w, t)) && s0 == Apply(s, Receive(w, t)) && IsRun(s0, steps, s')
    requires Occurrences(s0, steps, Receives(w)) == 0 && s'.Get(w).pc.Waiting?
    ensures Enabled(s', WaitEnds(w)) <==> 0 < Occurrences(s0, steps, SetsDone(w))
    ensures Enabled(s', WaitTimesOut(w)) <==> !Enabled(s', WaitEnds(w))
  {
    ReceivingClearsDone(s, w, t);
    DoneThroughout(s0, steps, s', w);
    DoneDecides(s', w);
  }

  /*---------- What a body announces ----------*/

  /** The body has sent its last status, and the answer has come. */
  function Announces(w: WorkerId): (System, Step) -> bool {
    (s: System, step: Step) => step == BodySendsFinished(w, false) || step == BodySendsError(w, false)
  }

  function BodyEndsWait(w: WorkerId): (System, Step) -> bool {
    (s: System, step: Step) => step == BodySetsDone(w)
  }

  function StartsBody(w: WorkerId): (System, Step) -> bool {
    (s: System, step: Step) => step == StartSession(w)
  }

  ghost predicate InBalance(body: BodyPc, announced: nat, ended: nat) {
    announced == ended + if body.Announced? then 1 else 0
  }

  lemma LoopKeepsBody(store: Store, me: Worker, step: Step)
    requires LoopEnabled(me, step) && !step.StartSession?
    ensures LoopAfter(store, me, step).body == me.body
  {
  }

  lemma OthersKeepBody(s: System, step: Step, w: WorkerId)
    requires Enabled(s, step) && !StartsBody(w)(s, step) && !(step.OfBody() && step.w == w)
    ensures Apply(s, step).Get(w).body == s.Get(w).body
  {
    if step.ServerInterrupts? || w != step.w {
      OthersKept(s, step, w);
    } else if !step.OfListener() {
      LoopKeepsBody(s.store, s.Get(w), step);
    }
  }

  lemma OwnBodyStep(s: System, step: Step)
    requires Enabled(s, step) && step.OfBody()
    ensures BodyEnabled(s.Get(step.w), step) && Apply(s, step).Get(step.w) == BodyAfter(s.Get(step.w), step)
  {
  }

  lemma AnnouncingStep(s: System, step: Step, w: WorkerId, announced: nat, ended: nat)
    requires Enabled(s, step) && !StartsBody(w)(s, step) && InBalance(s.Get(w).body, announced, ended)
    ensures InBalance(Apply(s, step).Get(w).body, announced + (if Announces(w)(s, step) then 1 else 0),
                      ended + if BodyEndsWait(w)(s, step) then 1 else 0)
  {
    if step.OfBody() && step.w == w {
      OwnBodyStep(s, step);
    } else {
      OthersKeepBody(s, step, w);
    }
  }

  lemma {:induction false} AnnouncedThroughout(s: System, steps: seq<Step>, s': System, w: WorkerId, announced: nat, ended: nat)
    requires IsRun(s, steps, s') && Occurrences(s, steps, StartsBody(w)) == 0 && InBalance(s.Get(w).body, announced, ended)
    ensures InBalance(s'.Get(w).body, announced + Occurrences(s, steps, Announces(w)), ended + Occurrences(s, steps, BodyEndsWait(w)))
    decreases |steps|
  {
    if steps != [] {
      var announce, end := if Announces(w)(s, steps[0]) then 1 else 0, if BodyEndsWait(w)(s, steps[0]) then 1 else 0;
      AnnouncingStep(s, steps[0], w, announced, ended);
      AnnouncedThroughout(Apply(s, steps[0]), steps[1..], s', w, announced + announce, ended + end);
    }
  }

  lemma SessionStartsWorking(s: System, w: WorkerId)
    requires Enabled(s, StartSession(w))
    ensures Apply(s, StartSession(w)).Get(w).body == Working
  {
  }

  /** A body ends the worker's wait exactly once for every last status whose answer has come, and only after it. */
  lemma BodyEndsWaitIff(s: System, w: WorkerId, s0: System, steps: seq<Step>, s': System)
    requires Enabled(s, StartSession(w)) && s0 == Apply(s, StartSession(w)) && IsRun(s0, steps, s')
    requires Occurrences(s0, steps, StartsBody(w)) == 0
    ensures Enabled(s', BodySetsDone(w)) <==> Occurrences(s0, steps, BodyEndsWait(w)) < Occurrences(s0, steps, Announces(w))
    ensures Occurrences(s0, steps, BodyEndsWait(w)) <= Occurrences(s0, steps, Announces(w)) <= Occurrences(s0, steps, BodyEndsWait(w)) + 1
  {
    SessionStartsWorking(s, w);
    AnnouncedThroughout(s0, steps, s', w, 0, 0);
  }
}
