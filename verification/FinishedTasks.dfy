/** When a worker, or a callback that has outlived its worker's interest, can undo the status FINISHED. */
module FinishedTasks {
  import opened Concepts
  import opened Runs
  import opened WorkerProtocol

  /**
   The check for FINISHED fails, and the worker goes on as if the task were open; or the unlock that
   answers it throws, and the worker reports an error.
   */
  predicate FailsCheck(me: Worker, step: Step) {
    || (me.pc.CheckingFinished? && (step.Throw? || (step.CheckFinished? && step.failed)))
    || (me.pc.EarlyUnlocking? && step.Throw?)
  }

  /** What can undo FINISHED in any state: such a failure, and the server's own write. */
  predicate Disturbs(s: System, step: Step, t: Task) {
    if step.ServerInterrupts? then step.t == t else s.Get(step.w).task == t && FailsCheck(s.Get(step.w), step)
  }

  /** The steps at which nothing of that kind happens to the task. */
  function Quietly(t: Task): (System, Step) -> Option<System> {
    (s: System, step: Step) => if Enabled(s, step) && !Disturbs(s, step, t) then Some(Apply(s, step)) else None
  }

  ghost predicate IsQuietRun(s: System, steps: seq<Step>, s': System, t: Task) {
    Run(Quietly(t), s, steps) == Some(s')
  }

  lemma {:induction false} QuietRunIsRun(s: System, steps: seq<Step>, s': System, t: Task)
    requires IsQuietRun(s, steps, s', t)
    ensures IsRun(s, steps, s')
    decreases |steps|
  {
    if steps != [] {
      QuietRunIsRun(Apply(s, steps[0]), steps[1..], s', t);
    }
  }

  /*---------- Threats ----------*/

  /** Some quiet run ends with another status. */
  ghost predicate CanOverwrite(s: System, t: Task) {
    exists s' :: Reaches(Quietly(t), s, s') && !s'.store.StatusOf(t).Finished?
  }

  /** A worker in this state, holding the lock, has a write of the status ahead of it or can be made to. */
  predicate MayWrite(me: Worker) {
    || me.pc.CheckingPaused? || me.pc.Counting? || me.pc.Preparing? || me.pc.Loaded? || me.pc.Starting?
    || me.pc.Beating? || me.pc.Failing?
    || (me.pc.Gate? && me.pc.attempts < MAX_ATTEMPTS)
    || ((me.pc.Subscribing? || me.pc.Waiting?) && !me.done)
    || (me.pc.Destroying? && me.pc.failed)
    || !me.body.NoBody?
    || ((me.subscribed || me.pc.Subscribing?) && !me.callback.Down?)
  }

  predicate Threatens(me: Worker, t: Task) {
    || (me.pc.HoldsLock() && me.task == t && MayWrite(me))
    || (me.callback.WillWrite() && me.callback.t == t)
  }

  lemma OneStepBack(s: System, step: Step, t: Task)
    requires Enabled(s, step) && !Disturbs(s, step, t) && CanOverwrite(Apply(s, step), t)
    ensures CanOverwrite(s, t)
  {
    var s' :| Reaches(Quietly(t), Apply(s, step), s') && !s'.store.StatusOf(t).Finished?;
    OneStep(Quietly(t), s, step);
    Transitive(Quietly(t), s, Apply(s, step), s');
  }

  lemma WritingOverwrites(s: System, step: Step, t: Task)
    requires !step.ServerInterrupts? && StepEnabled(s.Get(step.w), step)
    requires WritesStatus(step) && !step.BodySendsFinished? && WrittenTask(s.Get(step.w), step) == t
    ensures CanOverwrite(s, t)
  {
    OneStep(Quietly(t), s, step);
    assert !WrittenStatus(s.Get(step.w), step).Finished?;
  }

  lemma FailingOverwrites(s: System, w: WorkerId, t: Task)
    requires s.Get(w).task == t && s.Get(w).pc.Failing?
    ensures CanOverwrite(s, t)
  {
    WritingOverwrites(s, HandleError(w), t);
  }

  lemma ThrowingOverwrites(s: System, w: WorkerId, t: Task)
    requires s.Get(w).task == t
    requires s.Get(w).pc.CheckingPaused? || s.Get(w).pc.Counting? || s.Get(w).pc.Preparing?
      || s.Get(w).pc.Loaded? || s.Get(w).pc.Starting?
    ensures CanOverwrite(s, t)
  {
    FailingOverwrites(Apply(s, Throw(w)), w, t);
    OneStepBack(s, Throw(w), t);
  }

  lemma PassingOverwrites(s: System, w: WorkerId, t: Task)
    requires s.Get(w).task == t && s.Get(w).pc.Gate? && s.Get(w).pc.attempts < MAX_ATTEMPTS
    ensures CanOverwrite(s, t)
  {
    ThrowingOverwrites(Apply(s, PassGate(w)), w, t);
    OneStepBack(s, PassGate(w), t);
  }

  lemma BodyOverwrites(s: System, w: WorkerId, t: Task)
    requires s.Get(w).task == t && !s.Get(w).body.NoBody?
    ensures CanOverwrite(s, t)
  {
    if s.Get(w).body.Announced? {
      WritingOverwrites(Apply(s, BodySetsDone(w)), BodySendsError(w, false), t);
      OneStepBack(s, BodySetsDone(w), t);
    } else {
      WritingOverwrites(s, BodySendsError(w, false), t);
    }
  }

  lemma CallbackOverwrites(s: System, w: WorkerId, t: Task)
    requires s.Get(w).callback.WillWrite() && s.Get(w).callback.t == t
    ensures CanOverwrite(s, t)
  {
    if s.Get(w).callback.stage.Copied? {
      WritingOverwrites(Apply(s, CallbackRaisesFlag(w)), CallbackSends(w, false), t);
      OneStepBack(s, CallbackRaisesFlag(w), t);
    } else {
      WritingOverwrites(s, CallbackSends(w, false), t);
    }
  }

  /** What the listener thread does next in a call. */
  function NextInCall(w: WorkerId, stage: Stage): Step {
    match stage
    case Copied => CallbackRaisesFlag(w)
    case Flagged => CallbackSends(w, false)
    case Signalled => CallbackClears(w, false)
    case Cleared => CallbackSetsDone(w)
  }

  function CallsLeft(callback: Callback): nat {
    if !callback.Call? then 0
    else match callback.stage
      case Copied => 4
      case Flagged => 3
      case Signalled => 2
      case Cleared => 1
  }

  /** A listener busy with another call gets to this task's signal in the end. */
  lemma {:induction false} ListenerOverwrites(s: System, w: WorkerId, t: Task)
    requires s.Get(w).task == t && s.Get(w).subscribed && !s.Get(w).callback.Down?
    ensures CanOverwrite(s, t)
    decreases CallsLeft(s.Get(w).callback)
  {
    var callback := s.Get(w).callback;
    if callback.NoCall? {
      CallbackOverwrites(Apply(s, CopyCallback(w, true)), w, t);
      OneStepBack(s, CopyCallback(w, true), t);
    } else {
      var step := NextInCall(w, callback.stage);
      ListenerOverwrites(Apply(s, step), w, t);
      OneStepBack(s, step, t);
    }
  }

  lemma WaitingOverwrites(s: System, w: WorkerId, t: Task)
    requires s.Get(w).task == t && s.Get(w).pc.Waiting? && !s.Get(w).done
    ensures CanOverwrite(s, t)
  {
    WritingOverwrites(Apply(s, WaitTimesOut(w)), Heartbeat(w, false), t);
    OneStepBack(s, WaitTimesOut(w), t);
  }

  lemma SubscribingOverwrites(s: System, w: WorkerId, t: Task)
    requires s.Get(w).task == t && s.Get(w).pc.Subscribing? && (!s.Get(w).done || !s.Get(w).callback.Down?)
    ensures CanOverwrite(s, t)
  {
    var s' := Apply(s, Subscribe(w));
    if s.Get(w).done { ListenerOverwrites(s', w, t); } else { WaitingOverwrites(s', w, t); }
    OneStepBack(s, Subscribe(w), t);
  }

  lemma FailedSessionOverwrites(s: System, w: WorkerId, t: Task)
    requires s.Get(w).task == t && s.Get(w).pc.Destroying? && s.Get(w).pc.failed && s.Get(w).body.NoBody?
    ensures CanOverwrite(s, t)
  {
    FailingOverwrites(Apply(s, DestroySession(w)), w, t);
    OneStepBack(s, DestroySession(w), t);
  }

  lemma ThreatOverwrites(s: System, w: WorkerId, t: Task)
    requires Threatens(s.Get(w), t)
    ensures CanOverwrite(s, t)
  {
    var me := s.Get(w);
    if me.callback.WillWrite() && me.callback.t == t {
      CallbackOverwrites(s, w, t);
    } else if !me.body.NoBody? {
      BodyOverwrites(s, w, t);
    } else if me.pc.Beating? {
      WritingOverwrites(s, Heartbeat(w, false), t);
    } else if me.pc.Failing? {
      FailingOverwrites(s, w, t);
    } else if me.pc.Gate? && me.pc.attempts < MAX_ATTEMPTS {
      PassingOverwrites(s, w, t);
    } else if me.pc.Destroying? && me.pc.failed {
      FailedSessionOverwrites(s, w, t);
    } else if me.pc.Subscribing? {
      SubscribingOverwrites(s, w, t);
    } else if me.pc.Waiting? && !me.done {
      WaitingOverwrites(s, w, t);
    } else if me.subscribed && !me.callback.Down? {
      ListenerOverwrites(s, w, t);
    } else {
      ThrowingOverwrites(s, w, t);
    }
  }

  /*---------- Without a threat ----------*/

  ghost predicate Calm(s: System, t: Task) {
    s.store.StatusOf(t).Finished? && forall w :: !Threatens(s.Get(w), t)
  }

  lemma LoopStaysCalmBefore(store: Store, me: Worker, step: Step, t: Task)
    requires LoopEnabled(me, step) && Orderly(me) && !Threatens(me, t) && store.StatusOf(t).Finished? && !me.pc.HasSession()
    requires me.task == t ==> !FailsCheck(me, step)
    ensures !Threatens(LoopAfter(store, me, step), t)
  {
  }

  lemma LoopStaysCalmDuring(store: Store, me: Worker, step: Step, t: Task)
    requires LoopEnabled(me, step) && Orderly(me) && !Threatens(me, t) && me.pc.HasSession()
    ensures !Threatens(LoopAfter(store, me, step), t)
  {
  }

  lemma BodyStaysCalm(me: Worker, step: Step, t: Task)
    requires step.OfBody() && BodyEnabled(me, step) && Orderly(me) && !Threatens(me, t)
    ensures !Threatens(BodyAfter(me, step), t)
  {
  }

  lemma ListenerStaysCalm(me: Worker, step: Step, t: Task)
    requires ListenerEnabled(me, step) && Orderly(me) && !Threatens(me, t)
    ensures !Threatens(ListenerAfter(me, step), t)
  {
  }

  lemma CalmWorkerStays(s: System, step: Step, w: WorkerId, t: Task)
    requires Inv(s) && Calm(s, t) && Enabled(s, step) && !Disturbs(s, step, t)
    ensures !Threatens(Apply(s, step).Get(w), t)
  {
    if step.ServerInterrupts? || w != step.w {
      OthersKept(s, step, w);
    } else {
      var me := s.Get(w);
      assert Disciplined(me);
      if step.OfBody() {
        BodyStaysCalm(me, step, t);
      } else if step.OfListener() {
        ListenerStaysCalm(me, step, t);
      } else if me.pc.HasSession() {
        LoopStaysCalmDuring(s.store, me, step, t);
      } else {
        LoopStaysCalmBefore(s.store, me, step, t);
      }
    }
  }

  lemma CalmWrites(s: System, step: Step, t: Task)
    requires Inv(s) && Calm(s, t) && !step.ServerInterrupts? && StepEnabled(s.Get(step.w), step)
    ensures WritesStatus(step) ==> WrittenTask(s.Get(step.w), step) != t
    ensures step.StartSession? ==> s.Get(step.w).task != t
  {
    assert Disciplined(s.Get(step.w)) && !Threatens(s.Get(step.w), t);
  }

  lemma CalmKept(s: System, step: Step, t: Task)
    requires Inv(s) && Calm(s, t) && Enabled(s, step) && !Disturbs(s, step, t)
    ensures Calm(Apply(s, step), t)
    ensures step.StartSession? ==> s.Get(step.w).task != t
  {
    forall w ensures !Threatens(Apply(s, step).Get(w), t) { CalmWorkerStays(s, step, w, t); }
    if !step.ServerInterrupts? { CalmWrites(s, step, t); }
  }

  ghost predicate NeverStarts(s: System, steps: seq<Step>, t: Task)
    decreases |steps|
  {
    steps != [] && Enabled(s, steps[0]) ==>
      !(steps[0].StartSession? && s.Get(steps[0].w).task == t) && NeverStarts(Apply(s, steps[0]), steps[1..], t)
  }

  /** Without a threat a finished task stays finished and is never solved again, however many start messages arrive. */
  lemma {:induction false} FinishedTaskIsNotRerun(s: System, steps: seq<Step>, s': System, t: Task)
    requires Inv(s) && Calm(s, t) && IsQuietRun(s, steps, s', t)
    ensures Calm(s', t) && NeverStarts(s, steps, t)
    decreases |steps|
  {
    if steps != [] {
      CalmKept(s, steps[0], t);
      InvKept(s, steps[0]);
      FinishedTaskIsNotRerun(Apply(s, steps[0]), steps[1..], s', t);
    }
  }

  /** FINISHED can be overwritten exactly when some worker or some pending callback is a threat to it. */
  lemma FinishedCanBeOverwrittenIff(s: System, t: Task)
    requires Inv(s) && s.store.StatusOf(t).Finished?
    ensures CanOverwrite(s, t) <==> exists w :: Threatens(s.Get(w), t)
  {
    if exists w :: Threatens(s.Get(w), t) {
      var w :| Threatens(s.Get(w), t);
      ThreatOverwrites(s, w, t);
    } else {
      forall s' | Reaches(Quietly(t), s, s') ensures s'.store.StatusOf(t).Finished? {
        var steps: seq<Step> :| Run(Quietly(t), s, steps) == Some(s');
        FinishedTaskIsNotRerun(s, steps, s', t);
      }
    }
  }

  /*---------- Runs that undo FINISHED ----------*/

  /** What a step makes of its worker and the store. */
  function Effect(store: Store, me: Worker, step: Step): Option<(Worker, Store)> {
    if StepEnabled(me, step) && !FailsCheck(me, step) then Some((WorkerAfter(store, me, step), StoreAfter(store, me, step))) else None
  }

  /** One more quiet step after a quiet run. */
  lemma Take(s0: System, s: System, step: Step, me: Worker, store: Store, t: Task) returns (s': System)
    requires Reaches(Quietly(t), s0, s) && !step.ServerInterrupts? && Effect(s.store, s.Get(step.w), step) == Some((me, store))
    ensures Reaches(Quietly(t), s0, s')
    ensures s'.Get(step.w) == me && s'.store == store && forall v :: v != step.w ==> s'.Get(v) == s.Get(v)
  {
    s' := Apply(s, step);
    Then(Quietly(t), s0, s, step);
  }

  /** A quiet run after which one worker and the store are as given, and the other workers as before. */
  ghost predicate Leads(s0: System, s: System, s': System, w: WorkerId, me: Worker, store: Store, t: Task) {
    Reaches(Quietly(t), s0, s') && s'.Get(w) == me && s'.store == store && forall v :: v != w ==> s'.Get(v) == s.Get(v)
  }

  lemma Locks(s0: System, s: System, w: WorkerId, t: Task) returns (s': System)
    requires Reaches(Quietly(t), s0, s) && s.Get(w).pc.Idle? && t !in s.store.locks
    ensures Leads(s0, s, s', w, s.Get(w).(pc := CheckingFinished, task := t, loaded := NO_STATE, done := false, acquired := s.Get(w).acquired + 1),
                  s.store.(locks := s.store.locks + {t}), t)
  {
    var me := s.Get(w).(pc := Locking, task := t, loaded := NO_STATE, done := false);
    s' := Take(s0, s, Receive(w, t), me, s.store, t);
    me := me.(pc := CheckingFinished, acquired := me.acquired + 1);
    s' := Take(s0, s', TryLock(w, Answered), me, s.store.(locks := s.store.locks + {t}), t);
  }

  lemma Checks(s0: System, s: System, w: WorkerId, t: Task) returns (s': System)
    requires Reaches(Quietly(t), s0, s) && s.Get(w).pc.CheckingFinished? && s.Get(w).task == t && !s.store.StatusOf(t).Finished?
    ensures Leads(s0, s, s', w, s.Get(w).(pc := if s.store.StatusOf(t).Paused? then Preparing else Counting), s.store, t)
  {
    s' := Take(s0, s, CheckFinished(w, false), s.Get(w).(pc := CheckingPaused), s.store, t);
    var next := if s.store.StatusOf(t).Paused? then Preparing else Counting;
    s' := Take(s0, s', CheckPaused(w, false), s.Get(w).(pc := next), s.store, t);
  }

  lemma Counts(s0: System, s: System, w: WorkerId, t: Task) returns (s': System)
    requires Reaches(Quietly(t), s0, s) && s.Get(w).pc.Counting? && s.Get(w).task == t
    ensures Leads(s0, s, s', w, s.Get(w).(pc := Gate(s.store.Attempts(t) + 1)),
                  s.store.(attempts := s.store.attempts[t := s.store.Attempts(t) + 1]), t)
  {
    var attempts := s.store.Attempts(t) + 1;
    s' := Take(s0, s, Count(w, false), s.Get(w).(pc := Gate(attempts)), s.store.(attempts := s.store.attempts[t := attempts]), t);
  }

  lemma PassesGate(s0: System, s: System, w: WorkerId, t: Task) returns (s': System)
    requires Reaches(Quietly(t), s0, s) && s.Get(w).pc.Gate? && s.Get(w).pc.attempts < MAX_ATTEMPTS && s.Get(w).task == t
    ensures Leads(s0, s, s', w, s.Get(w).(pc := Preparing), s.store.(passes := s.store.passes[t := s.store.Passes(t) + 1]), t)
  {
    s' := Take(s0, s, PassGate(w), s.Get(w).(pc := Preparing), s.store.(passes := s.store.passes[t := s.store.Passes(t) + 1]), t);
  }

  lemma Loads(s0: System, s: System, w: WorkerId, t: Task) returns (s': System)
    requires Reaches(Quietly(t), s0, s) && s.Get(w).pc.Preparing? && s.Get(w).task == t
    ensures Leads(s0, s, s', w, s.Get(w).(pc := Loaded, loaded := s.store.SavedOf(t)), s.store, t)
  {
    s' := Take(s0, s, LoadState(w, false), s.Get(w).(pc := Loaded, loaded := s.store.SavedOf(t)), s.store, t);
  }

  lemma Announces(s0: System, s: System, w: WorkerId, t: Task) returns (s': System)
    requires Reaches(Quietly(t), s0, s) && s.Get(w).pc.Loaded? && s.Get(w).task == t
    ensures Leads(s0, s, s', w, s.Get(w).(pc := Starting), s.store.(status := s.store.status[t := Started]), t)
  {
    s' := Take(s0, s, SendStarted(w, false), s.Get(w).(pc := Starting), s.store.(status := s.store.status[t := Started]), t);
  }

  lemma Starts(s0: System, s: System, w: WorkerId, t: Task) returns (s': System)
    requires Reaches(Quietly(t), s0, s) && s.Get(w).pc.Starting? && s.Get(w).task == t
    ensures Leads(s0, s, s', w, s.Get(w).(pc := Waiting, body := Working, subscribed := true), s.store, t)
  {
    s' := Take(s0, s, StartSession(w), s.Get(w).(pc := Subscribing, body := Working), s.store, t);
    s' := Take(s0, s', Subscribe(w), s.Get(w).(pc := Waiting, body := Working, subscribed := true), s.store, t);
  }

  /** A worker that gets an open task with a free lock, and attempts left unless it is paused, gets past the checks. */
  lemma PassesChecks(s0: System, s: System, w: WorkerId, t: Task) returns (s': System)
    requires Reaches(Quietly(t), s0, s) && s.Get(w).pc.Idle? && t !in s.store.locks && !s.store.StatusOf(t).Finished?
    requires s.store.StatusOf(t).Paused? || s.store.Attempts(t) + 1 < MAX_ATTEMPTS
    ensures Leads(s0, s, s', w, s.Get(w).(pc := Preparing, task := t, loaded := NO_STATE, done := false,
                                          acquired := s.Get(w).acquired + 1), s'.store, t)
    ensures s'.store.locks == s.store.locks + {t} && s'.store.saved == s.store.saved && s'.store.Attempts(t) <= s.store.Attempts(t) + 1
  {
    s' := Locks(s0, s, w, t);
    s' := Checks(s0, s', w, t);
    if !s.store.StatusOf(t).Paused? {
      s' := Counts(s0, s', w, t);
      s' := PassesGate(s0, s', w, t);
    }
  }

  /** And comes to solve it, from the state saved for it. */
  lemma StartsSolving(s0: System, s: System, w: WorkerId, t: Task) returns (s': System)
    requires Reaches(Quietly(t), s0, s) && s.Get(w).pc.Idle? && t !in s.store.locks && !s.store.StatusOf(t).Finished?
    requires s.store.StatusOf(t).Paused? || s.store.Attempts(t) + 1 < MAX_ATTEMPTS
    ensures Leads(s0, s, s', w, s.Get(w).(pc := Waiting, task := t, loaded := s.store.SavedOf(t), body := Working, subscribed := true,
                                          done := false, acquired := s.Get(w).acquired + 1), s'.store, t)
    ensures s'.store.locks == s.store.locks + {t} && s'.store.saved == s.store.saved && s'.store.Attempts(t) <= s.store.Attempts(t) + 1
  {
    s' := PassesChecks(s0, s, w, t);
    s' := Loads(s0, s', w, t);
    s' := Announces(s0, s', w, t);
    s' := Starts(s0, s', w, t);
  }

  lemma EndsBody(s0: System, s: System, w: WorkerId, t: Task) returns (s': System)
    requires Reaches(Quietly(t), s0, s) && s.Get(w).body.Announced?
    ensures Leads(s0, s, s', w, s.Get(w).(body := NoBody, done := true), s.store, t)
  {
    s' := Take(s0, s, BodySetsDone(w), s.Get(w).(body := Working, done := true), s.store, t);
    s' := Take(s0, s', BodyEnds(w), s.Get(w).(body := NoBody, done := true), s.store, t);
  }

  lemma EndsWait(s0: System, s: System, w: WorkerId, t: Task) returns (s': System)
    requires Reaches(Quietly(t), s0, s) && s.Get(w).pc.Waiting? && s.Get(w).done
    ensures Leads(s0, s, s', w, s.Get(w).(pc := Destroying(false)), s.store, t)
  {
    s' := Take(s0, s, WaitEnds(w), s.Get(w).(pc := Destroying(false)), s.store, t);
  }

  lemma EndsSession(s0: System, s: System, w: WorkerId, t: Task) returns (s': System)
    requires Reaches(Quietly(t), s0, s) && s.Get(w).pc == Destroying(false) && s.Get(w).body.NoBody?
    ensures Leads(s0, s, s', w, s.Get(w).(pc := Unsubscribing), s.store, t)
  {
    s' := Take(s0, s, DestroySession(w), s.Get(w).(pc := Unsubscribing), s.store, t);
  }

  lemma Unsubscribes(s0: System, s: System, w: WorkerId, t: Task) returns (s': System)
    requires Reaches(Quietly(t), s0, s) && s.Get(w).pc.Unsubscribing?
    ensures Leads(s0, s, s', w, s.Get(w).(pc := Unlocking, subscribed := false), s.store, t)
  {
    s' := Take(s0, s, Unsubscribe(w), s.Get(w).(pc := Unlocking, subscribed := false), s.store, t);
  }

  lemma GivesBack(s0: System, s: System, w: WorkerId, t: Task) returns (s': System)
    requires Reaches(Quietly(t), s0, s) && s.Get(w).pc.Unlocking? && s.Get(w).task == t && s.Get(w).callback.Call?
    ensures Leads(s0, s, s', w, s.Get(w).(pc := Idle, released := s.Get(w).released + 1, callback := s.Get(w).callback.(late := true)),
                  s.store.(locks := s.store.locks - {t}), t)
  {
    var me := s.Get(w).(pc := Idle, released := s.Get(w).released + 1, callback := s.Get(w).callback.(late := true));
    s' := Take(s0, s, Unlock(w, false), me, s.store.(locks := s.store.locks - {t}), t);
  }

  /** A body that has announced its end ends, and its worker gives the lock back, whatever its listener does. */
  lemma LeavesTask(s0: System, s: System, w: WorkerId, t: Task) returns (s': System)
    requires Reaches(Quietly(t), s0, s) && s.Get(w).pc.Waiting? && s.Get(w).task == t && s.Get(w).body.Announced? && s.Get(w).callback.Call?
    ensures Leads(s0, s, s', w, s.Get(w).(pc := Idle, body := NoBody, subscribed := false, done := true,
                                          released := s.Get(w).released + 1, callback := s.Get(w).callback.(late := true)),
                  s.store.(locks := s.store.locks - {t}), t)
  {
    s' := EndsBody(s0, s, w, t);
    s' := EndsWait(s0, s', w, t);
    s' := EndsSession(s0, s', w, t);
    s' := Unsubscribes(s0, s', w, t);
    s' := GivesBack(s0, s', w, t);
  }

  /** A worker has locked a finished task, which no worker held, because of one more start message. */
  lemma DuplicateIsChecked(s: System, t: Task) returns (w: WorkerId, s': System)
    requires s.store.StatusOf(t).Finished? && t !in s.store.locks
    ensures Reaches(Quietly(t), s, s') && s'.store.StatusOf(t).Finished? && s'.Get(w).pc.CheckingFinished? && s'.Get(w).task == t
  {
    w := UnusedWorker(s.workers.Keys);
    Reflexive(Quietly(t), s);
    s' := Locks(s, s, w, t);
  }

  /** Then a failing check undoes FINISHED. */
  lemma FailingCheckUndoesFinished(s: System, t: Task)
    requires s.store.StatusOf(t).Finished? && t !in s.store.locks
    ensures exists s', w :: Reaches(Quietly(t), s, s') && s'.store.StatusOf(t).Finished? && s'.Get(w).task == t
              && Enabled(s', CheckFinished(w, true)) && CanOverwrite(Apply(s', CheckFinished(w, true)), t)
  {
    var w, s' := DuplicateIsChecked(s, t);
    ThrowingOverwrites(Apply(s', CheckFinished(w, true)), w, t);
  }

  /** And so does the unlock after a successful check, if it throws. */
  lemma ThrowingUnlockUndoesFinished(s: System, t: Task)
    requires s.store.StatusOf(t).Finished? && t !in s.store.locks
    ensures exists s', w :: Reaches(Quietly(t), s, s') && s'.store.StatusOf(t).Finished? && s'.Get(w).task == t
              && s'.Get(w).pc.EarlyUnlocking? && Enabled(s', Throw(w)) && CanOverwrite(Apply(s', Throw(w)), t)
  {
    var w, s1 := DuplicateIsChecked(s, t);
    var s' := Take(s, s1, CheckFinished(w, false), s1.Get(w).(pc := EarlyUnlocking), s1.store, t);
    FailingOverwrites(Apply(s', Throw(w)), w, t);
  }

  /** The body has sent FINISHED while its worker was about to send the heartbeat. */
  ghost predicate FinishedUnderHeartbeat(s: System, w: WorkerId, t: Task) {
    s.store.StatusOf(t).Finished? && s.Get(w).pc.Beating? && s.Get(w).task == t
  }

  lemma HeartbeatIsReached(t: Task) returns (s: System)
    ensures Reaches(Quietly(t), INITIAL, s) && FinishedUnderHeartbeat(s, 0, t)
  {
    Reflexive(Quietly(t), INITIAL);
    s := StartsSolving(INITIAL, INITIAL, 0, t);
    var me := s.Get(0).(pc := Beating);
    s := Take(INITIAL, s, WaitTimesOut(0), me, s.store, t);
    s := Take(INITIAL, s, BodySendsFinished(0, false), me.(body := Announced), s.store.(status := s.store.status[t := Finished]), t);
  }

  /** The heartbeat may come after the final solution: the first run of one worker leaves a finished task in progress. */
  lemma HeartbeatOverwritesFinished(t: Task)
    ensures exists s, s' ::
              && Reaches(Quietly(t), INITIAL, s) && FinishedUnderHeartbeat(s, 0, t)
              && Reaches(Quietly(t), s, s') && s'.store.StatusOf(t).InProgress?
  {
    var s := HeartbeatIsReached(t);
    Reflexive(Quietly(t), s);
    var s' := Take(s, s, Heartbeat(0, false), s.Get(0).(pc := Waiting), s.store.(status := s.store.status[t := InProgress]), t);
  }

  /** The task is finished, nobody holds its lock, and a late callback is about to send PAUSED. */
  ghost predicate FinishedUnderLatePause(s: System, w: WorkerId, t: Task) {
    && s.store.StatusOf(t).Finished? && t !in s.store.locks && (forall v :: !Holds(s, v, t))
    && s.Get(w).callback == Call(t, true, Copied, true)
  }

  lemma LatePauseIsReached(t: Task) returns (s: System)
    ensures Reaches(Quietly(t), INITIAL, s) && FinishedUnderLatePause(s, 0, t) && s.Get(1).pc.Idle?
  {
    Reflexive(Quietly(t), INITIAL);
    s := StartsSolving(INITIAL, INITIAL, 0, t);
    var me := s.Get(0).(callback := Call(t, true, Copied, false));
    s := Take(INITIAL, s, CopyCallback(0, true), me, s.store, t);
    s := Take(INITIAL, s, BodySendsFinished(0, false), me.(body := Announced), s.store.(status := s.store.status[t := Finished]), t);
    s := LeavesTask(INITIAL, s, 0, t);
    assert forall v :: v != 0 ==> s.Get(v) == NEW_WORKER;
  }

  /** A finished task that nobody holds any more is solved again because of a pause that was copied in time. */
  lemma LatePauseRerunsFinished(t: Task)
    ensures exists s, s' ::
              && Reaches(Quietly(t), INITIAL, s) && FinishedUnderLatePause(s, 0, t)
              && Reaches(Quietly(t), s, s') && s'.Get(1).body.Working? && s'.Get(1).task == t
  {
    var s := LatePauseIsReached(t);
    Reflexive(Quietly(t), s);
    var me := s.Get(0).(callback := Call(t, true, Flagged, true));
    var s' := Take(s, s, CallbackRaisesFlag(0), me, s.store, t);
    me := me.(callback := Call(t, true, Cleared, true));
    s' := Take(s, s', CallbackSends(0, false), me, s'.store.(status := s'.store.status[t := Paused]), t);
    s' := StartsSolving(s, s', 1, t);
  }
}
