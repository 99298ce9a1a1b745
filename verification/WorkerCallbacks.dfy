/** Which changes of saved states are made under the lock of their task, although callbacks can outlive it. */
module WorkerCallbacks {
  import opened Concepts
  import opened Runs
  import opened WorkerProtocol
  import opened WorkerAttempts
  import opened FinishedTasks

  /** The step changes saved states, and only that of the task. */
  ghost predicate ChangesSaved(s: System, step: Step, t: Task) {
    && Enabled(s, step)
    && Apply(s, step).store.saved != s.store.saved
    && Apply(s, step).store.saved - {t} == s.store.saved - {t}
  }

  /** The task whose saved state a step of a worker may change. */
  function SavedTask(me: Worker, step: Step): Task {
    if step.CallbackClears? && me.callback.Call? then me.callback.t else me.task
  }

  lemma SavedBy(store: Store, me: Worker, step: Step)
    requires StepEnabled(me, step) && Orderly(me) && SavedAfter(store, me, step) != store.saved
    ensures step.BodySavesState? || step.CallbackClears?
    ensures SavedAfter(store, me, step) - {SavedTask(me, step)} == store.saved - {SavedTask(me, step)}
    ensures (step.CallbackClears? && me.callback.late) || (me.pc.HoldsLock() && me.task == SavedTask(me, step))
  {
  }

  /** Only bodies and interrupt callbacks change saved states; all but late callbacks do so for the task whose lock they hold. */
  lemma SavedStatesChange(s: System, step: Step)
    requires Inv(s) && Enabled(s, step) && Apply(s, step).store.saved != s.store.saved
    ensures !step.ServerInterrupts? && (step.BodySavesState? || step.CallbackClears?)
    ensures var t := SavedTask(s.Get(step.w), step);
            ChangesSaved(s, step, t) && (Holds(s, step.w, t) || (step.CallbackClears? && s.Get(step.w).callback.late))
  {
    assert Disciplined(s.Get(step.w));
    SavedBy(s.store, s.Get(step.w), step);
  }

  /** A worker gives the lock back while an interrupt callback of its own still has the saved state to clear. */
  predicate UnlocksAhead(s: System, step: Step) {
    step.Unlock? && s.Get(step.w).callback.WillClear()
  }

  /** The runs in which that never happens. */
  function InOrder(s: System, step: Step): Option<System> {
    if Enabled(s, step) && !UnlocksAhead(s, step) then Some(Apply(s, step)) else None
  }

  ghost predicate NoLateClearing(s: System) {
    forall w :: s.Get(w).callback.WillClear() ==> !s.Get(w).callback.late
  }

  lemma LoopKeepsClearing(store: Store, me: Worker, step: Step)
    requires LoopEnabled(me, step)
    ensures LoopAfter(store, me, step).callback ==
              if step.Unlock? && me.callback.Call? then me.callback.(late := true) else me.callback
  {
  }

  lemma NoLateClearingKept(s: System, step: Step)
    requires NoLateClearing(s) && Enabled(s, step) && !UnlocksAhead(s, step)
    ensures NoLateClearing(Apply(s, step))
  {
    var s' := Apply(s, step);
    forall w | s'.Get(w).callback.WillClear() ensures !s'.Get(w).callback.late {
      if step.ServerInterrupts? || w != step.w {
        OthersKept(s, step, w);
      } else if !step.OfBody() && !step.OfListener() {
        LoopKeepsClearing(s.store, s.Get(w), step);
      }
    }
  }

  lemma {:induction false} InOrderRunsAreRuns(s: System, steps: seq<Step>, s': System)
    requires Inv(s) && NoLateClearing(s) && Run(InOrder, s, steps) == Some(s')
    ensures Inv(s') && NoLateClearing(s') && IsRun(s, steps, s')
    decreases |steps|
  {
    if steps != [] {
      InvKept(s, steps[0]);
      NoLateClearingKept(s, steps[0]);
      InOrderRunsAreRuns(Apply(s, steps[0]), steps[1..], s');
    }
  }

  /** As long as no worker unlocks ahead of its callback, every change of a saved state is made by the holder of its task's lock. */
  lemma SavedStatesChangeUnderLock(steps: seq<Step>, s: System, step: Step)
    requires Run(InOrder, INITIAL, steps) == Some(s) && Enabled(s, step) && Apply(s, step).store.saved != s.store.saved
    ensures exists t :: ChangesSaved(s, step, t) && !step.ServerInterrupts? && Holds(s, step.w, t) && t in s.store.locks
  {
    InitialInv();
    InOrderRunsAreRuns(INITIAL, steps, s);
    SavedStatesChange(s, step);
    var t := SavedTask(s.Get(step.w), step);
    assert ChangesSaved(s, step, t) && Holds(s, step.w, t);
  }

  /** A callback of w is about to clear the saved state of a task whose lock another worker holds. */
  ghost predicate ClearsBesideHolder(s: System, w: WorkerId, t: Task) {
    && Enabled(s, CallbackClears(w, false)) && s.Get(w).callback.t == t
    && exists v :: v != w && Holds(s, v, t)
  }

  ghost predicate CanClearBesideHolder(s: System, w: WorkerId, t: Task) {
    exists s' :: Reaches(Next, s, s') && ClearsBesideHolder(s', w, t)
  }

  lemma OneStepBefore(s: System, step: Step, w: WorkerId, t: Task)
    requires Enabled(s, step) && CanClearBesideHolder(Apply(s, step), w, t)
    ensures CanClearBesideHolder(s, w, t)
  {
    var s' :| Reaches(Next, Apply(s, step), s') && ClearsBesideHolder(s', w, t);
    OneStep(Next, s, step);
    Transitive(Next, s, Apply(s, step), s');
  }

  lemma NextHolderIsReached(s: System, w: WorkerId, t: Task)
    requires t !in s.store.locks && s.Get(w).callback.WillClear() && s.Get(w).callback.stage.Signalled? && s.Get(w).callback.t == t
    ensures CanClearBesideHolder(s, w, t)
  {
    var v, s' := FreeLockCanBeTaken(s, t);
    assert v != w && Holds(s', v, t);
  }

  /** Whenever a worker does unlock ahead of its callback, the clearing can come when another worker holds the lock. */
  lemma UnlockingAheadLosesOrder(s: System, w: WorkerId)
    requires Inv(s) && Enabled(s, Unlock(w, false)) && UnlocksAhead(s, Unlock(w, false)) && !s.Get(w).callback.late
    ensures CanClearBesideHolder(Apply(s, Unlock(w, false)), w, s.Get(w).task)
  {
    assert Disciplined(s.Get(w));
    LateCallbackLosesOrder(Apply(s, Unlock(w, false)), w, s.Get(w).task);
  }

  lemma {:induction false} LateCallbackLosesOrder(s: System, w: WorkerId, t: Task)
    requires t !in s.store.locks && s.Get(w).callback.WillClear() && s.Get(w).callback.t == t
    ensures CanClearBesideHolder(s, w, t)
    decreases CallsLeft(s.Get(w).callback)
  {
    var stage := s.Get(w).callback.stage;
    if stage.Signalled? {
      NextHolderIsReached(s, w, t);
    } else {
      LateCallbackLosesOrder(Apply(s, NextInCall(w, stage)), w, t);
      OneStepBefore(s, NextInCall(w, stage), w, t);
    }
  }

  /*---------- One call ----------*/

  function SendsFrom(w: WorkerId): (System, Step) -> bool {
    (s: System, step: Step) => step.CallbackSends? && step.w == w
  }

  function ClearsFrom(w: WorkerId): (System, Step) -> bool {
    (s: System, step: Step) => step.CallbackClears? && step.w == w
  }

  function ReturnsFrom(w: WorkerId): (System, Step) -> bool {
    (s: System, step: Step) => step.CallbackSetsDone? && step.w == w
  }

  /** An exception goes through the callback and ends the listener thread. */
  function BreaksOff(w: WorkerId): (System, Step) -> bool {
    (s: System, step: Step) => step.OfListener() && step.w == w && (step.CallbackThrows? || (step.CallbackSends? && step.lost))
  }

  /** How far a call has come, and what it has done. */
  ghost predicate InCall(callback: Callback, t: Task, pause: bool, sends: nat, clears: nat) {
    && callback.Call? && callback.t == t && callback.pause == pause
    && match callback.stage
       case Copied => sends == 0 && clears == 0
       case Flagged => sends == 0 && clears == 0
       case Signalled => sends == 1 && clears == 0 && !pause
       case Cleared => sends == 1 && clears == if pause then 0 else 1
  }

  lemma ListenerGoesOn(me: Worker, step: Step, t: Task, pause: bool, sends: nat, clears: nat)
    requires ListenerEnabled(me, step) && !step.CallbackSetsDone? && InCall(me.callback, t, pause, sends, clears)
    ensures var callback := ListenerAfter(me, step).callback;
            if step.CallbackThrows? || (step.CallbackSends? && step.lost) then callback.Down?
            else InCall(callback, t, pause, sends + (if step.CallbackSends? then 1 else 0), clears + if step.CallbackClears? then 1 else 0)
  {
  }

  /** Other steps do nothing to a callback but make it late. */
  lemma OthersKeepCallback(s: System, step: Step, w: WorkerId)
    requires Enabled(s, step) && !(step.OfListener() && step.w == w)
    ensures var callback := s.Get(w).callback;
            Apply(s, step).Get(w).callback in {callback, if callback.Call? then callback.(late := true) else callback}
  {
    if step.ServerInterrupts? || w != step.w {
      OthersKept(s, step, w);
    } else if !step.OfBody() {
      LoopKeepsClearing(s.store, s.Get(w), step);
    }
  }

  lemma OwnListenerStep(s: System, step: Step)
    requires Enabled(s, step) && step.OfListener()
    ensures ListenerEnabled(s.Get(step.w), step) && Apply(s, step).Get(step.w) == ListenerAfter(s.Get(step.w), step)
  {
  }

  lemma CallGoesOn(s: System, step: Step, w: WorkerId, t: Task, pause: bool, sends: nat, clears: nat)
    requires Enabled(s, step) && !ReturnsFrom(w)(s, step) && InCall(s.Get(w).callback, t, pause, sends, clears)
    ensures var callback := Apply(s, step).Get(w).callback;
            if BreaksOff(w)(s, step) then callback.Down?
            else InCall(callback, t, pause, sends + (if SendsFrom(w)(s, step) then 1 else 0), clears + if ClearsFrom(w)(s, step) then 1 else 0)
  {
    if step.OfListener() && step.w == w {
      OwnListenerStep(s, step);
      ListenerGoesOn(s.Get(w), step, t, pause, sends, clears);
    } else {
      OthersKeepCallback(s, step, w);
    }
  }

  lemma DownStep(s: System, step: Step, w: WorkerId)
    requires Enabled(s, step) && s.Get(w).callback.Down?
    ensures Apply(s, step).Get(w).callback.Down?
  {
    if !(step.OfListener() && step.w == w) { OthersKeepCallback(s, step, w); }
  }

  lemma {:induction false} DownForever(s: System, steps: seq<Step>, s': System, w: WorkerId)
    requires IsRun(s, steps, s') && s.Get(w).callback.Down?
    ensures s'.Get(w).callback.Down?
    decreases |steps|
  {
    if steps != [] {
      DownStep(s, steps[0], w);
      DownForever(Apply(s, steps[0]), steps[1..], s', w);
    }
  }

  lemma {:induction false} CallThroughout(s: System, steps: seq<Step>, s': System, w: WorkerId, t: Task, pause: bool, sends: nat, clears: nat)
    requires IsRun(s, steps, s') && Occurrences(s, steps, ReturnsFrom(w)) == 0
    requires InCall(s.Get(w).callback, t, pause, sends, clears)
    ensures if Occurrences(s, steps, BreaksOff(w)) == 0
            then InCall(s'.Get(w).callback, t, pause, sends + Occurrences(s, steps, SendsFrom(w)), clears + Occurrences(s, steps, ClearsFrom(w)))
            else s'.Get(w).callback.Down?
    decreases |steps|
  {
    if steps != [] {
      var s1 := Apply(s, steps[0]);
      CallGoesOn(s, steps[0], w, t, pause, sends, clears);
      if BreaksOff(w)(s, steps[0]) {
        DownForever(s1, steps[1..], s', w);
      } else {
        var send, clear := if SendsFrom(w)(s, steps[0]) then 1 else 0, if ClearsFrom(w)(s, steps[0]) then 1 else 0;
        CallThroughout(s1, steps[1..], s', w, t, pause, sends + send, clears + clear);
      }
    }
  }

  lemma CopyingBegins(s: System, w: WorkerId, pause: bool)
    requires Enabled(s, CopyCallback(w, pause))
    ensures Apply(s, CopyCallback(w, pause)).Get(w).callback == Call(s.Get(w).task, pause, Copied, false)
  {
  }

  /**
   A call is broken off, and its listener with it, exactly by an exception in it or by a lost answer. Otherwise, when
   it comes to its end, it has sent one status for the task it was copied for, and has cleared the saved state once if
   it was an interrupt, and not at all if it was a pause; that a clearing failed makes no difference.
   */
  lemma CallRunsThrough(s: System, w: WorkerId, pause: bool, s0: System, steps: seq<Step>, s': System)
    requires Enabled(s, CopyCallback(w, pause)) && s0 == Apply(s, CopyCallback(w, pause)) && IsRun(s0, steps, s')
    requires Occurrences(s0, steps, ReturnsFrom(w)) == 0
    ensures s'.Get(w).callback.Down? <==> 0 < Occurrences(s0, steps, BreaksOff(w))
    ensures !s'.Get(w).callback.Down? ==>
              var callback := s'.Get(w).callback;
              && callback.Call? && callback.t == s.Get(w).task && callback.pause == pause
              && (callback.stage.Cleared? ==>
                    Occurrences(s0, steps, SendsFrom(w)) == 1 && Occurrences(s0, steps, ClearsFrom(w)) == if pause then 0 else 1)
  {
    CopyingBegins(s, w, pause);
    CallThroughout(s0, steps, s', w, s.Get(w).task, pause, 0, 0);
  }

  /*---------- A run that loses a saved state ----------*/

  lemma InterruptIsCopied(t: Task) returns (s: System)
    ensures Reaches(Quietly(t), INITIAL, s) && s.Get(0).pc.Waiting? && s.Get(0).task == t && s.Get(0).body.Working?
    ensures s.Get(0).callback == Call(t, false, Copied, false) && s.store.Attempts(t) <= 1
    ensures forall v :: v != 0 ==> s.Get(v) == NEW_WORKER
  {
    Reflexive(Quietly(t), INITIAL);
    s := StartsSolving(INITIAL, INITIAL, 0, t);
    s := Take(INITIAL, s, CopyCallback(0, false), s.Get(0).(callback := Call(t, false, Copied, false)), s.store, t);
  }

  lemma InterruptedBodyFails(t: Task) returns (s: System)
    ensures Reaches(Quietly(t), INITIAL, s) && s.Get(0).pc.Waiting? && s.Get(0).task == t && s.Get(0).body.Announced?
    ensures s.Get(0).callback == Call(t, false, Flagged, false) && s.store.Attempts(t) <= 1
    ensures forall v :: v != 0 ==> s.Get(v) == NEW_WORKER
  {
    s := InterruptIsCopied(t);
    var me := s.Get(0).(callback := Call(t, false, Flagged, false));
    s := Take(INITIAL, s, CallbackRaisesFlag(0), me, s.store, t);
    s := Take(INITIAL, s, BodySendsError(0, false), me.(body := Announced), s.store.(status := s.store.status[t := Error]), t);
  }

  lemma LateClearingIsReached(t: Task) returns (s: System)
    ensures Reaches(Quietly(t), INITIAL, s) && s.Get(0).pc.Idle? && s.Get(1).pc.Idle? && t !in s.store.locks
    ensures s.Get(0).callback == Call(t, false, Signalled, true) && s.store.StatusOf(t).Interrupted? && s.store.Attempts(t) <= 1
  {
    s := InterruptedBodyFails(t);
    s := LeavesTask(INITIAL, s, 0, t);
    var me := s.Get(0).(callback := Call(t, false, Signalled, true));
    s := Take(INITIAL, s, CallbackSends(0, false), me, s.store.(status := s.store.status[t := Interrupted]), t);
  }

  lemma StateIsSavedBesideCallback(t: Task, state: SavedState) returns (s: System)
    ensures Reaches(Quietly(t), INITIAL, s) && s.Get(0).callback == Call(t, false, Signalled, true)
    ensures s.Get(1).body.Working? && s.Get(1).pc.Waiting? && s.Get(1).task == t && t in s.store.saved && s.store.saved[t] == state
  {
    s := LateClearingIsReached(t);
    s := StartsSolving(INITIAL, s, 1, t);
    s := Take(INITIAL, s, BodySavesState(1, state), s.Get(1), s.store.(saved := s.store.saved[t := state]), t);
  }

  /** A first run of two workers: the late callback of one removes the state that the other has saved under its lock. */
  lemma LateCallbackLosesSavedState(t: Task, state: SavedState)
    ensures exists s ::
              && Reaches(Quietly(t), INITIAL, s) && ClearsBesideHolder(s, 0, t) && s.Get(1).body.Working? && Holds(s, 1, t)
              && t in s.store.saved && s.store.saved[t] == state && t !in Apply(s, CallbackClears(0, false)).store.saved
  {
    var s := StateIsSavedBesideCallback(t, state);
    assert Holds(s, 1, t);
    assert t !in Apply(s, CallbackClears(0, false)).store.saved;
  }
}
