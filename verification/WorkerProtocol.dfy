/**
 The tsp workers as a step system: any number of workers take start messages, duplicates included,
 for any number of tasks and coordinate through keys of one shared store. Each worker has a listener
 thread that calls a copy of the worker's callback, which unsubscribing does not wait for.
 */
module WorkerProtocol {
  import opened Concepts
  import opened Runs
  import TwoOptSession

  type Task = string
  type WorkerId = nat
  type SavedState = TwoOptSession.StateDto

  /** A run that has loaded nothing starts with an empty container. */
  const NO_STATE: SavedState := TwoOptSession.EMPTY_DTO

  const MAX_ATTEMPTS: nat := 5

  /** The last status written for a task, if any. */
  datatype Status = NoStatus | Started | InProgress | Finished | Paused | Interrupted | Error

  /** Where a worker is in its loop, and, once it has a task, for which one. */
  datatype Pc =
    | Idle
    | Locking
    | CheckingFinished
    | CheckingPaused
    | Counting
    | Gate(attempts: nat)
    | Preparing
    | Loaded
    | Starting
    | Subscribing
    | Waiting
    | Beating
    | Destroying(failed: bool)
    | Failing
    | Unsubscribing
    | Unlocking
    | EarlyUnlocking
  {
    /** Between a successful tryLock and the unlock that answers it. */
    predicate HoldsLock() {
      !Idle? && !Locking?
    }

    /** The session object is alive; its task body may be running. */
    predicate HasSession() {
      Subscribing? || Waiting? || Beating? || Destroying?
    }

    /** The callback is registered from the subscription on; an error before leaves it unregistered. */
    predicate IsSubscribed() {
      Waiting? || Beating? || Destroying?
    }

    predicate MayBeSubscribed() {
      IsSubscribed() || Failing? || Unsubscribing?
    }

    /** A call that may throw comes next; the early unlock stands inside the same try block. */
    predicate MayThrow() {
      CheckingFinished? || CheckingPaused? || Counting? || Preparing? || Loaded? || Starting? || Beating? || EarlyUnlocking?
    }
  }

  /** The asynchronous body of the session; Announced has written a last status and not yet set done. */
  datatype BodyPc = NoBody | Working | Announced

  datatype Stage = Copied | Flagged | Signalled | Cleared

  /**
   What the listener thread does: nothing, the call of a callback copied for a task, or, after an
   exception in a callback, nothing ever again. A late callback has outlived the lock it began under.
   */
  datatype Callback = NoCall | Call(t: Task, pause: bool, stage: Stage, late: bool) | Down {
    predicate WillWrite() {
      Call? && (stage.Copied? || stage.Flagged?)
    }

    predicate WillClear() {
      Call? && !stage.Cleared? && (stage.Signalled? || !pause)
    }
  }

  /**
   A worker counts the locks it has acquired and the unlocks that have come back; done ends its wait,
   and loaded is the saved state its session starts from.
   */
  datatype Worker = Worker(pc: Pc, task: Task, loaded: SavedState, body: BodyPc, subscribed: bool, done: bool,
                           callback: Callback, acquired: nat, released: nat)

  const NEW_WORKER := Worker(Idle, "", NO_STATE, NoBody, false, false, NoCall, 0, 0)

  /** passes counts how often the attempts gate has let a task through. */
  datatype Store = Store(locks: set<Task>, status: map<Task, Status>, attempts: map<Task, nat>, passes: map<Task, nat>,
                         saved: map<Task, SavedState>)
  {
    function StatusOf(t: Task): Status {
      if t in status then status[t] else NoStatus
    }

    function Attempts(t: Task): nat {
      if t in attempts then attempts[t] else 0
    }

    function Passes(t: Task): nat {
      if t in passes then passes[t] else 0
    }

    function SavedOf(t: Task): SavedState {
      if t in saved then saved[t] else NO_STATE
    }
  }

  /** Every worker id has a worker; those not in the map have not done anything yet. */
  datatype System = System(workers: map<WorkerId, Worker>, store: Store) {
    function Get(w: WorkerId): Worker {
      if w in workers then workers[w] else NEW_WORKER
    }

    function Put(w: WorkerId, worker: Worker, store': Store): System {
      System(workers[w := worker], store')
    }
  }

  const INITIAL := System(map[], Store({}, map[], map[], map[], map[]))

  /** A command is carried out and answered, not carried out, or carried out with its answer lost. */
  datatype Outcome = Answered | Refused | ReplyLost

  /**
   A failed read is taken for an absent key; a refused write throws, and so does one whose answer is lost.
   Throw is an exception before anything has been carried out.
   */
  datatype Step =
    | Receive(w: WorkerId, t: Task)
    | TryLock(w: WorkerId, outcome: Outcome)
    | CheckFinished(w: WorkerId, failed: bool)
    | CheckPaused(w: WorkerId, failed: bool)
    | Count(w: WorkerId, replyLost: bool)
    | PassGate(w: WorkerId)
    | LoadState(w: WorkerId, failed: bool)
    | SendStarted(w: WorkerId, lost: bool)
    | StartSession(w: WorkerId)
    | Subscribe(w: WorkerId)
    | WaitTimesOut(w: WorkerId)
    | Heartbeat(w: WorkerId, lost: bool)
    | WaitEnds(w: WorkerId)
    | DestroySession(w: WorkerId)
    | Throw(w: WorkerId)
    | HandleError(w: WorkerId)
    | Unsubscribe(w: WorkerId)
    | Unlock(w: WorkerId, failed: bool)
    | BodySendsFinished(w: WorkerId, lost: bool)
    | BodySendsError(w: WorkerId, lost: bool)
    | BodySetsDone(w: WorkerId)
    | BodySavesState(w: WorkerId, state: SavedState)
    | BodyEnds(w: WorkerId)
    | CopyCallback(w: WorkerId, pause: bool)
    | CallbackRaisesFlag(w: WorkerId)
    | CallbackSends(w: WorkerId, lost: bool)
    | CallbackThrows(w: WorkerId)
    | CallbackClears(w: WorkerId, failed: bool)
    | CallbackSetsDone(w: WorkerId)
    | ServerInterrupts(t: Task)
  {
    predicate OfBody() {
      BodySendsFinished? || BodySendsError? || BodySetsDone? || BodySavesState? || BodyEnds?
    }

    predicate OfListener() {
      CopyCallback? || CallbackRaisesFlag? || CallbackSends? || CallbackThrows? || CallbackClears? || CallbackSetsDone?
    }
  }

  predicate LoopEnabled(me: Worker, step: Step) {
    match step
    case Receive(w, t) => me.pc.Idle?
    case TryLock(w, outcome) => me.pc.Locking?
    case CheckFinished(w, failed) => me.pc.CheckingFinished?
    case CheckPaused(w, failed) => me.pc.CheckingPaused?
    case Count(w, replyLost) => me.pc.Counting?
    case PassGate(w) => me.pc.Gate?
    case LoadState(w, failed) => me.pc.Preparing?
    case SendStarted(w, lost) => me.pc.Loaded?
    case StartSession(w) => me.pc.Starting?
    case Subscribe(w) => me.pc.Subscribing?
    case WaitTimesOut(w) => me.pc.Waiting? && !me.done
    case Heartbeat(w, lost) => me.pc.Beating?
    case WaitEnds(w) => me.pc.Waiting? && me.done
    // The destructor of the session waits for the task body.
    case DestroySession(w) => me.pc.Destroying? && me.body.NoBody?
    case Throw(w) => me.pc.MayThrow()
    case HandleError(w) => me.pc.Failing?
    case Unsubscribe(w) => me.pc.Unsubscribing?
    case Unlock(w, failed) => me.pc.Unlocking? || me.pc.EarlyUnlocking?
    case _ => false
  }

  predicate BodyEnabled(me: Worker, step: Step) {
    if step.BodySetsDone? then me.body.Announced? else me.body.Working?
  }

  predicate ListenerEnabled(me: Worker, step: Step) {
    match step
    case CopyCallback(w, pause) => me.subscribed && me.callback.NoCall?
    case CallbackRaisesFlag(w) => me.callback.Call? && me.callback.stage.Copied?
    case CallbackSends(w, lost) => me.callback.Call? && me.callback.stage.Flagged?
    case CallbackThrows(w) => me.callback.Call? && (me.callback.stage.Flagged? || me.callback.stage.Signalled?)
    case CallbackClears(w, failed) => me.callback.Call? && me.callback.stage.Signalled?
    case CallbackSetsDone(w) => me.callback.Call? && me.callback.stage.Cleared?
    case _ => false
  }

  function LoopAfter(store: Store, me: Worker, step: Step): Worker
    requires LoopEnabled(me, step)
  {
    match step
    case Receive(w, t) => me.(pc := Locking, task := t, loaded := NO_STATE, done := false)
    case TryLock(w, outcome) =>
      if outcome.Answered? && me.task !in store.locks then me.(pc := CheckingFinished, acquired := me.acquired + 1)
      else me.(pc := Idle)
    case CheckFinished(w, failed) => me.(pc := if !failed && store.StatusOf(me.task).Finished? then EarlyUnlocking else CheckingPaused)
    case CheckPaused(w, failed) => me.(pc := if !failed && store.StatusOf(me.task).Paused? then Preparing else Counting)
    case Count(w, replyLost) => me.(pc := if replyLost then Failing else Gate(store.Attempts(me.task) + 1))
    case PassGate(w) => me.(pc := if MAX_ATTEMPTS <= me.pc.attempts then EarlyUnlocking else Preparing)
    case LoadState(w, failed) => me.(pc := Loaded, loaded := if failed then NO_STATE else store.SavedOf(me.task))
    case SendStarted(w, lost) => me.(pc := if lost then Failing else Starting)
    case StartSession(w) => me.(pc := Subscribing, body := Working)
    case Subscribe(w) => me.(pc := Waiting, subscribed := true)
    case WaitTimesOut(w) => me.(pc := Beating)
    case Heartbeat(w, lost) => me.(pc := if lost then Destroying(true) else Waiting)
    case WaitEnds(w) => me.(pc := Destroying(false))
    case DestroySession(w) => me.(pc := if me.pc.failed then Failing else Unsubscribing)
    case Throw(w) => me.(pc := if me.pc.Beating? then Destroying(true) else Failing)
    case HandleError(w) => me.(pc := Unsubscribing)
    case Unsubscribe(w) => me.(pc := Unlocking, subscribed := false)
    case Unlock(w, failed) =>
      me.(pc := Idle, released := me.released + 1, callback := if me.callback.Call? then me.callback.(late := true) else me.callback)
  }

  function BodyAfter(me: Worker, step: Step): Worker
    requires step.OfBody() && BodyEnabled(me, step)
  {
    match step
    case BodySendsFinished(w, lost) => me.(body := if lost then Working else Announced)
    case BodySendsError(w, lost) => me.(body := if lost then Working else Announced)
    case BodySetsDone(w) => me.(body := Working, done := true)
    case BodySavesState(w, state) => me
    case BodyEnds(w) => me.(body := NoBody)
  }

  /** A late callback's done belongs to a turn of the loop that is over. */
  function ListenerAfter(me: Worker, step: Step): Worker
    requires ListenerEnabled(me, step)
  {
    match step
    case CopyCallback(w, pause) => me.(callback := Call(me.task, pause, Copied, false))
    case CallbackRaisesFlag(w) => me.(callback := me.callback.(stage := Flagged))
    case CallbackSends(w, lost) =>
      me.(callback := if lost then Down else me.callback.(stage := if me.callback.pause then Cleared else Signalled))
    case CallbackThrows(w) => me.(callback := Down)
    case CallbackClears(w, failed) => me.(callback := me.callback.(stage := Cleared))
    case CallbackSetsDone(w) => me.(callback := NoCall, done := me.done || !me.callback.late)
  }

  predicate StepEnabled(me: Worker, step: Step) {
    if step.OfBody() then BodyEnabled(me, step)
    else if step.OfListener() then ListenerEnabled(me, step)
    else LoopEnabled(me, step)
  }

  /** What a step makes of the worker that takes it. */
  function WorkerAfter(store: Store, me: Worker, step: Step): Worker
    requires StepEnabled(me, step)
  {
    if step.OfBody() then BodyAfter(me, step)
    else if step.OfListener() then ListenerAfter(me, step)
    else LoopAfter(store, me, step)
  }

  function LocksAfter(store: Store, me: Worker, step: Step): set<Task> {
    if step.TryLock? && !step.outcome.Refused? then store.locks + {me.task}
    else if step.Unlock? && !step.failed then store.locks - {me.task}
    else store.locks
  }

  predicate WritesStatus(step: Step) {
    step.SendStarted? || step.Heartbeat? || step.HandleError? || step.BodySendsFinished? || step.BodySendsError? || step.CallbackSends?
  }

  /** The task whose status the step writes. */
  function WrittenTask(me: Worker, step: Step): Task
    requires StepEnabled(me, step)
  {
    if step.CallbackSends? then me.callback.t else me.task
  }

  function WrittenStatus(me: Worker, step: Step): Status
    requires StepEnabled(me, step) && WritesStatus(step)
  {
    if step.SendStarted? then Started
    else if step.Heartbeat? then InProgress
    else if step.BodySendsFinished? then Finished
    else if step.HandleError? || step.BodySendsError? then Error
    else if me.callback.pause then Paused
    else Interrupted
  }

  function StatusAfter(store: Store, me: Worker, step: Step): map<Task, Status>
    requires StepEnabled(me, step)
  {
    if WritesStatus(step) then store.status[WrittenTask(me, step) := WrittenStatus(me, step)] else store.status
  }

  function AttemptsAfter(store: Store, me: Worker, step: Step): map<Task, nat> {
    if step.Count? then store.attempts[me.task := store.Attempts(me.task) + 1] else store.attempts
  }

  /** The attempts gate lets the task through. */
  predicate LetsThrough(me: Worker, step: Step) {
    step.PassGate? && me.pc.Gate? && me.pc.attempts < MAX_ATTEMPTS
  }

  function PassesAfter(store: Store, me: Worker, step: Step): map<Task, nat> {
    if LetsThrough(me, step) then store.passes[me.task := store.Passes(me.task) + 1] else store.passes
  }

  function SavedAfter(store: Store, me: Worker, step: Step): map<Task, SavedState>
    requires StepEnabled(me, step)
  {
    if step.BodySavesState? then store.saved[me.task := step.state]
    else if step.CallbackClears? && !step.failed then store.saved - {me.callback.t}
    else store.saved
  }

  /** What a step of a worker makes of the store. */
  function StoreAfter(store: Store, me: Worker, step: Step): Store
    requires StepEnabled(me, step)
  {
    Store(LocksAfter(store, me, step), StatusAfter(store, me, step), AttemptsAfter(store, me, step),
          PassesAfter(store, me, step), SavedAfter(store, me, step))
  }

  predicate Enabled(s: System, step: Step) {
    step.ServerInterrupts? || StepEnabled(s.Get(step.w), step)
  }

  function Apply(s: System, step: Step): System
    requires Enabled(s, step)
  {
    if step.ServerInterrupts? then System(s.workers, s.store.(status := s.store.status[step.t := Interrupted]))
    else var me := s.Get(step.w); s.Put(step.w, WorkerAfter(s.store, me, step), StoreAfter(s.store, me, step))
  }

  function Next(s: System, step: Step): Option<System> {
    if Enabled(s, step) then Some(Apply(s, step)) else None
  }

  ghost predicate IsRun(s: System, steps: seq<Step>, s': System) {
    Run(Next, s, steps) == Some(s')
  }

  /*---------- The invariant ----------*/

  ghost predicate Holds(s: System, w: WorkerId, t: Task) {
    s.Get(w).pc.HoldsLock() && s.Get(w).task == t
  }

  /** Who holds a task's lock is alone in it, and the lock is taken. */
  ghost predicate Exclusive(s: System) {
    && (forall w, w', t :: Holds(s, w, t) && Holds(s, w', t) ==> w == w')
    && (forall w, t :: Holds(s, w, t) ==> t in s.store.locks)
  }

  /** Acquires and releases match. */
  ghost predicate Balanced(worker: Worker) {
    worker.acquired == worker.released + (if worker.pc.HoldsLock() then 1 else 0)
  }

  /** Bodies run in living sessions and callbacks are copied while subscribed. */
  ghost predicate Orderly(worker: Worker) {
    && (!worker.body.NoBody? ==> worker.pc.HasSession())
    && (worker.pc.IsSubscribed() ==> worker.subscribed)
    && (worker.subscribed ==> worker.pc.MayBeSubscribed())
    && (worker.callback.Call? && !worker.callback.late ==> worker.pc.HoldsLock() && worker.callback.t == worker.task)
  }

  ghost predicate Disciplined(worker: Worker) {
    Balanced(worker) && Orderly(worker)
  }

  ghost predicate PassingNow(s: System, w: WorkerId, t: Task) {
    Holds(s, w, t) && s.Get(w).pc.Gate? && s.Get(w).pc.attempts < MAX_ATTEMPTS
  }

  /** Every pass has used up one of the first attempts, and so has the worker just now at the gate. */
  ghost predicate Gated(s: System, t: Task) {
    && s.store.Passes(t) <= s.store.Attempts(t) && s.store.Passes(t) < MAX_ATTEMPTS
    && forall w :: PassingNow(s, w, t) ==> s.store.Passes(t) < s.store.Attempts(t) && s.store.Passes(t) < MAX_ATTEMPTS - 1
  }

  ghost predicate Inv(s: System) {
    Exclusive(s) && (forall w :: Disciplined(s.Get(w))) && (forall t :: Gated(s, t))
  }

  lemma OthersKept(s: System, step: Step, w: WorkerId)
    requires Enabled(s, step) && (step.ServerInterrupts? || w != step.w)
    ensures Apply(s, step).Get(w) == s.Get(w)
  {
  }

  lemma LoopStaysBalanced(store: Store, me: Worker, step: Step)
    requires LoopEnabled(me, step) && Balanced(me)
    ensures Balanced(LoopAfter(store, me, step))
  {
  }

  lemma LoopStaysOrderlyBefore(store: Store, me: Worker, step: Step)
    requires LoopEnabled(me, step) && Orderly(me) && !me.pc.HasSession()
    ensures Orderly(LoopAfter(store, me, step))
  {
  }

  lemma LoopStaysOrderlyDuring(store: Store, me: Worker, step: Step)
    requires LoopEnabled(me, step) && Orderly(me) && me.pc.HasSession()
    ensures Orderly(LoopAfter(store, me, step))
  {
  }

  lemma ListenerStaysDisciplined(me: Worker, step: Step)
    requires ListenerEnabled(me, step) && Disciplined(me)
    ensures Disciplined(ListenerAfter(me, step))
  {
  }

  lemma BodyStaysDisciplined(me: Worker, step: Step)
    requires step.OfBody() && BodyEnabled(me, step) && Disciplined(me)
    ensures Disciplined(BodyAfter(me, step))
  {
  }

  lemma DisciplineKept(s: System, step: Step, w: WorkerId)
    requires Enabled(s, step) && forall v :: Disciplined(s.Get(v))
    ensures Disciplined(Apply(s, step).Get(w))
  {
    if step.ServerInterrupts? || w != step.w {
      OthersKept(s, step, w);
    } else {
      var me := s.Get(w);
      if step.OfBody() {
        BodyStaysDisciplined(me, step);
      } else if step.OfListener() {
        ListenerStaysDisciplined(me, step);
      } else {
        LoopStaysBalanced(s.store, me, step);
        if me.pc.HasSession() { LoopStaysOrderlyDuring(s.store, me, step); } else { LoopStaysOrderlyBefore(s.store, me, step); }
      }
    }
  }

  lemma LoopKeepsHolding(store: Store, me: Worker, step: Step)
    requires LoopEnabled(me, step) && !step.TryLock? && !step.Unlock? && !step.Receive?
    ensures LoopAfter(store, me, step).task == me.task
    ensures me.pc.HoldsLock() && LoopAfter(store, me, step).pc.HoldsLock()
  {
  }

  lemma OthersKeepHolding(store: Store, me: Worker, step: Step)
    requires StepEnabled(me, step) && (step.OfBody() || step.OfListener())
    ensures WorkerAfter(store, me, step).task == me.task && WorkerAfter(store, me, step).pc == me.pc
  {
  }

  /** Only taking and giving back the lock changes who holds what. */
  lemma HoldingKept(s: System, step: Step, w: WorkerId, t: Task)
    requires Enabled(s, step) && !step.TryLock? && !step.Unlock?
    ensures Holds(Apply(s, step), w, t) <==> Holds(s, w, t)
  {
    if step.ServerInterrupts? || w != step.w {
      OthersKept(s, step, w);
    } else if step.OfBody() || step.OfListener() {
      OthersKeepHolding(s.store, s.Get(w), step);
    } else if !step.Receive? {
      LoopKeepsHolding(s.store, s.Get(w), step);
    }
  }

  lemma TryLockKeepsExclusive(s: System, v: WorkerId, outcome: Outcome)
    requires Exclusive(s) && Enabled(s, TryLock(v, outcome))
    ensures Exclusive(Apply(s, TryLock(v, outcome)))
    ensures forall w, t :: Holds(Apply(s, TryLock(v, outcome)), w, t) <==>
              Holds(s, w, t) || (outcome.Answered? && w == v && t == s.Get(v).task && t !in s.store.locks)
  {
    var s', mine := Apply(s, TryLock(v, outcome)), s.Get(v).task;
    forall w, t ensures Holds(s', w, t) <==> Holds(s, w, t) || (outcome.Answered? && w == v && t == mine && mine !in s.store.locks) {}
  }

  lemma UnlockKeepsExclusive(s: System, v: WorkerId, failed: bool)
    requires Exclusive(s) && Enabled(s, Unlock(v, failed))
    ensures Exclusive(Apply(s, Unlock(v, failed)))
    ensures forall w, t :: Holds(Apply(s, Unlock(v, failed)), w, t) <==> Holds(s, w, t) && w != v
  {
    var s', mine := Apply(s, Unlock(v, failed)), s.Get(v).task;
    assert Holds(s, v, mine);
    forall w, t ensures Holds(s', w, t) <==> Holds(s, w, t) && w != v {}
    forall w, t | Holds(s', w, t) ensures t in s'.store.locks {
      assert Holds(s, w, t) && t != mine;
    }
  }

  lemma ExclusiveKept(s: System, step: Step)
    requires Exclusive(s) && Enabled(s, step)
    ensures Exclusive(Apply(s, step))
  {
    if step.TryLock? {
      TryLockKeepsExclusive(s, step.w, step.outcome);
    } else if step.Unlock? {
      UnlockKeepsExclusive(s, step.w, step.failed);
    } else {
      var s' := Apply(s, step);
      forall w, t ensures Holds(s', w, t) <==> Holds(s, w, t) {
        HoldingKept(s, step, w, t);
      }
    }
  }

  lemma CountKeepsGate(s: System, v: WorkerId, replyLost: bool, t: Task)
    requires Inv(s) && Enabled(s, Count(v, replyLost))
    ensures Gated(Apply(s, Count(v, replyLost)), t)
  {
    var s' := Apply(s, Count(v, replyLost));
    assert Gated(s, t) && Holds(s, v, s.Get(v).task);
    forall w | PassingNow(s', w, t) ensures s'.store.Passes(t) < s'.store.Attempts(t) && s'.store.Passes(t) < MAX_ATTEMPTS - 1 {
      if w != v { assert PassingNow(s, w, t); }
    }
  }

  lemma PassKeepsGate(s: System, v: WorkerId, t: Task)
    requires Inv(s) && Enabled(s, PassGate(v))
    ensures Gated(Apply(s, PassGate(v)), t)
  {
    var s', mine := Apply(s, PassGate(v)), s.Get(v).task;
    assert Gated(s, t) && Holds(s, v, mine);
    if s.Get(v).pc.attempts < MAX_ATTEMPTS { assert PassingNow(s, v, mine); }
    forall w | PassingNow(s', w, t) ensures s'.store.Passes(t) < s'.store.Attempts(t) && s'.store.Passes(t) < MAX_ATTEMPTS - 1 {
      assert w != v && PassingNow(s, w, t);
      assert !(t == mine && Holds(s, w, t) && Holds(s, v, t));
    }
  }

  lemma OnlyCountingReachesGate(store: Store, me: Worker, step: Step)
    requires LoopEnabled(me, step) && !step.Count?
    ensures !LoopAfter(store, me, step).pc.Gate?
  {
  }

  lemma OtherStepsKeepGate(s: System, step: Step, t: Task)
    requires Gated(s, t) && Enabled(s, step) && !step.Count? && !step.PassGate?
    ensures Gated(Apply(s, step), t)
  {
    var s' := Apply(s, step);
    forall w | PassingNow(s', w, t) ensures PassingNow(s, w, t) {
      if step.ServerInterrupts? || w != step.w {
        OthersKept(s, step, w);
      } else if step.OfBody() || step.OfListener() {
        OthersKeepHolding(s.store, s.Get(w), step);
      } else {
        OnlyCountingReachesGate(s.store, s.Get(w), step);
      }
    }
  }

  lemma GateKept(s: System, step: Step, t: Task)
    requires Inv(s) && Enabled(s, step)
    ensures Gated(Apply(s, step), t)
  {
    if step.Count? {
      CountKeepsGate(s, step.w, step.replyLost, t);
    } else if step.PassGate? {
      PassKeepsGate(s, step.w, t);
    } else {
      OtherStepsKeepGate(s, step, t);
    }
  }

  lemma InvKept(s: System, step: Step)
    requires Inv(s) && Enabled(s, step)
    ensures Inv(Apply(s, step))
  {
    ExclusiveKept(s, step);
    forall w ensures Disciplined(Apply(s, step).Get(w)) { DisciplineKept(s, step, w); }
    forall t ensures Gated(Apply(s, step), t) { GateKept(s, step, t); }
  }

  lemma {:induction false} InvHoldsThroughout(s: System, steps: seq<Step>, s': System)
    requires Inv(s) && IsRun(s, steps, s')
    ensures Inv(s')
    decreases |steps|
  {
    if steps != [] {
      InvKept(s, steps[0]);
      InvHoldsThroughout(Apply(s, steps[0]), steps[1..], s');
    }
  }

  lemma InitialInv()
    ensures Inv(INITIAL)
  {
    assert forall w :: INITIAL.Get(w) == NEW_WORKER;
  }

  lemma Reachable(steps: seq<Step>, s: System)
    requires IsRun(INITIAL, steps, s)
    ensures Inv(s)
  {
    InitialInv();
    InvHoldsThroughout(INITIAL, steps, s);
  }

  /*---------- The lock ----------*/

  /** A task is solved, and its control signals are taken in, only by the one worker that holds its lock. */
  lemma SolvingOnlyUnderLock(steps: seq<Step>, s: System, w: WorkerId)
    requires IsRun(INITIAL, steps, s) && (!s.Get(w).body.NoBody? || s.Get(w).subscribed)
    ensures s.Get(w).task in s.store.locks
    ensures forall v :: Holds(s, v, s.Get(w).task) <==> v == w
  {
    Reachable(steps, s);
    assert Disciplined(s.Get(w));
    assert Holds(s, w, s.Get(w).task);
  }

  /**
   Every acquired lock is answered by one unlock that comes back, also where an early unlock has thrown before: a
   worker waiting for its next task has had as many of them as it has acquired locks.
   */
  lemma EveryAcquireIsReleased(steps: seq<Step>, s: System, w: WorkerId)
    requires IsRun(INITIAL, steps, s)
    ensures s.Get(w).released <= s.Get(w).acquired <= s.Get(w).released + 1
    ensures s.Get(w).pc.Idle? ==> s.Get(w).acquired == s.Get(w).released
  {
    Reachable(steps, s);
    assert Disciplined(s.Get(w));
  }

  /** The lock is taken and nobody holds it. */
  ghost predicate Orphaned(s: System, t: Task) {
    t in s.store.locks && forall w :: !Holds(s, w, t)
  }

  /** An acquire whose reply is lost, or a release that is not carried out. */
  predicate LosesLock(s: System, step: Step, t: Task) {
    || (step.TryLock? && step.outcome.ReplyLost? && s.Get(step.w).task == t && t !in s.store.locks)
    || (step.Unlock? && step.failed && s.Get(step.w).task == t)
  }

  /** Only a lost acquire or release leaves a lock without a holder, and then it stays without one. */
  lemma OrphanedIff(s: System, step: Step, t: Task)
    requires Exclusive(s) && Enabled(s, step)
    ensures Orphaned(Apply(s, step), t) <==> Orphaned(s, t) || LosesLock(s, step, t)
  {
    var s' := Apply(s, step);
    if step.TryLock? {
      TryLockKeepsExclusive(s, step.w, step.outcome);
      forall v | Holds(s, v, t) ensures Holds(s', v, t) {}
      if step.outcome.Answered? && s.Get(step.w).task == t && t !in s.store.locks { assert Holds(s', step.w, t); }
    } else if step.Unlock? {
      UnlockKeepsExclusive(s, step.w, step.failed);
      assert Holds(s, step.w, s.Get(step.w).task);
      if Orphaned(s', t) && !Orphaned(s, t) {
        var v :| Holds(s, v, t);
        assert v != step.w ==> Holds(s', v, t);
      }
    } else {
      forall w ensures Holds(s', w, t) <==> Holds(s, w, t) { HoldingKept(s, step, w, t); }
    }
  }

  lemma {:induction false} OrphanedForever(s: System, steps: seq<Step>, s': System, t: Task)
    requires Inv(s) && Orphaned(s, t) && IsRun(s, steps, s')
    ensures Orphaned(s', t)
    decreases |steps|
  {
    if steps != [] {
      OrphanedIff(s, steps[0], t);
      InvKept(s, steps[0]);
      OrphanedForever(Apply(s, steps[0]), steps[1..], s', t);
    }
  }

  /** Some run, the empty one included, ends with the task in somebody's hands. */
  ghost predicate CanBeHeld(s: System, t: Task) {
    exists s', w :: Reaches(Next, s, s') && Holds(s', w, t)
  }

  /** One lost reply is enough: a first run of one worker after which nobody can ever get the task. */
  lemma LostReplyOrphansLock(t: Task)
    ensures exists s :: Reaches(Next, INITIAL, s) && Orphaned(s, t)
  {
    var s1 := Apply(INITIAL, Receive(0, t));
    OneStep(Next, INITIAL, Receive(0, t));
    Then(Next, INITIAL, s1, TryLock(0, ReplyLost));
    assert Orphaned(Apply(s1, TryLock(0, ReplyLost)), t);
  }

  lemma FreeLockCanBeTaken(s: System, t: Task) returns (v: WorkerId, s': System)
    requires t !in s.store.locks
    ensures Reaches(Next, s, s') && Holds(s', v, t)
    ensures v !in s.workers && forall w :: w != v ==> s'.Get(w) == s.Get(w)
  {
    v := UnusedWorker(s.workers.Keys);
    var s1 := Apply(s, Receive(v, t));
    OneStep(Next, s, Receive(v, t));
    Then(Next, s, s1, TryLock(v, Answered));
    s' := Apply(s1, TryLock(v, Answered));
  }

  /** A task is lost to all workers exactly when its lock is an orphan. */
  lemma CanBeHeldIff(s: System, t: Task)
    requires Inv(s)
    ensures CanBeHeld(s, t) <==> !Orphaned(s, t)
  {
    if Orphaned(s, t) {
      forall s', w | Reaches(Next, s, s') ensures !Holds(s', w, t) {
        var steps: seq<Step> :| Run(Next, s, steps) == Some(s');
        OrphanedForever(s, steps, s', t);
      }
    } else if t in s.store.locks {
      var w :| Holds(s, w, t);
      Reflexive(Next, s);
    } else {
      var v, s' := FreeLockCanBeTaken(s, t);
    }
  }

  lemma {:induction false} UnusedWorker(used: set<WorkerId>) returns (w: WorkerId)
    ensures w !in used && forall v :: v in used ==> v < w
    decreases |used|
  {
    if used == {} {
      w := 0;
    } else {
      var v :| v in used;
      w := UnusedWorker(used - {v});
      w := if w <= v then v + 1 else w;
      assert forall other :: other in used ==> other == v || other in used - {v};
    }
  }
}
