/**
 The 2-opt algorithm as the solution controller runs it: it resumes from a checkpoint, publishes
 what it finds, notices interrupts at two places and saves a checkpoint at one of them.
 */
module TwoOptSession {
  import opened Concepts
  import opened Tours
  import opened TwoOptSearch

  /** A task is known to the checkpoints by the ids of its points. */
  datatype TspTask = TspTask(points: seq<int>)

  datatype TspSolution = TspSolution(sequence: seq<int>, cost: real, valid: bool, final: bool) {
    function AsFinal(): TspSolution {
      this.(final := true)
    }
  }

  /*---------- Checkpoints ----------*/

  datatype Instance = NoInstance | TwoOpt(i: int, j: int, k: int) | TimeWasting(counter: int)

  datatype StateDto = StateDto(points: seq<int>, sequence: seq<int>, instance: Instance) {
    predicate IsConsistent() {
      |points| == |sequence| && forall p :: 0 <= p < |sequence| ==> sequence[p] < |points|
    }

    predicate IsCompatibleWith(task: TspTask) {
      |points| == |task.points| && forall p :: 0 <= p < |points| ==> points[p] == task.points[p]
    }

    predicate CanBeUsedFor(task: TspTask) {
      IsConsistent() && IsCompatibleWith(task)
    }
  }

  const EMPTY_DTO := StateDto([], [], NoInstance)

  class TspAlgorithmStateContainer {
    var state: StateDto
    var persisted: Option<StateDto>

    constructor (state: StateDto)
      ensures this.state == state && persisted == None
    {
      this.state, persisted := state, None;
    }

    method Reset()
      modifies this`state
      ensures state == EMPTY_DTO
    {
      state := StateDto([], [], NoInstance);
    }

    method SetPoints(points: seq<int>)
      modifies this`state
      ensures state == old(state).(points := points)
    {
      state := state.(points := []);
      for p := 0 to |points|
        invariant state == old(state).(points := points[..p])
      {
        state := state.(points := state.points + [points[p]]);
      }
    }

    method SetSequence(sequence: seq<int>)
      modifies this`state
      ensures state == old(state).(sequence := sequence)
    {
      state := state.(sequence := []);
      for p := 0 to |sequence|
        invariant state == old(state).(sequence := sequence[..p])
      {
        state := state.(sequence := state.sequence + [sequence[p]]);
      }
    }

    method SetState(dto: StateDto)
      modifies this`state
      ensures state == dto
    {
      state := dto;
    }

    method Persist()
      modifies this`persisted
      ensures persisted == Some(state)
    {
      persisted := Some(state);
    }
  }

  /** What a saved state is worth for a task: itself, or nothing. */
  function Validated(task: TspTask, dto: StateDto): StateDto {
    var size := |task.points|;
    if dto.instance.TwoOpt? && dto.CanBeUsedFor(task) && dto.instance.i < size && dto.instance.j < size && dto.instance.k < size
    then dto else EMPTY_DTO
  }

  /**
   A saved state is used exactly when it is a 2-opt state for the very points of the task, with as many places in its
   order, all of them within the task, and all three indices below the size; any other is dropped altogether.
   */
  lemma UsedIff(task: TspTask, points: seq<int>, sequence: seq<int>, i: int, j: int, k: int)
    ensures Validated(task, StateDto(points, sequence, TwoOpt(i, j, k))) ==
              if && points == task.points && |sequence| == |task.points| && (forall place :: place in sequence ==> place < |task.points|)
                 && i < |task.points| && j < |task.points| && k < |task.points|
              then StateDto(points, sequence, TwoOpt(i, j, k)) else StateDto([], [], NoInstance)
    ensures Validated(task, StateDto(points, sequence, NoInstance)) == StateDto([], [], NoInstance)
    ensures forall counter :: Validated(task, StateDto(points, sequence, TimeWasting(counter))) == StateDto([], [], NoInstance)
  {
    var dto := StateDto(points, sequence, TwoOpt(i, j, k));
    if dto.IsCompatibleWith(task) { assert points == task.points; }
    if forall place :: place in sequence ==> place < |task.points| {
      assert forall p :: 0 <= p < |sequence| ==> sequence[p] in sequence;
    }
  }

  /** The indices of a checkpoint that will be used must denote a stretch, or the reversal is undefined. */
  ghost predicate Resumable(task: TspTask, dto: StateDto) {
    Validated(task, dto).instance.TwoOpt? ==> 0 <= dto.instance.i < dto.instance.j && 0 <= dto.instance.k
  }

  /** Where the search goes on from a saved state. */
  ghost function ResumePoint(task: TspTask, dto: StateDto): (p: Point)
    requires 2 <= |task.points| && Resumable(task, dto)
    ensures p.Valid() && p.state.Some? && p.state.value.size == |task.points|
  {
    match Validated(task, dto).instance
    case TwoOpt(i, j, k) => Point(dto.sequence, Some(State(i, j, k, |task.points|)))
    case _ => Start(|task.points|)
  }

  function Checkpoint(task: TspTask, best: seq<int>, state: State): StateDto {
    StateDto(task.points, best, TwoOpt(state.i, state.j, state.k))
  }

  /*---------- One run of the algorithm ----------*/

  function Solution(est: Estimator, s: seq<int>): TspSolution {
    TspSolution(s, est.cost(s), est.valid(s), false)
  }

  /** The cheaper orders published by the first trials from a point. */
  ghost function Improvements(est: Estimator, p: Point, trials: nat): seq<TspSolution>
    requires p.Valid()
  {
    if trials == 0 then []
    else
      var q := Walk(est, p, trials - 1);
      Improvements(est, p, trials - 1)
      + (if q.state.Some? && Accepts(est, q.best, q.state.value) then [Solution(est, Walk(est, p, trials).best)] else [])
  }

  /** The state is the checkpoint taken after so many trials from the point. */
  ghost predicate SavedAt(est: Estimator, task: TspTask, p: Point, trials: nat, dto: StateDto)
    requires p.Valid()
  {
    var q := Walk(est, p, trials);
    q.state.Some? && dto == Checkpoint(task, q.best, q.state.value)
  }

  /** The container has been left as it was after validation, or holds the checkpoint of the last trial. */
  ghost predicate Left(est: Estimator, task: TspTask, before: StateDto, p: Point, trials: nat, dto: StateDto)
    requires p.Valid()
  {
    dto == Validated(task, before) || (0 < trials && SavedAt(est, task, p, trials, dto))
  }

  /** A run that starts with one saved state, publishes the log, makes some trials and leaves another saved state. */
  ghost predicate Solved(est: Estimator, task: TspTask, before: StateDto, log: seq<TspSolution>, trials: nat, after: StateDto)
    requires 2 <= |task.points|
  {
    && Resumable(task, before)
    && var p := ResumePoint(task, before);
       var q := Walk(est, p, trials);
       && trials <= Remaining(p)
       && log == [Solution(est, p.best)] + Improvements(est, p, trials) + [Solution(est, q.best).(final := q.state.None?)]
       && Left(est, task, before, p, trials, after)
  }

  /** What holds whenever the loop has made some trials. */
  ghost predicate Progress(est: Estimator, p: Point, trials: nat, best: seq<int>, iteration: Option<State>, log: seq<TspSolution>) {
    && p.Valid()
    && trials <= Remaining(p)
    && Point(best, iteration) == Walk(est, p, trials)
    && log == [Solution(est, p.best)] + Improvements(est, p, trials)
  }

  lemma ProgressStep(est: Estimator, p: Point, trials: nat, best: seq<int>, iteration: Option<State>, log: seq<TspSolution>)
    requires Progress(est, p, trials, best, iteration, log) && iteration.Some?
    ensures trials < Remaining(p) && iteration.value.Valid() && iteration.value.size == |best|
    ensures var accepted := Accepts(est, best, iteration.value);
            var best' := if accepted then Reversed(best, iteration.value.i, iteration.value.j) else best;
            Progress(est, p, trials + 1, best', NextState(iteration), log + (if accepted then [Solution(est, best')] else []))
  {
    WalkCountsDown(est, p, trials);
    assert Walk(est, p, trials).Valid();
  }

  lemma ProgressEnds(est: Estimator, task: TspTask, before: StateDto, trials: nat, best: seq<int>, iteration: Option<State>,
                     log: seq<TspSolution>, after: StateDto)
    requires 2 <= |task.points| && Resumable(task, before)
    requires Progress(est, ResumePoint(task, before), trials, best, iteration, log)
    requires Left(est, task, before, ResumePoint(task, before), trials, after)
    ensures Solved(est, task, before, log + [Solution(est, best).(final := iteration.None?)], trials, after)
  {
  }

  /*---------- The reads of the interrupt flag ----------*/

  /**
   What a run sees of the flag: its value before each trial and, while a move is left, after it. The
   run ends when no move is left or when the flag is set before a trial.
   */
  ghost predicate IsReadLog(seen: seq<bool>, trials: nat, ended: bool) {
    if ended then |seen| == 2 * trials - 1 && forall r :: 0 <= r < |seen| ==> !seen[r]
    else |seen| == 2 * trials + 1 && seen[2 * trials] && forall r :: 0 <= r < 2 * trials - 1 ==> !seen[r]
  }

  /** The flag was seen by the read after the last trial. */
  ghost predicate SeenAfterTrial(seen: seq<bool>, trials: nat) {
    0 < trials && 2 * trials - 1 < |seen| && seen[2 * trials - 1]
  }

  /** What has been seen when the loop has made some trials. */
  ghost predicate SeenSoFar(seen: seq<bool>, trials: nat, ended: bool) {
    && |seen| == (if ended then 2 * trials - 1 else 2 * trials)
    && forall r :: 0 <= r < 2 * trials - 1 ==> !seen[r]
  }

  /** The saved state a run leaves, according to what it has read. */
  ghost function LeftAfter(est: Estimator, task: TspTask, before: StateDto, p: Point, trials: nat, seen: seq<bool>): StateDto
    requires p.Valid()
  {
    var q := Walk(est, p, trials);
    if SeenAfterTrial(seen, trials) && q.state.Some? then StateDto(task.points, q.best, TwoOpt(q.state.value.i, q.state.value.j, q.state.value.k))
    else Validated(task, before)
  }

  /** What the loop knows of the flag and the saved state when it has made some trials. */
  ghost predicate Tracks(est: Estimator, task: TspTask, before: StateDto, p: Point, trials: nat, seen: seq<bool>, flag: bool, dto: StateDto)
    requires p.Valid()
  {
    && SeenSoFar(seen, trials, Walk(est, p, trials).state.None?)
    && (SeenAfterTrial(seen, trials) ==> flag)
    && dto == LeftAfter(est, task, before, p, trials, seen)
  }

  /** The flag was not set before a trial; afterwards it may be, and then the state is saved if a move is left. */
  lemma TracksStep(est: Estimator, task: TspTask, before: StateDto, p: Point, trials: nat, seen: seq<bool>, kept: StateDto, flag: bool,
                   dto: StateDto)
    requires p.Valid() && Walk(est, p, trials).state.Some? && Tracks(est, task, before, p, trials, seen, false, kept)
    requires var q := Walk(est, p, trials + 1);
             dto == if q.state.Some? && flag then Checkpoint(task, q.best, q.state.value) else kept
    ensures var after := seen + [false] + if Walk(est, p, trials + 1).state.Some? then [flag] else [];
            Tracks(est, task, before, p, trials + 1, after, flag, dto)
  {
  }

  lemma TracksToTheEnd(est: Estimator, task: TspTask, before: StateDto, p: Point, trials: nat, seen: seq<bool>, flag: bool, dto: StateDto)
    requires p.Valid() && Tracks(est, task, before, p, trials, seen, flag, dto)
    ensures Left(est, task, before, p, trials, dto)
    ensures Walk(est, p, trials).state.None? ==> IsReadLog(seen, trials, true)
    ensures Walk(est, p, trials).state.Some? ==>
              IsReadLog(seen + [true], trials, false) && dto == LeftAfter(est, task, before, p, trials, seen + [true])
  {
    assert SeenAfterTrial(seen + [true], trials) == SeenAfterTrial(seen, trials) || Walk(est, p, trials).state.None?;
  }

  lemma SeenGrows(start: seq<bool>, seen: seq<bool>, more: seq<bool>)
    ensures ((start + seen) + [false]) + more == start + ((seen + [false]) + more)
    ensures (start + seen)[|start|..] == seen
    ensures ((start + seen) + [true])[|start|..] == seen + [true] && start <= (start + seen) + [true]
  {
  }

  lemma TailGrows(published: seq<TspSolution>, soFar: seq<TspSolution>, log: seq<TspSolution>)
    requires soFar != [] && soFar <= log
    ensures (published + soFar[1..]) + log[|soFar|..] == published + log[1..]
  {
    assert log[1..] == soFar[1..] + log[|soFar|..];
  }

  lemma LogCloses(published: seq<TspSolution>, first: TspSolution, log: seq<TspSolution>, closing: TspSolution)
    requires log != [] && log[0] == first
    ensures ((published + [first]) + log[1..]) + [closing] == published + (log + [closing])
    ensures (published + (log + [closing]))[|published|..] == log + [closing]
  {
    assert log == [first] + log[1..];
  }

  class EngineTspSolutionController {
    const container: TspAlgorithmStateContainer
    var hasFinalSolution: bool
    /** What the solution listener has been told. */
    var published: seq<TspSolution>
    var isInterrupted: bool
    /** What the task has read of the interrupt flag since it was launched. */
    ghost var seen: seq<bool>

    constructor (container: TspAlgorithmStateContainer)
      ensures this.container == container && !hasFinalSolution && published == [] && isInterrupted && seen == []
    {
      this.container, hasFinalSolution, published, isInterrupted, seen := container, false, [], true, [];
    }

    /** Other threads set the flag at any time; while a task runs nobody clears it. */
    method IsInterrupted() returns (interrupted: bool)
      modifies this`isInterrupted, this`seen
      ensures interrupted == isInterrupted && (old(isInterrupted) ==> interrupted)
      ensures seen == old(seen) + [interrupted]
    {
      var raised := *;
      isInterrupted := isInterrupted || raised;
      interrupted := isInterrupted;
      seen := seen + [interrupted];
    }

    method PublishSolution(solution: TspSolution)
      modifies this`hasFinalSolution, this`published
      ensures hasFinalSolution == solution.final && published == old(published) + [solution]
    {
      hasFinalSolution := solution.final;
      published := published + [solution];
    }
  }

  class TwoOptTspAlgorithm {
    const est: Estimator

    constructor (est: Estimator)
      ensures this.est == est
    {
      this.est := est;
    }

    method ValidateOrResetSavedState(task: TspTask, container: TspAlgorithmStateContainer)
      modifies container`state
      ensures container.state == Validated(task, old(container.state))
    {
      if !container.state.instance.TwoOpt? {
        container.Reset();
      } else if !container.state.CanBeUsedFor(task) {
        container.Reset();
      } else {
        var TwoOpt(i, j, k) := container.state.instance;
        var size := |task.points|;
        if size <= i || size <= j || size <= k {
          container.Reset();
        }
      }
    }

    method CreateInitialSolution(task: TspTask, container: TspAlgorithmStateContainer) returns (solution: TspSolution)
      ensures solution == Solution(est, if container.state.instance.TwoOpt? then container.state.sequence else Identity(|task.points|))
    {
      var sequence: seq<int>;
      if container.state.instance.TwoOpt? {
        sequence := container.state.sequence;
      } else {
        sequence := [];
        for i := 0 to |task.points|
          invariant sequence == Identity(|task.points|)[..i]
        {
          assert Identity(|task.points|)[..i + 1] == Identity(|task.points|)[..i] + [i];
          sequence := sequence + [i];
        }
        assert Identity(|task.points|)[..|task.points|] == Identity(|task.points|);
      }
      solution := TspSolution(sequence, est.cost(sequence), est.valid(sequence), false);
    }

    method SaveState(state: State, container: TspAlgorithmStateContainer, sequence: seq<int>, task: TspTask)
      modifies container`state
      ensures container.state == Checkpoint(task, sequence, state)
    {
      container.Reset();
      container.SetPoints(task.points);
      container.SetSequence(sequence);
      container.state := container.state.(instance := TwoOpt(state.i, state.j, state.k));
    }

    function LoadState(task: TspTask, dto: StateDto): Option<State> {
      match dto.instance
      case TwoOpt(i, j, k) => Some(State(i, j, k, |task.points|))
      case _ => None
    }

    function CreateInitialState(task: TspTask, dto: StateDto): State {
      var loaded := LoadState(task, dto);
      if loaded.Some? then loaded.value else InitialState(|task.points|)
    }

    /** One trial on the working sequence, which is put back unless the reversal is kept. */
    method Try(sequence: array<int>, state: State, current: TspSolution, controller: EngineTspSolutionController)
      returns (solution: TspSolution)
      requires state.Valid() && state.size == sequence.Length
      requires current == Solution(est, sequence[..])
      modifies sequence, controller`hasFinalSolution, controller`published
      ensures var s := old(sequence[..]);
              var accepted := Accepts(est, s, state);
              && sequence[..] == (if accepted then Reversed(s, state.i, state.j) else s)
              && solution == Solution(est, sequence[..])
              && controller.published == old(controller.published) + (if accepted then [solution] else [])
              && controller.hasFinalSolution == (if accepted then false else old(controller.hasFinalSolution))
    {
      solution := current;
      ReversedTwice(sequence[..], state.i, state.j);
      ReverseInPlace(sequence, state.i, state.j);
      var valid := est.valid(sequence[..]);
      if valid {
        var cost := est.cost(sequence[..]);
        if cost < solution.cost {
          solution := TspSolution(sequence[..], cost, valid, false);
          controller.PublishSolution(solution);
        } else {
          ReverseInPlace(sequence, state.i, state.j);
        }
      } else {
        ReverseInPlace(sequence, state.i, state.j);
      }
    }

    /** Everything before the search loop: where it starts, and the first publication. */
    method Begin(task: TspTask, controller: EngineTspSolutionController)
      returns (current: TspSolution, sequence: array<int>, iteration: Option<State>)
      requires 2 <= |task.points| && Resumable(task, controller.container.state)
      modifies controller`hasFinalSolution, controller`published, controller.container`state
      ensures var p := ResumePoint(task, old(controller.container.state));
              current == Solution(est, p.best) && iteration == p.state
      ensures fresh(sequence) && sequence[..] == current.sequence
      ensures controller.container.state == Validated(task, old(controller.container.state))
      ensures controller.published == old(controller.published) + [current] && !controller.hasFinalSolution
    {
      ValidateOrResetSavedState(task, controller.container);
      current := CreateInitialSolution(task, controller.container);
      controller.PublishSolution(current);
      sequence := new int[|current.sequence|](i requires 0 <= i < |current.sequence| => current.sequence[i]);
      iteration := Some(CreateInitialState(task, controller.container.state));
    }

    /** The body of the search loop: a trial, the next move, and its checkpoint if the flag is seen then. */
    method Iterate(task: TspTask, controller: EngineTspSolutionController, sequence: array<int>, best: TspSolution, state: State,
                   ghost p: Point, ghost trials: nat, ghost log: seq<TspSolution>)
      returns (current: TspSolution, iteration: Option<State>, ghost log': seq<TspSolution>)
      requires best == Solution(est, sequence[..]) && Progress(est, p, trials, best.sequence, Some(state), log)
      requires !controller.hasFinalSolution
      modifies sequence, controller, controller.container`state
      ensures current == Solution(est, sequence[..]) && Progress(est, p, trials + 1, current.sequence, iteration, log')
      ensures !controller.hasFinalSolution && trials < Remaining(p)
      ensures log <= log' && controller.published == old(controller.published) + log'[|log|..]
      ensures controller.seen == old(controller.seen) + if iteration.Some? then [controller.isInterrupted] else []
      ensures controller.container.state == if iteration.Some? && controller.isInterrupted
                                            then Checkpoint(task, current.sequence, iteration.value)
                                            else old(controller.container.state)
    {
      ProgressStep(est, p, trials, best.sequence, Some(state), log);
      ghost var more := if Accepts(est, best.sequence, state) then 1 else 0;
      current := Try(sequence, state, best, controller);
      log' := log + (if more == 1 then [current] else []);
      iteration := NextState(Some(state));
      if iteration.Some? {
        var interrupted := controller.IsInterrupted();
        if interrupted {
          SaveState(iteration.value, controller.container, current.sequence, task);
        }
      }
    }

    /** The search loop, from where the run begins. */
    method Search(task: TspTask, controller: EngineTspSolutionController, sequence: array<int>, first: TspSolution, move: Option<State>,
                  ghost before: StateDto, ghost p: Point)
      returns (current: TspSolution, iteration: Option<State>, ghost trials: nat, ghost log: seq<TspSolution>, ghost seen: seq<bool>)
      requires first == Solution(est, sequence[..]) && Progress(est, p, 0, first.sequence, move, [first]) && move.Some?
      requires controller.container.state == Validated(task, before) && !controller.hasFinalSolution
      modifies sequence, controller, controller.container`state
      ensures current == Solution(est, sequence[..]) && Progress(est, p, trials, current.sequence, iteration, log)
      ensures !controller.hasFinalSolution && log != [] && log[0] == first && controller.published == old(controller.published) + log[1..]
      ensures Tracks(est, task, before, p, trials, seen, controller.isInterrupted, controller.container.state)
      ensures controller.seen == old(controller.seen) + seen + if iteration.Some? then [true] else []
    {
      ghost var start, published := controller.seen, controller.published;
      current, iteration, trials, log, seen := first, move, 0, [first], [];

      while true
        invariant current == Solution(est, sequence[..])
        invariant Progress(est, p, trials, current.sequence, iteration, log)
        invariant log != [] && log[0] == first && controller.published == published + log[1..] && controller.seen == start + seen
        invariant !controller.hasFinalSolution
        invariant Tracks(est, task, before, p, trials, seen, controller.isInterrupted, controller.container.state)
        decreases Remaining(p) - trials
      {
        if iteration.None? { break; }
        var interrupted := controller.IsInterrupted();
        if interrupted { break; }

        ghost var soFar, kept := log, controller.container.state;
        current, iteration, log := Iterate(task, controller, sequence, current, iteration.value, p, trials, soFar);
        TailGrows(published, soFar, log);
        TracksStep(est, task, before, p, trials, seen, kept, controller.isInterrupted, controller.container.state);
        ghost var more := if iteration.Some? then [controller.isInterrupted] else [];
        SeenGrows(start, seen, more);
        seen := (seen + [false]) + more;
        trials := trials + 1;
      }
    }

    /**
     A run leaves the checkpoint after its last trial exactly when the read after that trial saw the
     flag; no trial follows a read that saw it.
     */
    method SolveTsp(task: TspTask, controller: EngineTspSolutionController)
      returns (ghost trials: nat)
      requires 2 <= |task.points| && Resumable(task, controller.container.state)
      modifies controller, controller.container`state
      ensures old(controller.published) <= controller.published
      ensures Solved(est, task, old(controller.container.state),
                     controller.published[|old(controller.published)|..], trials, controller.container.state)
      ensures controller.hasFinalSolution == controller.published[|controller.published| - 1].final
      ensures old(controller.seen) <= controller.seen
      ensures var p, seen := ResumePoint(task, old(controller.container.state)), controller.seen[|old(controller.seen)|..];
              && IsReadLog(seen, trials, controller.hasFinalSolution)
              && controller.container.state == LeftAfter(est, task, old(controller.container.state), p, trials, seen)
    {
      ghost var before, published, start := controller.container.state, controller.published, controller.seen;
      ghost var p := ResumePoint(task, before);
      var first, sequence, move := Begin(task, controller);
      var current, iteration;
      ghost var log, seen;
      current, iteration, trials, log, seen := Search(task, controller, sequence, first, move, before, p);
      SeenGrows(start, seen, []);
      TracksToTheEnd(est, task, before, p, trials, seen, controller.isInterrupted, controller.container.state);
      var closing := if iteration.Some? then current else current.AsFinal();
      controller.PublishSolution(closing);
      LogCloses(published, first, log, closing);
      ProgressEnds(est, task, before, trials, current.sequence, iteration, log, controller.container.state);
    }
  }
}
