/**
 Whole solving histories: any number of runs of the 2-opt algorithm, cut short by interrupts at
 any of the checks and resumed from whatever checkpoint was stored.
 */
module TwoOptRuns {
  import opened Concepts
  import opened Tours
  import opened TwoOptSearch
  import opened TwoOptSession

  /*---------- What one run publishes ----------*/

  /** All that a run has published before its closing publication. */
  ghost function OpenLog(est: Estimator, p: Point, trials: nat): seq<TspSolution>
    requires p.Valid()
  {
    [Solution(est, p.best)] + Improvements(est, p, trials)
  }

  /** Strictly cheaper solutions only, none of them marked final; the last one is the best so far. */
  ghost predicate FallingLog(est: Estimator, log: seq<TspSolution>, best: seq<int>) {
    && 0 < |log|
    && log[|log| - 1] == Solution(est, best)
    && (forall a, b :: 0 <= a < b < |log| ==> log[b].cost < log[a].cost)
    && (forall a :: 0 <= a < |log| ==> log[a] == Solution(est, log[a].sequence))
  }

  lemma FallingLogGrows(est: Estimator, log: seq<TspSolution>, best: seq<int>, better: seq<int>)
    requires FallingLog(est, log, best) && est.cost(better) < est.cost(best)
    ensures FallingLog(est, log + [Solution(est, better)], better)
  {
    var log' := log + [Solution(est, better)];
    forall a, b | 0 <= a < b < |log'| ensures log'[b].cost < log'[a].cost {
      if b == |log| && a < |log| - 1 { assert log[|log| - 1].cost < log[a].cost; }
    }
  }

  lemma {:induction false} OpenLogFalls(est: Estimator, p: Point, trials: nat)
    requires p.Valid()
    ensures FallingLog(est, OpenLog(est, p, trials), Walk(est, p, trials).best)
  {
    if trials > 0 {
      OpenLogFalls(est, p, trials - 1);
      var q := Walk(est, p, trials - 1);
      if q.state.Some? && Accepts(est, q.best, q.state.value) {
        FallingLogGrows(est, OpenLog(est, p, trials - 1), q.best, Walk(est, p, trials).best);
        assert OpenLog(est, p, trials) == OpenLog(est, p, trials - 1) + [Solution(est, Walk(est, p, trials).best)];
      } else {
        assert OpenLog(est, p, trials) == OpenLog(est, p, trials - 1);
      }
    }
  }

  /**
   A run publishes ever cheaper solutions and closes by repeating the best of them, as the final
   one exactly when no move is left.
   */
  lemma PublishedCostsFall(est: Estimator, task: TspTask, before: StateDto, log: seq<TspSolution>, trials: nat, after: StateDto)
    requires 2 <= |task.points| && Solved(est, task, before, log, trials, after)
    ensures var open, closing := log[..|log| - 1], log[|log| - 1];
            && FallingLog(est, open, closing.sequence)
            && closing == open[|open| - 1].(final := closing.final)
            && (closing.final <==> trials == Remaining(ResumePoint(task, before)))
  {
    var p := ResumePoint(task, before);
    OpenLogFalls(est, p, trials);
    WalkCountsDown(est, p, trials);
    assert log[..|log| - 1] == OpenLog(est, p, trials);
  }

  /*---------- Checkpoints and the trajectory ----------*/

  ghost predicate AtTrial(est: Estimator, task: TspTask, dto: StateDto, m: nat)
    requires 2 <= |task.points|
  {
    dto.instance.TwoOpt? &&
    Walk(est, Start(|task.points|), m)
    == Point(dto.sequence, Some(State(dto.instance.i, dto.instance.j, dto.instance.k, |task.points|)))
  }

  /** If the saved state will be used at all, the fresh uninterrupted search passes through it. */
  ghost predicate OnTrajectory(est: Estimator, task: TspTask, dto: StateDto)
    requires 2 <= |task.points|
  {
    Validated(task, dto).instance.TwoOpt? ==> exists m: nat :: AtTrial(est, task, dto, m)
  }

  lemma OnTrajectoryIsResumable(est: Estimator, task: TspTask, dto: StateDto)
    requires 2 <= |task.points| && OnTrajectory(est, task, dto)
    ensures Resumable(task, dto)
  {
    if Validated(task, dto).instance.TwoOpt? {
      var m: nat :| AtTrial(est, task, dto, m);
      assert Walk(est, Start(|task.points|), m).Valid();
    }
  }

  /** The trial at which the fresh search passes through the point a run resumes from. */
  lemma ResumedAt(est: Estimator, task: TspTask, dto: StateDto) returns (m: nat)
    requires 2 <= |task.points| && OnTrajectory(est, task, dto)
    ensures Resumable(task, dto) && Walk(est, Start(|task.points|), m) == ResumePoint(task, dto)
  {
    OnTrajectoryIsResumable(est, task, dto);
    if Validated(task, dto).instance.TwoOpt? {
      m :| AtTrial(est, task, dto, m);
    } else {
      m := 0;
    }
  }

  lemma RunStaysOnTrajectory(est: Estimator, task: TspTask, before: StateDto, log: seq<TspSolution>, trials: nat, after: StateDto)
    requires 2 <= |task.points| && OnTrajectory(est, task, before) && Solved(est, task, before, log, trials, after)
    ensures OnTrajectory(est, task, after)
  {
    var p := ResumePoint(task, before);
    if after != Validated(task, before) {
      var a := ResumedAt(est, task, before);
      WalkComposes(est, Start(|task.points|), a, trials);
      WalkSize(est, p, trials);
      assert AtTrial(est, task, after, a + trials);
    }
  }

  lemma {:induction false} WalkSize(est: Estimator, p: Point, trials: nat)
    requires p.Valid() && p.state.Some?
    ensures Walk(est, p, trials).state.Some? ==> Walk(est, p, trials).state.value.size == p.state.value.size
  {
    if trials > 0 { WalkSize(est, p, trials - 1); }
  }

  /** A checkpoint of the search is taken up again exactly when its move does not reach the end of the order. */
  lemma CheckpointIsUsedIff(est: Estimator, task: TspTask, m: nat)
    requires 2 <= |task.points| && Walk(est, Start(|task.points|), m).state.Some?
    ensures var q := Walk(est, Start(|task.points|), m);
            var dto := Checkpoint(task, q.best, q.state.value);
            && (q.state.value.j < |task.points| ==> Validated(task, dto) == dto)
            && (q.state.value.j == |task.points| ==> Validated(task, dto) == EMPTY_DTO)
            && q.state.value.j <= |task.points|
  {
    WalkKeepsPermutation(est, Start(|task.points|), m, |task.points|);
    WalkSize(est, Start(|task.points|), m);
  }

  /*---------- Histories ----------*/

  datatype Session = Session(before: StateDto, log: seq<TspSolution>, trials: nat, after: StateDto)

  ghost predicate IsSession(est: Estimator, task: TspTask, s: Session)
    requires 2 <= |task.points|
  {
    Solved(est, task, s.before, s.log, s.trials, s.after)
  }

  /** Each run starts with nothing usable, or with what some earlier run has left. */
  ghost predicate IsHistory(est: Estimator, task: TspTask, sessions: seq<Session>)
    requires 2 <= |task.points|
  {
    forall a :: 0 <= a < |sessions| ==>
      && IsSession(est, task, sessions[a])
      && (Validated(task, sessions[a].before) == EMPTY_DTO || exists b :: 0 <= b < a && sessions[a].before == sessions[b].after)
  }

  lemma {:induction false} HistoryStaysOnTrajectory(est: Estimator, task: TspTask, sessions: seq<Session>, a: nat)
    requires 2 <= |task.points| && IsHistory(est, task, sessions) && a < |sessions|
    ensures OnTrajectory(est, task, sessions[a].before) && OnTrajectory(est, task, sessions[a].after)
    decreases a
  {
    var s := sessions[a];
    if Validated(task, s.before) != EMPTY_DTO {
      var b :| 0 <= b < a && s.before == sessions[b].after;
      HistoryStaysOnTrajectory(est, task, sessions, b);
    }
    RunStaysOnTrajectory(est, task, s.before, s.log, s.trials, s.after);
  }

  /** The solution an uninterrupted fresh search ends with. */
  ghost function FinalSolution(est: Estimator, task: TspTask): TspSolution
    requires 2 <= |task.points|
  {
    Solution(est, Final(est, Start(|task.points|))).AsFinal()
  }

  lemma WalkFromTrajectoryEnds(est: Estimator, size: nat, m: nat, p: Point, trials: nat)
    requires 2 <= size && Walk(est, Start(size), m) == p && Walk(est, p, trials).state.None?
    ensures Walk(est, p, trials).best == Final(est, Start(size))
  {
    WalkComposes(est, Start(size), m, trials);
    FinalIsUnique(est, Start(size), m + trials);
  }

  /** A run from a point of the trajectory that runs out of moves closes with the final solution. */
  lemma ClosingSolution(est: Estimator, task: TspTask, s: Session)
    requires 2 <= |task.points| && OnTrajectory(est, task, s.before)
    requires IsSession(est, task, s) && s.log[|s.log| - 1].final
    ensures s.log[|s.log| - 1] == FinalSolution(est, task)
  {
    var m := ResumedAt(est, task, s.before);
    WalkFromTrajectoryEnds(est, |task.points|, m, ResumePoint(task, s.before), s.trials);
  }

  lemma OnlyClosingIsFinal(est: Estimator, task: TspTask, s: Session, q: nat)
    requires 2 <= |task.points| && IsSession(est, task, s)
    requires q < |s.log| && s.log[q].final
    ensures q == |s.log| - 1
  {
    PublishedCostsFall(est, task, s.before, s.log, s.trials, s.after);
    var open := s.log[..|s.log| - 1];
    assert q < |open| ==> open[q] == s.log[q] && !open[q].final;
  }

  /**
   Pausing and resuming is transparent: whichever run of whichever history publishes a final
   solution, it is the one the uninterrupted fresh search would have ended with.
   */
  lemma PauseResumeIsTransparent(est: Estimator, task: TspTask, sessions: seq<Session>, a: nat, q: nat)
    requires 2 <= |task.points| && IsHistory(est, task, sessions)
    requires a < |sessions| && q < |sessions[a].log| && sessions[a].log[q].final
    ensures sessions[a].log[q] == FinalSolution(est, task)
  {
    HistoryStaysOnTrajectory(est, task, sessions, a);
    OnlyClosingIsFinal(est, task, sessions[a], q);
    ClosingSolution(est, task, sessions[a]);
  }

  /** The fresh run that makes all its trials does publish that solution, and nothing cheaper on its way. */
  lemma UninterruptedRunPublishesFinal(est: Estimator, task: TspTask, log: seq<TspSolution>, trials: nat, after: StateDto)
    requires 2 <= |task.points| && Solved(est, task, EMPTY_DTO, log, trials, after) && trials == Remaining(Start(|task.points|))
    ensures log[|log| - 1] == FinalSolution(est, task)
    ensures forall q :: 0 <= q < |log| ==> log[|log| - 1].cost <= log[q].cost
  {
    WalkCountsDown(est, Start(|task.points|), trials);
    PauseResumeIsTransparent(est, task, [Session(EMPTY_DTO, log, trials, after)], 0, |log| - 1);
    PublishedCostsFall(est, task, EMPTY_DTO, log, trials, after);
    var open := log[..|log| - 1];
    forall q | 0 <= q < |log| ensures log[|log| - 1].cost <= log[q].cost {
      if q < |open| - 1 { assert open[|open| - 1].cost < open[q].cost; }
    }
  }

  /*---------- Which histories get to the end ----------*/

  /** A first run and then resumption after resumption, each from what the run before has left. */
  ghost predicate IsChain(est: Estimator, task: TspTask, sessions: seq<Session>)
    requires 2 <= |task.points|
  {
    && (sessions != [] ==> Validated(task, sessions[0].before) == EMPTY_DTO)
    && (forall a :: 0 <= a < |sessions| ==> IsSession(est, task, sessions[a]))
    && (forall a :: 0 < a < |sessions| ==> sessions[a].before == sessions[a - 1].after)
  }

  /** The run leaves a checkpoint of its own, after at least one trial, that will not be rejected. */
  ghost predicate LeavesUsable(est: Estimator, task: TspTask, s: Session)
    requires 2 <= |task.points| && Resumable(task, s.before)
  {
    && 0 < s.trials && SavedAt(est, task, ResumePoint(task, s.before), s.trials, s.after)
    && s.after.instance.TwoOpt? && s.after.instance.j < |task.points|
  }

  /** The checkpoint of a point of the trajectory leads back to that point, unless its move reaches the end of the order. */
  lemma CheckpointResumes(est: Estimator, task: TspTask, m: nat, dto: StateDto)
    requires 2 <= |task.points| && Walk(est, Start(|task.points|), m).state.Some?
    requires var q := Walk(est, Start(|task.points|), m);
             dto == Checkpoint(task, q.best, q.state.value)
    ensures var q := Walk(est, Start(|task.points|), m);
            Resumable(task, dto) && ResumePoint(task, dto) == if q.state.value.j < |task.points| then q else Start(|task.points|)
  {
    CheckpointIsUsedIff(est, task, m);
    WalkSize(est, Start(|task.points|), m);
  }

  lemma SavedIsOnTrajectory(est: Estimator, task: TspTask, m: nat, more: nat, dto: StateDto)
    requires 2 <= |task.points| && SavedAt(est, task, Walk(est, Start(|task.points|), m), more, dto)
    ensures var q := Walk(est, Start(|task.points|), m + more);
            q.state.Some? && dto == Checkpoint(task, q.best, q.state.value)
  {
    WalkComposes(est, Start(|task.points|), m, more);
  }

  lemma SavedResumes(est: Estimator, task: TspTask, p: Point, m: nat, m': nat, dto: StateDto)
    requires 2 <= |task.points| && p == Walk(est, Start(|task.points|), m) && m <= m' && SavedAt(est, task, p, m' - m, dto)
    requires dto.instance.TwoOpt? && dto.instance.j < |task.points|
    ensures Resumable(task, dto) && ResumePoint(task, dto) == Walk(est, Start(|task.points|), m')
  {
    SavedIsOnTrajectory(est, task, m, m' - m, dto);
    CheckpointResumes(est, task, m', dto);
  }

  lemma SessionAdvances(est: Estimator, task: TspTask, s: Session, m: nat) returns (m': nat)
    requires 2 <= |task.points| && Resumable(task, s.before) && LeavesUsable(est, task, s)
    requires Walk(est, Start(|task.points|), m) == ResumePoint(task, s.before)
    ensures m < m' && Resumable(task, s.after)
    ensures Walk(est, Start(|task.points|), m') == ResumePoint(task, s.after)
  {
    m' := m + s.trials;
    SavedResumes(est, task, ResumePoint(task, s.before), m, m', s.after);
  }

  lemma {:induction false} ChainAdvances(est: Estimator, task: TspTask, sessions: seq<Session>, a: nat) returns (m: nat)
    requires 2 <= |task.points| && IsChain(est, task, sessions) && a < |sessions|
    requires forall b :: 0 <= b < a ==> LeavesUsable(est, task, sessions[b])
    ensures a <= m && Walk(est, Start(|task.points|), m) == ResumePoint(task, sessions[a].before)
    decreases a
  {
    if a == 0 {
      m := 0;
    } else {
      var m' := ChainAdvances(est, task, sessions, a - 1);
      m := SessionAdvances(est, task, sessions[a - 1], m');
    }
  }

  /** Runs that leave usable checkpoints bring the search to its end: there are no more of them than trials of a fresh search. */
  lemma UsableCheckpointsBringTheEnd(est: Estimator, task: TspTask, sessions: seq<Session>)
    requires 2 <= |task.points| && IsChain(est, task, sessions)
    requires forall a :: 0 <= a < |sessions| - 1 ==> LeavesUsable(est, task, sessions[a])
    ensures |sessions| <= Remaining(Start(|task.points|))
  {
    if sessions != [] {
      var m := ChainAdvances(est, task, sessions, |sessions| - 1);
      WalkCountsDown(est, Start(|task.points|), m);
    }
  }

  /** Interrupted right after its first trial, with the checkpoint of that trial saved. */
  ghost predicate PausedAfterOneTrial(est: Estimator, task: TspTask, s: Session)
    requires 2 <= |task.points| && Resumable(task, s.before)
  {
    s.trials == 1 && SavedAt(est, task, ResumePoint(task, s.before), 1, s.after)
  }

  ghost predicate AllPausedAfterOneTrial(est: Estimator, task: TspTask, sessions: seq<Session>)
    requires 2 <= |task.points| && IsChain(est, task, sessions)
  {
    forall b :: 0 <= b < |sessions| ==> PausedAfterOneTrial(est, task, sessions[b])
  }

  /** The move begins at the first place, in the first pass, and does not reach the end if it has come from a checkpoint. */
  ghost predicate InFirstRow(task: TspTask, dto: StateDto)
    requires 2 <= |task.points| && Resumable(task, dto)
  {
    var state := ResumePoint(task, dto).state.value;
    state.i == 0 && state.k == 0 && (state.j == 2 || state.j < |task.points|)
  }

  lemma OneTrialFromFirstRow(est: Estimator, task: TspTask, before: StateDto, dto: StateDto)
    requires 2 <= |task.points| && Resumable(task, before) && InFirstRow(task, before)
    requires SavedAt(est, task, ResumePoint(task, before), 1, dto)
    ensures Resumable(task, dto) && InFirstRow(task, dto)
  {
    var p := ResumePoint(task, before);
    assert Walk(est, p, 1) == Advance(est, Walk(est, p, 0)) == Advance(est, p);
    var state := NextState(p.state).value;
    assert state.i != 0 ==> state.j == |task.points|;
  }

  lemma {:induction false} StaysInFirstRow(est: Estimator, task: TspTask, sessions: seq<Session>, a: nat)
    requires 2 <= |task.points| && IsChain(est, task, sessions) && AllPausedAfterOneTrial(est, task, sessions) && a < |sessions|
    ensures InFirstRow(task, sessions[a].before)
    decreases a
  {
    if a > 0 {
      StaysInFirstRow(est, task, sessions, a - 1);
      OneTrialFromFirstRow(est, task, sessions[a - 1].before, sessions[a].before);
    }
  }

  /** A search paused after every single trial never gets beyond the moves that start at the first place. */
  lemma PausingEveryTrialNeverEnds(est: Estimator, task: TspTask, sessions: seq<Session>, a: nat)
    requires 2 <= |task.points| && IsChain(est, task, sessions) && AllPausedAfterOneTrial(est, task, sessions) && a < |sessions|
    ensures !sessions[a].log[|sessions[a].log| - 1].final && ResumePoint(task, sessions[a].before).state.value.i == 0
  {
    StaysInFirstRow(est, task, sessions, a);
  }

  /** From the first row a run can be paused after one trial and leave a state in the first row. */
  lemma PausedRunFollows(est: Estimator, task: TspTask, before: StateDto) returns (s: Session)
    requires 2 <= |task.points| && Resumable(task, before) && InFirstRow(task, before)
    ensures s.before == before && IsSession(est, task, s) && PausedAfterOneTrial(est, task, s)
    ensures Resumable(task, s.after) && InFirstRow(task, s.after)
  {
    var p := ResumePoint(task, before);
    var q := Walk(est, p, 1);
    assert q == Advance(est, Walk(est, p, 0)) == Advance(est, p);
    var log := [Solution(est, p.best)] + Improvements(est, p, 1) + [Solution(est, q.best).(final := false)];
    s := Session(before, log, 1, Checkpoint(task, q.best, q.state.value));
    assert SavedAt(est, task, p, 1, s.after);
    OneTrialFromFirstRow(est, task, before, s.after);
  }

  lemma ChainExtends(est: Estimator, task: TspTask, sessions: seq<Session>, s: Session)
    requires 2 <= |task.points| && IsChain(est, task, sessions) && IsSession(est, task, s)
    requires s.before == if sessions == [] then EMPTY_DTO else sessions[|sessions| - 1].after
    ensures IsChain(est, task, sessions + [s])
  {
    var all := sessions + [s];
    assert Validated(task, EMPTY_DTO) == EMPTY_DTO;
    forall a | 0 <= a < |all| ensures IsSession(est, task, all[a]) {
      assert all[a] == if a < |sessions| then sessions[a] else s;
    }
    forall a | 0 < a < |all| ensures all[a].before == all[a - 1].after {
      assert all[a - 1] == sessions[a - 1];
    }
  }

  lemma PausesExtend(est: Estimator, task: TspTask, sessions: seq<Session>, s: Session)
    requires 2 <= |task.points| && IsChain(est, task, sessions) && IsChain(est, task, sessions + [s])
    requires AllPausedAfterOneTrial(est, task, sessions) && Resumable(task, s.before) && PausedAfterOneTrial(est, task, s)
    ensures AllPausedAfterOneTrial(est, task, sessions + [s])
  {
    var all := sessions + [s];
    forall b | 0 <= b < |all| ensures PausedAfterOneTrial(est, task, all[b]) {
      assert all[b] == if b < |sessions| then sessions[b] else s;
    }
  }

  /** So there are such histories of every length. */
  lemma {:induction false} PausedChainExists(est: Estimator, task: TspTask, length: nat) returns (sessions: seq<Session>, left: StateDto)
    requires 2 <= |task.points|
    ensures |sessions| == length && IsChain(est, task, sessions) && AllPausedAfterOneTrial(est, task, sessions)
    ensures left == if length == 0 then EMPTY_DTO else sessions[length - 1].after
    ensures Resumable(task, left) && InFirstRow(task, left)
  {
    if length == 0 {
      sessions, left := [], EMPTY_DTO;
    } else {
      sessions, left := PausedChainExists(est, task, length - 1);
      var s := PausedRunFollows(est, task, left);
      ChainExtends(est, task, sessions, s);
      PausesExtend(est, task, sessions, s);
      sessions, left := sessions + [s], s.after;
    }
  }

  /** Every solution of every run visits each point once. */
  lemma PublishedOrdersArePermutations(est: Estimator, task: TspTask, sessions: seq<Session>, a: nat, q: nat)
    requires 2 <= |task.points| && IsHistory(est, task, sessions)
    requires a < |sessions| && q < |sessions[a].log|
    ensures IsPermutation(sessions[a].log[q].sequence, |task.points|)
  {
    var s := sessions[a];
    HistoryStaysOnTrajectory(est, task, sessions, a);
    var m := ResumedAt(est, task, s.before);
    WalkKeepsPermutation(est, Start(|task.points|), m, |task.points|);
    var p := ResumePoint(task, s.before);
    WalkKeepsPermutation(est, p, s.trials, |task.points|);
    OpenLogIsPermuted(est, p, s.trials, |task.points|);
    if q < |s.log| - 1 { assert s.log[q] == OpenLog(est, p, s.trials)[q]; }
  }

  lemma {:induction false} OpenLogIsPermuted(est: Estimator, p: Point, trials: nat, n: nat)
    requires p.Valid() && IsPermutation(p.best, n)
    ensures forall q :: 0 <= q < |OpenLog(est, p, trials)| ==> IsPermutation(OpenLog(est, p, trials)[q].sequence, n)
  {
    if trials > 0 {
      OpenLogIsPermuted(est, p, trials - 1, n);
      WalkKeepsPermutation(est, p, trials, n);
      forall q | 0 <= q < |OpenLog(est, p, trials)| ensures IsPermutation(OpenLog(est, p, trials)[q].sequence, n) {
        if q < |OpenLog(est, p, trials - 1)| { assert OpenLog(est, p, trials)[q] == OpenLog(est, p, trials - 1)[q]; }
      }
    }
  }

  lemma LaterCheckpointResumes(est: Estimator, task: TspTask, m: nat, p: Point, trials: nat, q: Point, dto: StateDto)
    requires 2 <= |task.points| && p == Walk(est, Start(|task.points|), m) && q == Walk(est, p, trials) && q.state.Some?
    requires dto == Checkpoint(task, q.best, q.state.value)
    ensures Resumable(task, dto) && ResumePoint(task, dto) == if q.state.value.j < |task.points| then q else Start(|task.points|)
  {
    WalkComposes(est, Start(|task.points|), m, trials);
    CheckpointResumes(est, task, m + trials, dto);
  }

  /**
   A run interrupted after a trial, from a point of the trajectory, is taken up again right behind
   that trial, unless its next move reaches the end of the order.
   */
  lemma SeenInterruptResumes(est: Estimator, task: TspTask, before: StateDto, trials: nat, seen: seq<bool>, q: Point, after: StateDto)
    requires 2 <= |task.points| && OnTrajectory(est, task, before) && Resumable(task, before)
    requires q == Walk(est, ResumePoint(task, before), trials) && q.state.Some? && SeenAfterTrial(seen, trials)
    requires after == LeftAfter(est, task, before, ResumePoint(task, before), trials, seen)
    ensures Resumable(task, after)
    ensures ResumePoint(task, after) == if q.state.value.j < |task.points| then q else Start(|task.points|)
  {
    var m := ResumedAt(est, task, before);
    LaterCheckpointResumes(est, task, m, ResumePoint(task, before), trials, q, after);
  }

  /**
   The body of the controller's task: refuse a finished session, run the algorithm, persist what is
   not finished.  It can be repeated for as long as the session is resumed; launching it clears the flag.
   */
  method RunTask(algorithm: TwoOptTspAlgorithm, task: TspTask, controller: EngineTspSolutionController)
    returns (ghost trials: nat)
    requires 2 <= |task.points| && OnTrajectory(algorithm.est, task, controller.container.state)
    modifies controller, controller.container
    ensures OnTrajectory(algorithm.est, task, controller.container.state)
    ensures old(controller.published) <= controller.published
    ensures old(controller.hasFinalSolution) ==>
              controller.published == old(controller.published) && controller.container.persisted == old(controller.container.persisted)
    ensures !old(controller.hasFinalSolution) && controller.hasFinalSolution ==>
              controller.published != [] && controller.published[|controller.published| - 1] == FinalSolution(algorithm.est, task)
    ensures !controller.hasFinalSolution ==>
              controller.container.persisted == Some(controller.container.state) && IsReadLog(controller.seen, trials, false)
    ensures Resumable(task, old(controller.container.state))
    ensures !controller.hasFinalSolution && !SeenAfterTrial(controller.seen, trials) ==>
              controller.container.state == Validated(task, old(controller.container.state))
    ensures !controller.hasFinalSolution && SeenAfterTrial(controller.seen, trials) ==>
              var q := Walk(algorithm.est, ResumePoint(task, old(controller.container.state)), trials);
              && q.state.Some? && Resumable(task, controller.container.state)
              && ResumePoint(task, controller.container.state) == if q.state.value.j < |task.points| then q else Start(|task.points|)
  {
    ghost var before := controller.container.state;
    OnTrajectoryIsResumable(algorithm.est, task, before);
    trials := 0;
    if controller.hasFinalSolution { return; }
    controller.isInterrupted, controller.seen := false, [];
    ghost var n := |controller.published|;
    trials := algorithm.SolveTsp(task, controller);
    ghost var log := controller.published[n..];
    RunStaysOnTrajectory(algorithm.est, task, before, log, trials, controller.container.state);
    if !controller.hasFinalSolution {
      assert controller.seen[0..] == controller.seen;
      if SeenAfterTrial(controller.seen, trials) {
        ghost var q := Walk(algorithm.est, ResumePoint(task, before), trials);
        SeenInterruptResumes(algorithm.est, task, before, trials, controller.seen, q, controller.container.state);
      }
      controller.container.Persist();
    } else {
      ClosingSolution(algorithm.est, task, Session(before, log, trials, controller.container.state));
    }
  }
}
