/**
 The 2-opt search without its surroundings: the enumeration of the moves, the deterministic walk
 over them, and what the end of an uninterrupted walk has achieved.
 */
module TwoOptSearch {
  import opened Concepts
  import opened Tours

  /*---------- Enumeration ----------*/

  /** The move reversing [i, j), in pass k over all moves. */
  datatype State = State(i: int, j: int, k: int, size: int) {
    predicate Valid() {
      0 <= i < j <= size && 0 <= k < size
    }
  }

  function NextState(state: Option<State>): Option<State> {
    match state
    case None => None
    case Some(State(i, j, k, size)) =>
      var (i', j', k') :=
        if size + 1 <= j + 1 then
          if size <= i + 1 then (0, 1, k + 1) else (i + 1, i + 2, k)
        else (i, j + 1, k);
      if size <= k' then None else Some(State(i', j', k', size))
  }

  /** The moves that start before i. */
  function MovesBefore(i: nat, size: nat): nat
    requires i <= size
  {
    if i == 0 then 0 else MovesBefore(i - 1, size) + size - (i - 1)
  }

  function PassLength(size: nat): nat {
    MovesBefore(size, size)
  }

  lemma {:induction false} MovesBeforeClosed(i: nat, size: nat)
    requires i <= size
    ensures 2 * MovesBefore(i, size) == i * (2 * size - i + 1)
  {
    if i > 0 {
      MovesBeforeClosed(i - 1, size);
      assert i * (2 * size - i + 1) == (i - 1) * (2 * size - (i - 1) + 1) + 2 * (size - (i - 1));
    }
  }

  /** How many moves precede this one in the enumeration of all passes. */
  function Rank(state: State): nat
    requires state.Valid()
  {
    state.k * PassLength(state.size) + MovesBefore(state.i, state.size) + (state.j - state.i - 1)
  }

  lemma {:induction false} MovesBeforeGrows(i: nat, i': nat, size: nat)
    requires i <= i' <= size
    ensures MovesBefore(i, size) <= MovesBefore(i', size)
    decreases i'
  {
    if i < i' { MovesBeforeGrows(i, i' - 1, size); }
  }

  /** Within a pass a move's place is below the pass length, and only the last move has the last place. */
  lemma PlaceInPass(i: nat, j: nat, n: nat)
    requires i < j <= n
    ensures var place := MovesBefore(i, n) + (j - i - 1);
            place < PassLength(n) && (place == PassLength(n) - 1 <==> i == n - 1 && j == n)
  {
    assert MovesBefore(i + 1, n) == MovesBefore(i, n) + n - i;
    if i + 1 < n {
      assert MovesBefore(i + 2, n) == MovesBefore(i + 1, n) + n - (i + 1);
      MovesBeforeGrows(i + 2, n, n);
    }
  }

  lemma {:induction false} PassesAddUp(k: nat, n: nat, length: nat)
    requires k < n
    ensures k * length + length <= n * length
    ensures k + 1 < n ==> k * length + 2 * length <= n * length
  {
    assert n * length == (n - 1) * length + length;
    if k + 1 < n { PassesAddUp(k, n - 1, length); }
  }

  lemma PlaceInAllPasses(k: nat, n: nat, place: nat, length: nat)
    requires k < n && place < length
    ensures k * length + place < n * length
    ensures k * length + place == n * length - 1 <==> k == n - 1 && place == length - 1
  {
    PassesAddUp(k, n, length);
    if k == n - 1 { assert n * length == k * length + length; }
  }

  /** Ranks are less than the number of moves in all passes, and the last move has the greatest. */
  lemma RankIsBounded(state: State)
    requires state.Valid()
    ensures Rank(state) < state.size * PassLength(state.size)
    ensures Rank(state) == state.size * PassLength(state.size) - 1 <==> NextState(Some(state)) == None
  {
    PlaceInPass(state.i, state.j, state.size);
    PlaceInAllPasses(state.k, state.size, MovesBefore(state.i, state.size) + (state.j - state.i - 1), PassLength(state.size));
  }

  lemma {:induction false} MovesBeforeAtLeast(i: nat, size: nat)
    requires i <= size
    ensures i <= MovesBefore(i, size)
  {
    if i > 0 { MovesBeforeAtLeast(i - 1, size); }
  }

  lemma OnlyFirstHasRankZero(state: State)
    requires state.Valid()
    ensures state.k + state.j - 1 <= Rank(state)
    ensures Rank(state) == 0 ==> state == State(0, 1, 0, state.size)
  {
    PlaceInPass(0, 1, state.size);
    assert state.k * 1 <= state.k * PassLength(state.size);
    MovesBeforeAtLeast(state.i, state.size);
  }

  lemma NextRaisesRank(state: State)
    requires state.Valid()
    ensures var next := NextState(Some(state));
            next.Some? ==> next.value.Valid() && next.value.size == state.size && Rank(next.value) == Rank(state) + 1
  {
    var State(i, j, k, n) := state;
    if n <= j && n <= i + 1 {
      assert (k + 1) * PassLength(n) == k * PassLength(n) + PassLength(n);
      assert MovesBefore(n, n) == MovesBefore(n - 1, n) + n - (n - 1);
    }
  }

  /** The first move of a fresh search; the move reversing [0, 1) would change nothing. */
  function InitialState(size: int): State {
    State(0, 2, 0, size)
  }

  /** Every move but the very first has a predecessor. */
  function Previous(state: State): (prev: State)
    requires state.Valid() && Rank(state) > 0
    ensures prev.Valid() && prev.size == state.size && NextState(Some(prev)) == Some(state)
  {
    var State(i, j, k, n) := state;
    if i + 1 < j then State(i, j - 1, k, n)
    else if i > 0 then State(i - 1, n, k, n)
    else
      assert k * PassLength(n) > 0;
      State(n - 1, n, k - 1, n)
  }

  /*---------- The walk ----------*/

  /** Cost and validity of a visiting order, as deterministic functions of it. */
  datatype Estimator = Estimator(cost: seq<int> -> real, valid: seq<int> -> bool)

  ghost predicate Accepts(est: Estimator, s: seq<int>, state: State)
    requires state.Valid() && |s| == state.size
  {
    est.valid(Reversed(s, state.i, state.j)) && est.cost(Reversed(s, state.i, state.j)) < est.cost(s)
  }

  /** Where the search stands: the best order so far, and the next move unless there is none. */
  datatype Point = Point(best: seq<int>, state: Option<State>) {
    ghost predicate Valid() {
      state.Some? ==> state.value.Valid() && |best| == state.value.size
    }
  }

  ghost function Start(size: nat): Point {
    Point(Identity(size), Some(InitialState(size)))
  }

  ghost function Advance(est: Estimator, p: Point): (q: Point)
    requires p.Valid()
    ensures q.Valid()
  {
    if p.state.None? then p
    else
      var state := p.state.value;
      NextRaisesRank(state);
      Point(if Accepts(est, p.best, state) then Reversed(p.best, state.i, state.j) else p.best, NextState(p.state))
  }

  /** The search after some trials from a point, or where it ends if there are not so many. */
  ghost function Walk(est: Estimator, p: Point, trials: nat): (q: Point)
    requires p.Valid()
    ensures q.Valid()
  {
    if trials == 0 then p else Advance(est, Walk(est, p, trials - 1))
  }

  lemma {:induction false} WalkComposes(est: Estimator, p: Point, a: nat, b: nat)
    requires p.Valid()
    ensures Walk(est, Walk(est, p, a), b) == Walk(est, p, a + b)
  {
    if b > 0 { WalkComposes(est, p, a, b - 1); }
  }

  /** The trials still to be made from a point. */
  ghost function Remaining(p: Point): (trials: nat)
    requires p.Valid()
    ensures p.state.Some? <==> 0 < trials
  {
    if p.state.None? then 0
    else
      RankIsBounded(p.state.value);
      p.state.value.size * PassLength(p.state.value.size) - Rank(p.state.value)
  }

  lemma AdvanceCountsDown(est: Estimator, p: Point)
    requires p.Valid() && p.state.Some?
    ensures Remaining(Advance(est, p)) == Remaining(p) - 1
  {
    RankIsBounded(p.state.value);
    NextRaisesRank(p.state.value);
  }

  lemma {:induction false} WalkCountsDown(est: Estimator, p: Point, trials: nat)
    requires p.Valid()
    ensures Remaining(Walk(est, p, trials)) == Max(0, Remaining(p) - trials)
  {
    if trials > 0 {
      WalkCountsDown(est, p, trials - 1);
      var q := Walk(est, p, trials - 1);
      if q.state.Some? { AdvanceCountsDown(est, q); }
    }
  }

  lemma AllPassesClosed(size: nat)
    ensures 2 * (size * PassLength(size)) == size * (size * (size + 1))
  {
    MovesBeforeClosed(size, size);
    calc {
      2 * (size * PassLength(size));
      size * (2 * PassLength(size));
      size * (size * (size + 1));
    }
  }

  lemma FreshSearchRemaining(size: nat)
    requires 2 <= size
    ensures 2 * (Remaining(Start(size)) + 1) == size * (size * (size + 1))
  {
    assert MovesBefore(0, size) == 0;
    assert Rank(InitialState(size)) == 1;
    AllPassesClosed(size);
  }

  /** A fresh uninterrupted search makes exactly this many trials and then has no next move. */
  lemma FreshSearchLength(est: Estimator, size: nat, trials: nat)
    requires 2 <= size
    ensures Start(size).Valid()
    ensures Walk(est, Start(size), trials).state.Some? <==> 2 * (trials + 1) < size * (size * (size + 1))
  {
    WalkCountsDown(est, Start(size), trials);
    FreshSearchRemaining(size);
  }

  /** The best order when an uninterrupted search from the point has run out of moves. */
  ghost function Final(est: Estimator, p: Point): seq<int>
    requires p.Valid()
  {
    Walk(est, p, Remaining(p)).best
  }

  lemma {:induction false} WalkStaysAtEnd(est: Estimator, p: Point, trials: nat)
    requires p.Valid() && p.state.None?
    ensures Walk(est, p, trials) == p
  {
    if trials > 0 { WalkStaysAtEnd(est, p, trials - 1); }
  }

  lemma WalkBeyondEnd(est: Estimator, p: Point, trials: nat)
    requires p.Valid() && Remaining(p) <= trials
    ensures Walk(est, p, trials) == Walk(est, p, Remaining(p))
  {
    var end := Walk(est, p, Remaining(p));
    WalkCountsDown(est, p, Remaining(p));
    WalkComposes(est, p, Remaining(p), trials - Remaining(p));
    WalkStaysAtEnd(est, end, trials - Remaining(p));
  }

  /** Wherever a walk is resumed, it ends in the same order. */
  lemma FinalIsUnique(est: Estimator, p: Point, trials: nat)
    requires p.Valid()
    ensures Final(est, Walk(est, p, trials)) == Final(est, p)
    ensures Walk(est, p, trials).state.None? ==> Walk(est, p, trials).best == Final(est, p)
  {
    WalkCountsDown(est, p, trials);
    WalkComposes(est, p, trials, Remaining(Walk(est, p, trials)));
    if Remaining(p) <= trials { WalkBeyondEnd(est, p, trials); }
  }

  lemma {:induction false} WalkKeepsPermutation(est: Estimator, p: Point, trials: nat, n: nat)
    requires p.Valid() && IsPermutation(p.best, n)
    ensures IsPermutation(Walk(est, p, trials).best, n)
  {
    if trials > 0 {
      WalkKeepsPermutation(est, p, trials - 1, n);
      var q := Walk(est, p, trials - 1);
      if q.state.Some? { ReversedKeepsPermutation(q.best, q.state.value.i, q.state.value.j, n); }
    }
  }

  /** The cost never rises, and stays the same only while the order does. */
  lemma {:induction false} WalkCostFalls(est: Estimator, p: Point, first: nat, last: nat)
    requires p.Valid() && first <= last
    ensures var a, b := Walk(est, p, first).best, Walk(est, p, last).best;
            est.cost(b) < est.cost(a) || a == b
    decreases last
  {
    if first < last { WalkCostFalls(est, p, first, last - 1); }
  }

  /*---------- Local optimality ----------*/

  /** No valid reversal of any stretch is cheaper. */
  ghost predicate LocallyOptimal(est: Estimator, s: seq<int>) {
    forall i, j :: 0 <= i < j <= |s| && est.valid(Reversed(s, i, j)) ==> est.cost(s) <= est.cost(Reversed(s, i, j))
  }

  lemma WalkState(est: Estimator, size: nat, trials: nat)
    requires 2 <= size && Walk(est, Start(size), trials).state.Some?
    ensures var state := Walk(est, Start(size), trials).state.value;
            state.size == size && Rank(state) == trials + 1
  {
    if trials > 0 {
      WalkState(est, size, trials - 1);
      NextRaisesRank(Walk(est, Start(size), trials - 1).state.value);
    }
  }

  /** The walk tries every move: the one of rank r in its trial r. */
  lemma {:induction false} EveryMoveIsTried(est: Estimator, state: State)
    requires state.Valid() && 2 <= state.size && 0 < Rank(state)
    ensures Walk(est, Start(state.size), Rank(state) - 1).state == Some(state)
    decreases Rank(state)
  {
    var prev := Previous(state);
    NextRaisesRank(prev);
    if Rank(prev) == 0 {
      OnlyFirstHasRankZero(prev);
    } else {
      EveryMoveIsTried(est, prev);
    }
  }

  /** The trials made before pass k begins; pass 0 begins with the search, at its second move. */
  function PassBegin(k: nat, size: nat): (trials: int) {
    Max(0, k * PassLength(size) - 1)
  }

  /** The best order when pass k begins. */
  ghost function BestAtPass(est: Estimator, k: nat, size: nat): seq<int>
    requires 2 <= size
  {
    Walk(est, Start(size), PassBegin(k, size)).best
  }

  lemma {:induction false} Unchanged(est: Estimator, p: Point, first: nat, mid: nat, last: nat)
    requires p.Valid() && first <= mid <= last
    requires Walk(est, p, first).best == Walk(est, p, last).best
    ensures Walk(est, p, mid).best == Walk(est, p, first).best
  {
    WalkCostFalls(est, p, first, mid);
    WalkCostFalls(est, p, mid, last);
  }

  lemma PassBounds(k: nat, state: State)
    requires state.Valid() && state.k == k && 2 <= state.size && 0 < Rank(state)
    ensures PassBegin(k, state.size) <= Rank(state) - 1 < PassBegin(k + 1, state.size)
  {
    PlaceInPass(state.i, state.j, state.size);
    assert (k + 1) * PassLength(state.size) == k * PassLength(state.size) + PassLength(state.size);
  }

  /** A trial made while the best order stays the same has not accepted its move. */
  lemma TrialChangesNothing(est: Estimator, p: Point, first: nat, trials: nat, last: nat, state: State)
    requires p.Valid() && first <= trials < last && Walk(est, p, first).best == Walk(est, p, last).best
    requires Walk(est, p, trials).state == Some(state)
    ensures var q := Point(Walk(est, p, first).best, Some(state)); q.Valid() && Advance(est, q).best == q.best
  {
    Unchanged(est, p, first, trials, last);
    Unchanged(est, p, first, trials + 1, last);
  }

  lemma IdlePassTriesMove(est: Estimator, state: State)
    requires state.Valid() && 2 <= state.size && 0 < Rank(state)
    requires BestAtPass(est, state.k, state.size) == BestAtPass(est, state.k + 1, state.size)
    ensures var p := Point(BestAtPass(est, state.k, state.size), Some(state)); p.Valid() && Advance(est, p).best == p.best
  {
    EveryMoveIsTried(est, state);
    PassBounds(state.k, state);
    TrialChangesNothing(est, Start(state.size), PassBegin(state.k, state.size), Rank(state) - 1, PassBegin(state.k + 1, state.size), state);
  }

  /** A pass that changes nothing has tried every move on one order, which is locally optimal. */
  lemma IdlePassIsLocallyOptimal(est: Estimator, k: nat, size: nat)
    requires k < size && 2 <= size && BestAtPass(est, k, size) == BestAtPass(est, k + 1, size)
    ensures LocallyOptimal(est, BestAtPass(est, k, size))
  {
    var s := BestAtPass(est, k, size);
    WalkKeepsPermutation(est, Start(size), PassBegin(k, size), size);
    forall i, j | 0 <= i < j <= |s| && est.valid(Reversed(s, i, j)) ensures est.cost(s) <= est.cost(Reversed(s, i, j)) {
      var state := State(i, j, k, size);
      if Rank(state) == 0 {
        OnlyFirstHasRankZero(state);
        assert Reversed(s, 0, 1) == s;
      } else {
        IdlePassTriesMove(est, state);
      }
    }
  }

  /** From a locally optimal order on, the search changes nothing any more. */
  lemma {:induction false} LocalOptimumStays(est: Estimator, p: Point, trials: nat)
    requires p.Valid() && LocallyOptimal(est, p.best)
    ensures Walk(est, p, trials).best == p.best
  {
    if trials > 0 { LocalOptimumStays(est, p, trials - 1); }
  }

  /** The end result is locally optimal, unless every single pass has found a cheaper order. */
  lemma FinalIsLocallyOptimalOrAllPassesImprove(est: Estimator, size: nat, k: nat)
    requires 2 <= size && k < size
    ensures LocallyOptimal(est, Final(est, Start(size)))
         || est.cost(BestAtPass(est, k + 1, size)) < est.cost(BestAtPass(est, k, size))
  {
    var first, last := PassBegin(k, size), PassBegin(k + 1, size);
    assert first <= last by { assert (k + 1) * PassLength(size) == k * PassLength(size) + PassLength(size); }
    WalkCostFalls(est, Start(size), first, last);
    if BestAtPass(est, k, size) == BestAtPass(est, k + 1, size) {
      IdlePassIsLocallyOptimal(est, k, size);
      var p := Walk(est, Start(size), first);
      LocalOptimumStays(est, p, Remaining(p));
      FinalIsUnique(est, Start(size), first);
    }
  }

  /** With symmetric distances and no order ruled out: locally optimal means no exchange of two edges helps. */
  lemma LocallyOptimalIffNoExchangeHelps(est: Estimator, d: Distances, s: seq<int>)
    requires Symmetric(d)
    requires forall r :: est.valid(r)
    requires forall r :: est.cost(r) == PathCost(d, r)
    ensures LocallyOptimal(est, s) <==> forall i, j :: 0 <= i < j <= |s| ==> 0.0 <= ExchangeDelta(d, s, i, j)
  {
    forall i, j | 0 <= i < j <= |s| ensures est.cost(Reversed(s, i, j)) - est.cost(s) == ExchangeDelta(d, s, i, j) {
      ReversalExchangesTwoEdges(d, s, i, j);
    }
  }
}
