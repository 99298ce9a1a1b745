/** How many different costs a 2-opt search of any size can take and still be sure to end locally optimal. */
module TwoOptTightness {
  import opened Concepts
  import opened Tours
  import opened TwoOptSearch
  import opened TwoOptOptimality

  /*---------- A chain of orders ----------*/

  /**
   The orders that a search of n points is led along: the last point moves to the second place, and
   then the first four places are rearranged. Each order is one reversal away from the next.
   */
  function ChainAt(n: nat, r: nat, p: nat): int {
    if r <= n - 2 then if p < n - 1 - r then p else if p == n - 1 - r then n - 1 else p - 1
    else if 4 <= p then p - 1
    else if p == 3 then 0
    else if r == n - 1 then if p == 0 then 2 else if p == 1 then 1 else n - 1
    else if r == n then if p == 0 then n - 1 else p
    else if p == 0 then 1 else if p == 1 then n - 1 else 2
  }

  function Chain(n: nat, r: nat): (s: seq<int>)
    ensures |s| == n
  {
    seq(n, p requires 0 <= p < n => ChainAt(n, r, p))
  }

  /** The move that leads to the chain's order r: moves that come ever earlier in a pass. */
  function MoveTo(n: nat, r: nat): (nat, nat)
    requires 4 <= n && 0 < r <= n + 1
  {
    if r <= n - 2 then (n - 1 - r, n + 1 - r) else (0, n + 3 - r)
  }

  lemma MovesLeadOn(n: nat, r: nat)
    requires 4 <= n && 0 < r <= n + 1
    ensures var (i, j) := MoveTo(n, r); i + 2 <= j <= n && Reversed(Chain(n, r - 1), i, j) == Chain(n, r)
  {
  }

  lemma FirstIsIdentity(n: nat)
    requires 4 <= n
    ensures Chain(n, 0) == Identity(n)
  {
  }

  /** What a reversal must look like that leads from one order of the chain to a later one: the places it maps. */
  lemma ReversalMaps(n: nat, p: nat, q: nat, i: nat, j: nat, t: nat)
    requires i < j <= n && t < n && Reversed(Chain(n, p), i, j) == Chain(n, q)
    ensures ChainAt(n, q, t) == ChainAt(n, p, if i <= t < j then i + j - 1 - t else t)
  {
    assert Chain(n, q)[t] == Reversed(Chain(n, p), i, j)[t];
  }

  lemma OnlyNextWhileMoving(n: nat, p: nat, q: nat, i: nat, j: nat)
    requires 4 <= n && p < q <= n - 2 && i < j <= n && Reversed(Chain(n, p), i, j) == Chain(n, q)
    ensures q == p + 1 && (i, j) == MoveTo(n, q)
  {
    ReversalMaps(n, p, q, i, j, n - 1 - q);
    ReversalMaps(n, p, q, i, j, n - 1 - p);
    ReversalMaps(n, p, q, i, j, i);
  }

  lemma OnlyNextWhenRearranging(n: nat, p: nat, q: nat, i: nat, j: nat)
    requires 4 <= n && p < q && n - 2 < q <= n + 1 && i < j <= n && Reversed(Chain(n, p), i, j) == Chain(n, q)
    ensures q == p + 1 && (i, j) == MoveTo(n, q)
  {
    ReversalMaps(n, p, q, i, j, 0);
    ReversalMaps(n, p, q, i, j, 1);
    ReversalMaps(n, p, q, i, j, 2);
  }

  /** No reversal leads from one order of the chain to a later one, but the one move to the next. */
  lemma OnlyNext(n: nat, p: nat, q: nat, i: nat, j: nat)
    requires 4 <= n && p < q <= n + 1 && i < j <= n && Reversed(Chain(n, p), i, j) == Chain(n, q)
    ensures q == p + 1 && (i, j) == MoveTo(n, q)
  {
    if q <= n - 2 { OnlyNextWhileMoving(n, p, q, i, j); } else { OnlyNextWhenRearranging(n, p, q, i, j); }
  }

  lemma ChainIsDistinct(n: nat, p: nat, q: nat)
    requires 4 <= n && p < q <= n + 1
    ensures Chain(n, p) != Chain(n, q)
  {
    if Chain(n, p) == Chain(n, q) {
      assert Reversed(Chain(n, p), 0, 1) == Chain(n, q);
      OnlyNext(n, p, q, 0, 1);
      MovesLeadOn(n, q);
    }
  }

  /*---------- Costs that fall along the chain ----------*/

  /** Each order of the chain, up to r, is cheaper by one than the order before; all others cost as much as the first. */
  function CostUpTo(n: nat, s: seq<int>, r: nat): real {
    if r == 0 then (n + 1) as real else if s == Chain(n, r) then (n + 1 - r) as real else CostUpTo(n, s, r - 1)
  }

  function AlongChain(n: nat): Estimator {
    Estimator((s: seq<int>) => CostUpTo(n, s, n + 1), (s: seq<int>) => true)
  }

  lemma {:induction false} CostUpToOfChain(n: nat, p: nat, r: nat)
    requires 4 <= n && p <= r <= n + 1
    ensures CostUpTo(n, Chain(n, p), r) == (n + 1 - p) as real
  {
    if p < r {
      ChainIsDistinct(n, p, r);
      CostUpToOfChain(n, p, r - 1);
    } else if 0 < r {
      assert CostUpTo(n, Chain(n, r), r) == (n + 1 - r) as real;
    }
  }

  lemma CostOfChain(n: nat, p: nat)
    requires 4 <= n && p <= n + 1
    ensures AlongChain(n).cost(Chain(n, p)) == (n + 1 - p) as real
  {
    CostUpToOfChain(n, p, n + 1);
  }

  lemma {:induction false} CostAtLeast(n: nat, s: seq<int>, r: nat)
    requires r <= n + 1
    ensures (n + 1 - r) as real <= CostUpTo(n, s, r) <= (n + 1) as real
  {
    if r > 0 { CostAtLeast(n, s, r - 1); }
  }

  lemma {:induction false} CheaperIsOnChain(n: nat, s: seq<int>, p: nat, r: nat) returns (q: nat)
    requires p <= r <= n + 1 && CostUpTo(n, s, r) < (n + 1 - p) as real
    ensures p < q <= r && s == Chain(n, q)
    decreases r
  {
    CostAtLeast(n, s, r);
    if s == Chain(n, r) && 0 < r {
      q := r;
    } else {
      q := CheaperIsOnChain(n, s, p, r - 1);
    }
  }

  lemma CheaperNeighbourIsNext(n: nat, p: nat, i: nat, j: nat)
    requires 4 <= n && p <= n && i < j <= n
    requires AlongChain(n).cost(Reversed(Chain(n, p), i, j)) < AlongChain(n).cost(Chain(n, p))
    ensures (i, j) == MoveTo(n, p + 1)
  {
    CostOfChain(n, p);
    var q := CheaperIsOnChain(n, Reversed(Chain(n, p), i, j), p, n + 1);
    OnlyNext(n, p, q, i, j);
  }

  lemma NextIsCheaper(n: nat, p: nat)
    requires 4 <= n && p <= n
    ensures var (i, j) := MoveTo(n, p + 1);
            i < j <= n && AlongChain(n).cost(Reversed(Chain(n, p), i, j)) < AlongChain(n).cost(Chain(n, p))
  {
    MovesLeadOn(n, p + 1);
    CostOfChain(n, p);
    CostOfChain(n, p + 1);
  }

  /** From an order of the chain just the one move is accepted. */
  lemma OnlyNextIsAccepted(n: nat, p: nat, state: State)
    requires 4 <= n && p <= n && state.Valid() && state.size == n
    ensures Accepts(AlongChain(n), Chain(n, p), state) <==> (state.i, state.j) == MoveTo(n, p + 1)
  {
    if Accepts(AlongChain(n), Chain(n, p), state) { CheaperNeighbourIsNext(n, p, state.i, state.j); }
    NextIsCheaper(n, p);
  }

  /*---------- The search along the chain ----------*/

  predicate Before(i: nat, j: nat, move: (nat, nat)) {
    i < move.0 || (i == move.0 && j < move.1)
  }

  /** The place on the chain of the best order when a move comes up for trial. */
  function PlaceOnChain(state: State): nat
    requires state.Valid() && 4 <= state.size
  {
    var move := MoveTo(state.size, state.k + 1);
    if Before(state.i, state.j, move) || (state.i, state.j) == move then state.k else state.k + 1
  }

  lemma PlaceAdvances(state: State, next: State)
    requires state.Valid() && 4 <= state.size && NextState(Some(state)) == Some(next) && next.Valid()
    ensures var p := PlaceOnChain(state);
            PlaceOnChain(next) == if (state.i, state.j) == MoveTo(state.size, p + 1) then p + 1 else p
  {
  }

  /** Under the estimator the chain's own moves, and no others, are accepted from its orders. */
  ghost predicate LeadsAlongChain(est: Estimator, n: nat)
    requires 4 <= n
  {
    forall p: nat, state: State :: p <= n && state.Valid() && state.size == n ==>
      (Accepts(est, Chain(n, p), state) <==> (state.i, state.j) == MoveTo(n, p + 1))
  }

  lemma AlongChainLeads(n: nat)
    requires 4 <= n
    ensures LeadsAlongChain(AlongChain(n), n)
    ensures !LocallyOptimal(AlongChain(n), Chain(n, n))
  {
    forall p: nat, state: State | p <= n && state.Valid() && state.size == n
      ensures Accepts(AlongChain(n), Chain(n, p), state) <==> (state.i, state.j) == MoveTo(n, p + 1)
    {
      OnlyNextIsAccepted(n, p, state);
    }
    NextIsCheaper(n, n);
  }

  lemma TrialFollowsChain(est: Estimator, state: State, next: State)
    requires state.Valid() && 4 <= state.size && LeadsAlongChain(est, state.size)
    requires NextState(Some(state)) == Some(next) && next.Valid()
    ensures Advance(est, Point(Chain(state.size, PlaceOnChain(state)), Some(state)))
         == Point(Chain(state.size, PlaceOnChain(next)), Some(next))
  {
    PlaceAdvances(state, next);
    MovesLeadOn(state.size, PlaceOnChain(state) + 1);
    assert Accepts(est, Chain(state.size, PlaceOnChain(state)), state) <==> (state.i, state.j) == MoveTo(state.size, PlaceOnChain(state) + 1);
  }

  /** One pass for each order of the chain. */
  lemma {:induction false} SearchFollowsChain(est: Estimator, n: nat, trials: nat, state: State)
    requires 4 <= n && LeadsAlongChain(est, n) && Walk(est, Start(n), trials).state == Some(state)
    ensures state.Valid() && state.size == n
    ensures Walk(est, Start(n), trials).best == Chain(n, PlaceOnChain(state))
    decreases trials
  {
    if trials == 0 {
      FirstIsIdentity(n);
    } else {
      var prev := Walk(est, Start(n), trials - 1).state.value;
      SearchFollowsChain(est, n, trials - 1, prev);
      TrialFollowsChain(est, prev, state);
    }
  }

  lemma LastTrialChangesNothing(est: Estimator, n: nat, last: State)
    requires 4 <= n && LeadsAlongChain(est, n) && last == State(n - 1, n, n - 1, n)
    ensures PlaceOnChain(last) == n
    ensures Advance(est, Point(Chain(n, n), Some(last))) == Point(Chain(n, n), None)
  {
    assert Accepts(est, Chain(n, n), last) <==> (last.i, last.j) == MoveTo(n, n + 1);
  }

  lemma LastMoveIsTried(est: Estimator, n: nat) returns (trials: nat)
    requires 2 <= n
    ensures Walk(est, Start(n), trials).state == Some(State(n - 1, n, n - 1, n))
  {
    var last := State(n - 1, n, n - 1, n);
    OnlyFirstHasRankZero(last);
    EveryMoveIsTried(est, last);
    trials := Rank(last) - 1;
  }

  lemma ChainIsWalkedAfter(est: Estimator, n: nat, trials: nat)
    requires 4 <= n && LeadsAlongChain(est, n) && Walk(est, Start(n), trials).state == Some(State(n - 1, n, n - 1, n))
    ensures Walk(est, Start(n), trials + 1) == Point(Chain(n, n), None)
  {
    var last := State(n - 1, n, n - 1, n);
    SearchFollowsChain(est, n, trials, last);
    LastTrialChangesNothing(est, n, last);
  }

  /** So it ends one order before the end of the chain. */
  lemma SearchEndsOnChain(est: Estimator, n: nat)
    requires 4 <= n && LeadsAlongChain(est, n)
    ensures Final(est, Start(n)) == Chain(n, n)
  {
    var trials := LastMoveIsTried(est, n);
    ChainIsWalkedAfter(est, n, trials);
    FinalIsUnique(est, Start(n), trials + 1);
  }

  /*---------- The number of costs ----------*/

  function Values(n: nat): (values: set<real>)
    ensures |values| == n + 1
    ensures forall c :: c in values ==> c <= n as real
  {
    if n == 0 then {0.0} else Values(n - 1) + {n as real}
  }

  lemma {:induction false} ValuesInclude(n: nat, c: nat)
    requires c <= n
    ensures c as real in Values(n)
  {
    if c < n { ValuesInclude(n - 1, c); }
  }

  lemma ChainHasFewCosts(n: nat)
    requires 4 <= n
    ensures HasCheaperCosts(AlongChain(n), n, Values(n))
  {
    var est := AlongChain(n);
    FirstIsIdentity(n);
    CostOfChain(n, 0);
    forall s | est.cost(s) < est.cost(Identity(n)) ensures est.cost(s) in Values(n) {
      var q := CheaperIsOnChain(n, s, 0, n + 1);
      CostOfChain(n, q);
      ValuesInclude(n, n + 1 - q);
    }
  }

  /*---------- Two and three points ----------*/

  lemma TwoPointsEndLocallyOptimal(est: Estimator)
    ensures LocallyOptimal(est, Final(est, Start(2)))
  {
    forall s | IsPermutation(s, 2) && est.cost(s) < est.cost(Identity(2)) ensures est.cost(s) in {est.cost([1, 0])} {
      assert s != Identity(2);
      assert s == [1, 0];
    }
    FewCostsMakeLocallyOptimal(est, 2, {est.cost([1, 0])});
  }

  /** The six orders of three points. */
  function Order(x: int): (s: seq<int>)
    ensures |s| == 3
  {
    if x == 0 then [0, 1, 2] else if x == 1 then [1, 0, 2] else if x == 2 then [2, 1, 0]
    else if x == 3 then [0, 2, 1] else if x == 4 then [1, 2, 0] else [2, 0, 1]
  }

  /** The three stretches of three points that are worth reversing. */
  function Stretch(move: int): (nat, nat) {
    if move == 0 then (0, 2) else if move == 1 then (0, 3) else (1, 3)
  }

  function Neighbour(x: int, move: int): int {
    if move == 0 then
      if x == 0 then 1 else if x == 1 then 0 else if x == 2 then 4 else if x == 4 then 2 else if x == 3 then 5 else 3
    else if move == 1 then
      if x == 0 then 2 else if x == 2 then 0 else if x == 1 then 5 else if x == 5 then 1 else if x == 3 then 4 else 3
    else
      if x == 0 then 3 else if x == 3 then 0 else if x == 1 then 4 else if x == 4 then 1 else if x == 2 then 5 else 2
  }

  lemma NeighbourIsReversal(x: int, move: int)
    requires 0 <= x < 6 && 0 <= move < 3
    ensures var (i, j) := Stretch(move); Reversed(Order(x), i, j) == Order(Neighbour(x, move)) && 0 <= Neighbour(x, move) < 6
  {
  }

  /** An invalid order, unless the search begins with it, counts as dearer than the first. */
  ghost function Worth(est: Estimator): int -> real {
    (x: int) => if x == 0 || est.valid(Order(x)) then est.cost(Order(x)) else est.cost(Order(0)) + 1.0
  }

  function Moved(worth: int -> real, x: int, move: int): int {
    if worth(Neighbour(x, move)) < worth(x) then Neighbour(x, move) else x
  }

  function Passed(worth: int -> real, x: int): int {
    Moved(worth, Moved(worth, Moved(worth, x, 0), 1), 2)
  }

  /** No neighbour is worth less. */
  predicate IsCheapest(worth: int -> real, x: int) {
    0 <= x < 6 && worth(x) <= worth(Neighbour(x, 0)) && worth(x) <= worth(Neighbour(x, 1)) && worth(x) <= worth(Neighbour(x, 2))
  }

  lemma ThreePassesWithFirstMove(worth: int -> real, a: int, b: int, c: int)
    requires worth(1) < worth(0) && a == Moved(worth, Moved(worth, 1, 1), 2)
    requires b == Passed(worth, a) && c == Passed(worth, b)
    ensures IsCheapest(worth, c)
  {
  }

  lemma ThreePassesWithoutFirstMove(worth: int -> real, a: int, b: int, c: int)
    requires worth(0) <= worth(1) && a == Moved(worth, Moved(worth, 0, 1), 2)
    requires b == Passed(worth, a) && c == Passed(worth, b)
    ensures IsCheapest(worth, c)
  {
  }

  /** Whatever the orders are worth, three passes end where no neighbour is worth less. */
  lemma ThreePassesSuffice(worth: int -> real, a: int, b: int, c: int)
    requires a == Passed(worth, 0) && b == Passed(worth, a) && c == Passed(worth, b)
    ensures IsCheapest(worth, c)
  {
    if worth(1) < worth(0) { ThreePassesWithFirstMove(worth, a, b, c); } else { ThreePassesWithoutFirstMove(worth, a, b, c); }
  }

  /** The order is one a search can be at. */
  ghost predicate Reached(est: Estimator, x: int) {
    0 <= x < 6 && (x == 0 || est.valid(Order(x))) && est.cost(Order(x)) <= est.cost(Order(0))
  }

  lemma TryMoves(est: Estimator, x: int, move: int)
    requires Reached(est, x) && 0 <= move < 3
    ensures var (i, j) := Stretch(move); Try(est, Order(x), i, j) == Order(Moved(Worth(est), x, move))
    ensures Reached(est, Moved(Worth(est), x, move))
  {
    NeighbourIsReversal(x, move);
  }

  ghost function PassOfThree(est: Estimator, s: seq<int>): (r: seq<int>)
    requires |s| == 3
    ensures |r| == 3
  {
    Try(est, Try(est, Try(est, s, 0, 2), 0, 3), 1, 3)
  }

  lemma PassOfThreeMoves(est: Estimator, x: int)
    requires Reached(est, x)
    ensures PassOfThree(est, Order(x)) == Order(Passed(Worth(est), x)) && Reached(est, Passed(Worth(est), x))
  {
    var worth := Worth(est);
    TryMoves(est, x, 0);
    TryMoves(est, Moved(worth, x, 0), 1);
    TryMoves(est, Moved(worth, Moved(worth, x, 0), 1), 2);
  }

  lemma WalkPassOfThree(est: Estimator, p: Point, trials: nat, s: seq<int>, k: nat)
    requires p.Valid() && |s| == 3 && k < 3 && Walk(est, p, trials) == At(s, 0, 2, k)
    ensures Walk(est, p, trials + 5) == Point(PassOfThree(est, s), if k < 2 then Some(State(0, 1, k + 1, 3)) else None)
  {
    OneTrial(est, p, trials, s, 0, 2, k);
    OneTrial(est, p, trials + 1, Try(est, s, 0, 2), 0, 3, k);
    WalkEndOfThree(est, p, trials + 2, Try(est, Try(est, s, 0, 2), 0, 3), k);
  }

  lemma WalkEndOfThree(est: Estimator, p: Point, trials: nat, s: seq<int>, k: nat)
    requires p.Valid() && |s| == 3 && k < 3 && Walk(est, p, trials) == At(s, 1, 2, k)
    ensures Walk(est, p, trials + 3) == Point(Try(est, s, 1, 3), if k < 2 then Some(State(0, 1, k + 1, 3)) else None)
  {
    OneTrial(est, p, trials, s, 1, 2, k);
    SingleChangesNothing(est, s, 1);
    OneTrial(est, p, trials + 1, s, 1, 3, k);
    OneTrial(est, p, trials + 2, Try(est, s, 1, 3), 2, 3, k);
    SingleChangesNothing(est, Try(est, s, 1, 3), 2);
  }

  lemma WalkToNextPassOfThree(est: Estimator, p: Point, trials: nat, s: seq<int>, k: nat)
    requires p.Valid() && |s| == 3 && k < 2 && Walk(est, p, trials) == At(s, 0, 2, k)
    ensures Walk(est, p, trials + 6) == At(PassOfThree(est, s), 0, 2, k + 1)
  {
    WalkPassOfThree(est, p, trials, s, k);
    OneTrial(est, p, trials + 5, PassOfThree(est, s), 0, 1, k + 1);
    SingleChangesNothing(est, PassOfThree(est, s), 0);
  }

  lemma ThreePasses(est: Estimator)
    ensures Final(est, Start(3)) == PassOfThree(est, PassOfThree(est, PassOfThree(est, [0, 1, 2])))
  {
    assert Identity(3) == [0, 1, 2];
    var p, s := Start(3), [0, 1, 2];
    assert Walk(est, p, 0) == At(s, 0, 2, 0);
    WalkToNextPassOfThree(est, p, 0, s, 0);
    s := PassOfThree(est, s);
    WalkToNextPassOfThree(est, p, 6, s, 1);
    s := PassOfThree(est, s);
    WalkPassOfThree(est, p, 12, s, 2);
    FinalIsUnique(est, p, 17);
  }

  lemma CheapestNeighbour(est: Estimator, x: int)
    requires Reached(est, x) && IsCheapest(Worth(est), x)
    ensures LocallyOptimal(est, Order(x))
  {
    var s := Order(x);
    forall i, j | 0 <= i < j <= 3 && est.valid(Reversed(s, i, j)) ensures est.cost(s) <= est.cost(Reversed(s, i, j)) {
      if j == i + 1 {
        assert Reversed(s, i, j) == s;
      } else {
        var move := if j == 2 then 0 else if i == 0 then 1 else 2;
        NeighbourIsReversal(x, move);
        assert Worth(est)(x) <= Worth(est)(Neighbour(x, move));
      }
    }
  }

  lemma ThreePointsEndLocallyOptimal(est: Estimator)
    ensures LocallyOptimal(est, Final(est, Start(3)))
  {
    var worth := Worth(est);
    var a := Passed(worth, 0);
    var b := Passed(worth, a);
    PassOfThreeMoves(est, 0);
    PassOfThreeMoves(est, a);
    PassOfThreeMoves(est, b);
    ThreePasses(est);
    ThreePassesSuffice(worth, a, b, Passed(worth, b));
    CheapestNeighbour(est, Passed(worth, b));
  }

  /*---------- The number of costs that guarantees local optimality ----------*/

  /** Every search ends locally optimal whose cheaper orders have at most so many different costs. */
  ghost predicate Guarantees(size: nat, costs: nat)
    requires 2 <= size
  {
    forall est, values :: HasCheaperCosts(est, size, values) && |values| <= costs ==> LocallyOptimal(est, Final(est, Start(size)))
  }

  lemma FewCostsGuarantee(size: nat, costs: nat)
    requires 2 <= size && (size <= 3 || costs <= size)
    ensures Guarantees(size, costs)
  {
    forall est, values | HasCheaperCosts(est, size, values) && |values| <= costs
      ensures LocallyOptimal(est, Final(est, Start(size)))
    {
      if size == 2 {
        TwoPointsEndLocallyOptimal(est);
      } else if size == 3 {
        ThreePointsEndLocallyOptimal(est);
      } else {
        FewCostsMakeLocallyOptimal(est, size, values);
      }
    }
  }

  /**
   Up to three points every search ends locally optimal; from four points on, as many different
   costs as points are the most that guarantee it.
   */
  lemma CostsGuaranteeIff(size: nat, costs: nat)
    requires 2 <= size
    ensures Guarantees(size, costs) <==> size <= 3 || costs <= size
  {
    if size <= 3 || costs <= size {
      FewCostsGuarantee(size, costs);
    } else {
      AlongChainLeads(size);
      SearchEndsOnChain(AlongChain(size), size);
      ChainHasFewCosts(size);
      assert HasCheaperCosts(AlongChain(size), size, Values(size)) && |Values(size)| <= costs;
    }
  }
}
