/** When the end of an uninterrupted 2-opt search is locally optimal, and inputs for which it is not. */
module TwoOptOptimality {
  import opened Concepts
  import opened Tours
  import opened TwoOptSearch

  /*---------- Few costs ----------*/

  /** The values include the cost of every valid order that is cheaper than the one the search begins with. */
  ghost predicate HasCheaperCosts(est: Estimator, size: nat, values: set<real>) {
    forall s :: IsPermutation(s, size) && est.valid(s) && est.cost(s) < est.cost(Identity(size)) ==> est.cost(s) in values
  }

  /** A best order that is not the first one is valid and cheaper than it. */
  lemma {:induction false} LaterBestIsValid(est: Estimator, p: Point, trials: nat)
    requires p.Valid()
    ensures var best := Walk(est, p, trials).best; best == p.best || (est.valid(best) && est.cost(best) < est.cost(p.best))
  {
    if trials > 0 { LaterBestIsValid(est, p, trials - 1); }
  }

  lemma CostAtPass(est: Estimator, size: nat, k: nat, values: set<real>)
    requires 2 <= size && HasCheaperCosts(est, size, values)
    requires est.cost(BestAtPass(est, k, size)) < est.cost(Identity(size))
    ensures est.cost(BestAtPass(est, k, size)) in values
  {
    LaterBestIsValid(est, Start(size), PassBegin(k, size));
    WalkKeepsPermutation(est, Start(size), PassBegin(k, size), size);
  }

  /** If the result is not locally optimal, each pass has used up one of the values. */
  lemma {:induction false} PassCosts(est: Estimator, size: nat, k: nat, values: set<real>) returns (costs: set<real>)
    requires 2 <= size && k <= size && HasCheaperCosts(est, size, values) && !LocallyOptimal(est, Final(est, Start(size)))
    ensures |costs| == k && costs <= values
    ensures forall c :: c in costs ==> est.cost(BestAtPass(est, k, size)) <= c
    ensures est.cost(BestAtPass(est, k, size)) < est.cost(Identity(size)) || k == 0
    ensures k == 0 ==> BestAtPass(est, k, size) == Identity(size)
  {
    if k == 0 {
      costs := {};
    } else {
      var last := est.cost(BestAtPass(est, k, size));
      costs := PassCosts(est, size, k - 1, values);
      FinalIsLocallyOptimalOrAllPassesImprove(est, size, k - 1);
      assert last !in costs;
      CostAtPass(est, size, k, values);
      costs := costs + {last};
    }
  }

  lemma {:induction false} SubsetIsNoLarger<T>(a: set<T>, b: set<T>)
    requires a <= b
    ensures |a| <= |b|
  {
    if a != {} {
      var x :| x in a;
      SubsetIsNoLarger(a - {x}, b - {x});
    }
  }

  lemma LastPassIsFinal(est: Estimator, size: nat)
    requires 2 <= size
    ensures BestAtPass(est, size, size) == Final(est, Start(size))
  {
    MovesBeforeAtLeast(size, size);
    assert size * PassLength(size) >= 1 by { assert size * PassLength(size) >= 1 * PassLength(size); }
    assert Rank(InitialState(size)) == 1 by { assert MovesBefore(0, size) == 0; }
  }

  /**
   If the orders cheaper than the first one have no more different costs than there are points, the
   result is locally optimal: every pass uses up one of them, and a cheaper neighbour would need another.
   */
  lemma FewCostsMakeLocallyOptimal(est: Estimator, size: nat, values: set<real>)
    requires 2 <= size && HasCheaperCosts(est, size, values) && |values| <= size
    ensures LocallyOptimal(est, Final(est, Start(size)))
  {
    var final := Final(est, Start(size));
    if !LocallyOptimal(est, final) {
      var costs := PassCosts(est, size, size, values);
      LastPassIsFinal(est, size);
      var i, j :| 0 <= i < j <= |final| && est.valid(Reversed(final, i, j)) && est.cost(Reversed(final, i, j)) < est.cost(final);
      var cheaper := est.cost(Reversed(final, i, j));
      WalkKeepsPermutation(est, Start(size), Remaining(Start(size)), size);
      ReversedKeepsPermutation(final, i, j, size);
      assert cheaper !in costs;
      SubsetIsNoLarger(costs + {cheaper}, values);
    }
  }

  /*---------- Four points ----------*/

  /** One trial on an order. */
  ghost function Try(est: Estimator, s: seq<int>, i: nat, j: nat): (r: seq<int>)
    requires i <= j <= |s|
    ensures |r| == |s|
  {
    if est.valid(Reversed(s, i, j)) && est.cost(Reversed(s, i, j)) < est.cost(s) then Reversed(s, i, j) else s
  }

  lemma SingleChangesNothing(est: Estimator, s: seq<int>, i: nat)
    requires i < |s|
    ensures Try(est, s, i, i + 1) == s
  {
    assert Reversed(s, i, i + 1) == s;
  }

  /** The trials of a pass over four points that can change the order. */
  ghost function FirstHalf(est: Estimator, s: seq<int>): (r: seq<int>)
    requires |s| == 4
    ensures |r| == 4
  {
    Try(est, Try(est, Try(est, s, 0, 2), 0, 3), 0, 4)
  }

  ghost function SecondHalf(est: Estimator, s: seq<int>): (r: seq<int>)
    requires |s| == 4
    ensures |r| == 4
  {
    Try(est, Try(est, Try(est, s, 1, 3), 1, 4), 2, 4)
  }

  ghost function Pass(est: Estimator, s: seq<int>): (r: seq<int>)
    requires |s| == 4
    ensures |r| == 4
  {
    SecondHalf(est, FirstHalf(est, s))
  }

  /** Where the search stands before the move reversing [i, j) in pass k. */
  function At(s: seq<int>, i: int, j: int, k: int): Point {
    Point(s, Some(State(i, j, k, |s|)))
  }

  lemma OneTrial(est: Estimator, p: Point, trials: nat, s: seq<int>, i: nat, j: nat, k: nat)
    requires p.Valid() && i < j <= |s| && k < |s| && Walk(est, p, trials) == At(s, i, j, k)
    ensures Walk(est, p, trials + 1) == Point(Try(est, s, i, j), NextState(Some(State(i, j, k, |s|))))
  {
  }

  lemma WalkFirstHalf(est: Estimator, p: Point, trials: nat, s: seq<int>, k: nat)
    requires p.Valid() && |s| == 4 && k < 4 && Walk(est, p, trials) == At(s, 0, 2, k)
    ensures Walk(est, p, trials + 3) == At(FirstHalf(est, s), 1, 2, k)
  {
    OneTrial(est, p, trials, s, 0, 2, k);
    var s1 := Try(est, s, 0, 2);
    OneTrial(est, p, trials + 1, s1, 0, 3, k);
    OneTrial(est, p, trials + 2, Try(est, s1, 0, 3), 0, 4, k);
  }

  lemma WalkSecondHalf(est: Estimator, p: Point, trials: nat, s: seq<int>, k: nat)
    requires p.Valid() && |s| == 4 && k < 4 && Walk(est, p, trials) == At(s, 1, 2, k)
    ensures Walk(est, p, trials + 6) == Point(SecondHalf(est, s), if k < 3 then Some(State(0, 1, k + 1, 4)) else None)
  {
    OneTrial(est, p, trials, s, 1, 2, k);
    SingleChangesNothing(est, s, 1);
    OneTrial(est, p, trials + 1, s, 1, 3, k);
    var s1 := Try(est, s, 1, 3);
    OneTrial(est, p, trials + 2, s1, 1, 4, k);
    WalkEnd(est, p, trials + 3, Try(est, s1, 1, 4), k);
  }

  lemma WalkEnd(est: Estimator, p: Point, trials: nat, s: seq<int>, k: nat)
    requires p.Valid() && |s| == 4 && k < 4 && Walk(est, p, trials) == At(s, 2, 3, k)
    ensures Walk(est, p, trials + 3) == Point(Try(est, s, 2, 4), if k < 3 then Some(State(0, 1, k + 1, 4)) else None)
  {
    OneTrial(est, p, trials, s, 2, 3, k);
    SingleChangesNothing(est, s, 2);
    OneTrial(est, p, trials + 1, s, 2, 4, k);
    var s1 := Try(est, s, 2, 4);
    OneTrial(est, p, trials + 2, s1, 3, 4, k);
    SingleChangesNothing(est, s1, 3);
  }

  lemma WalkPass(est: Estimator, p: Point, trials: nat, s: seq<int>, k: nat)
    requires p.Valid() && |s| == 4 && k < 4 && Walk(est, p, trials) == At(s, 0, 2, k)
    ensures Walk(est, p, trials + 9) == Point(Pass(est, s), if k < 3 then Some(State(0, 1, k + 1, 4)) else None)
  {
    WalkFirstHalf(est, p, trials, s, k);
    WalkSecondHalf(est, p, trials + 3, FirstHalf(est, s), k);
  }

  lemma WalkToNextPass(est: Estimator, p: Point, trials: nat, s: seq<int>, k: nat)
    requires p.Valid() && |s| == 4 && k < 3 && Walk(est, p, trials) == At(s, 0, 2, k)
    ensures Walk(est, p, trials + 10) == At(Pass(est, s), 0, 2, k + 1)
  {
    WalkPass(est, p, trials, s, k);
    OneTrial(est, p, trials + 9, Pass(est, s), 0, 1, k + 1);
    SingleChangesNothing(est, Pass(est, s), 0);
  }

  /** A fresh search over four points is four passes. */
  lemma FourPasses(est: Estimator)
    ensures Final(est, Start(4)) == Pass(est, Pass(est, Pass(est, Pass(est, [0, 1, 2, 3]))))
  {
    assert Identity(4) == [0, 1, 2, 3];
    var p, s := Start(4), [0, 1, 2, 3];
    assert Walk(est, p, 0) == At(s, 0, 2, 0);
    WalkToNextPass(est, p, 0, s, 0);
    s := Pass(est, s);
    WalkToNextPass(est, p, 10, s, 1);
    s := Pass(est, s);
    WalkToNextPass(est, p, 20, s, 2);
    s := Pass(est, s);
    WalkPass(est, p, 30, s, 3);
    FinalIsUnique(est, p, 39);
  }

  lemma StretchesOfFour(s: seq<int>)
    requires |s| == 4
    ensures Reversed(s, 0, 2) == [s[1], s[0], s[2], s[3]] && Reversed(s, 0, 3) == [s[2], s[1], s[0], s[3]]
    ensures Reversed(s, 0, 4) == [s[3], s[2], s[1], s[0]] && Reversed(s, 1, 3) == [s[0], s[2], s[1], s[3]]
    ensures Reversed(s, 1, 4) == [s[0], s[3], s[2], s[1]] && Reversed(s, 2, 4) == [s[0], s[1], s[3], s[2]]
  {
  }

  /** Every order is valid, and the cost of an order of four points is a function of its places. */
  ghost predicate CostsFour(est: Estimator, f: (int, int, int, int) -> real) {
    && (forall s :: est.valid(s))
    && (forall s {:trigger est.cost(s)} :: |s| == 4 ==> est.cost(s) == f(s[0], s[1], s[2], s[3]))
  }

  function At4(m: seq<seq<int>>, a: int, b: int): real
    requires |m| == 4 && forall r :: r in m ==> |r| == 4
  {
    if 0 <= a < 4 && 0 <= b < 4 then m[a][b] as real else 0.0
  }

  const DISTANCES: seq<seq<int>> := [[0, 9, 6, 6], [4, 0, 3, 5], [6, 3, 0, 4], [1, 1, 3, 0]]

  function Distance(a: int, b: int): real {
    At4(DISTANCES, a, b)
  }

  lemma PathCostOfFour(d: Distances, s: seq<int>)
    requires |s| == 4
    ensures PathCost(d, s) == d(s[0], s[1]) + d(s[1], s[2]) + d(s[2], s[3])
  {
    var s3, s2 := s[..3], s[..2];
    assert s3[..2] == s2;
    assert PathCost(d, s2) == PathCost(d, s2[..1]) + d(s2[0], s2[1]);
    assert PathCost(d, s3) == PathCost(d, s2) + d(s3[1], s3[2]);
  }

  function PathOfFour(a: int, b: int, c: int, d: int): real {
    Distance(a, b) + Distance(b, c) + Distance(c, d)
  }

  const BY_PATH := Estimator(s => PathCost(Distance, s), s => true)

  lemma PathPass1()
    requires CostsFour(BY_PATH, PathOfFour)
    ensures Pass(BY_PATH, [0, 1, 2, 3]) == [1, 0, 3, 2]
  {
    StretchesOfFour([0, 1, 2, 3]);
    StretchesOfFour([1, 0, 2, 3]);
    StretchesOfFour([1, 0, 3, 2]);
    assert FirstHalf(BY_PATH, [0, 1, 2, 3]) == [1, 0, 2, 3];
  }

  lemma PathPass2()
    requires CostsFour(BY_PATH, PathOfFour)
    ensures Pass(BY_PATH, [1, 0, 3, 2]) == [1, 3, 0, 2]
  {
    StretchesOfFour([1, 0, 3, 2]);
    StretchesOfFour([1, 3, 0, 2]);
    assert FirstHalf(BY_PATH, [1, 0, 3, 2]) == [1, 0, 3, 2];
  }

  lemma PathPass3()
    requires CostsFour(BY_PATH, PathOfFour)
    ensures Pass(BY_PATH, [1, 3, 0, 2]) == [3, 1, 2, 0]
  {
    StretchesOfFour([1, 3, 0, 2]);
    StretchesOfFour([3, 1, 0, 2]);
    StretchesOfFour([3, 1, 2, 0]);
    assert FirstHalf(BY_PATH, [1, 3, 0, 2]) == [3, 1, 0, 2];
  }

  lemma PathPass4()
    requires CostsFour(BY_PATH, PathOfFour)
    ensures Pass(BY_PATH, [3, 1, 2, 0]) == [2, 1, 3, 0]
  {
    StretchesOfFour([3, 1, 2, 0]);
    StretchesOfFour([2, 1, 3, 0]);
    assert FirstHalf(BY_PATH, [3, 1, 2, 0]) == [2, 1, 3, 0];
  }

  lemma ByPathCostsFour()
    ensures CostsFour(BY_PATH, PathOfFour)
  {
    forall s: seq<int> | |s| == 4 ensures BY_PATH.cost(s) == PathOfFour(s[0], s[1], s[2], s[3]) {
      PathCostOfFour(Distance, s);
    }
  }

  /** A fresh search by path cost over four points ends at an order of cost 9 that has a neighbour of cost 8. */
  lemma SearchEndsBesideCheaperOrder()
    ensures Final(BY_PATH, Start(4)) == [2, 1, 3, 0] && BY_PATH.cost([2, 1, 3, 0]) == 9.0
    ensures Reversed([2, 1, 3, 0], 0, 2) == [1, 2, 3, 0] && BY_PATH.cost([1, 2, 3, 0]) == 8.0
    ensures !LocallyOptimal(BY_PATH, Final(BY_PATH, Start(4)))
  {
    ByPathCostsFour();
    PathPass1();
    PathPass2();
    PathPass3();
    PathPass4();
    FourPasses(BY_PATH);
    StretchesOfFour([2, 1, 3, 0]);
    assert BY_PATH.cost([2, 1, 3, 0]) == PathOfFour(2, 1, 3, 0) && BY_PATH.cost([1, 2, 3, 0]) == PathOfFour(1, 2, 3, 0);
  }
}
