/**
 Timetables over a row of stops: the greedy earliest timetable, the budgeted slide of that
 timetable to the right, and what makes the slid timetable the best one.  Times are seconds,
 unbounded integers.
 */
module Timetable {
  import opened Concepts

  datatype TimeWindow = TimeWindow(start: int, end: int)

  /** Everything a scheduler reads about one allocation; travel leads to the next stop. */
  datatype Stop = Stop(duration: int, window: TimeWindow, travel: int) {
    function Earliest(now: int): int {
      Max(now, window.start)
    }

    function Leave(start: int): int {
      start + duration + travel
    }

    function Slack(start: int): int {
      window.end - (start + duration)
    }

    function Waiting(now: int): int {
      Max(0, window.start - now)
    }
  }

  /*---------- What it means for start times to be a timetable ----------*/

  /** Each stop starts no earlier than its predecessor's end plus the travel. */
  ghost predicate RespectsTravel(stops: seq<Stop>, x: seq<int>) {
    |x| == |stops| && forall i :: 0 < i < |x| ==> stops[i - 1].Leave(x[i - 1]) <= x[i]
  }

  ghost predicate Feasible(stops: seq<Stop>, now: int, x: seq<int>) {
    && RespectsTravel(stops, x)
    && (x != [] ==> now <= x[0])
    && forall i :: 0 <= i < |x| ==> stops[i].window.start <= x[i]
  }

  ghost predicate OnTime(stops: seq<Stop>, x: seq<int>) {
    |x| == |stops| && forall i :: 0 <= i < |x| ==> x[i] + stops[i].duration <= stops[i].window.end
  }

  /** From the start of the first stop to the end of the last one. */
  ghost function Span(stops: seq<Stop>, x: seq<int>): int
    requires |x| == |stops| > 0
  {
    x[|x| - 1] + stops[|x| - 1].duration - x[0]
  }

  /*---------- The greedy forward pass ----------*/

  function Earliest(stops: seq<Stop>, now: int): (x: seq<int>)
    ensures |x| == |stops|
  {
    if stops == [] then []
    else
      var start := stops[0].Earliest(now);
      [start] + Earliest(stops[1..], stops[0].Leave(start))
  }

  lemma {:induction false} EarliestIsFeasible(stops: seq<Stop>, now: int)
    ensures Feasible(stops, now, Earliest(stops, now))
  {
    if stops != [] {
      var start := stops[0].Earliest(now);
      EarliestIsFeasible(stops[1..], stops[0].Leave(start));
      var x, y := Earliest(stops, now), Earliest(stops[1..], stops[0].Leave(start));
      forall i | 0 < i < |x| ensures stops[i - 1].Leave(x[i - 1]) <= x[i] {
        assert x[i] == y[i - 1] && stops[i] == stops[1..][i - 1];
        if i > 1 { assert x[i - 1] == y[i - 2] && stops[i - 1] == stops[1..][i - 2]; }
      }
      forall i | 0 < i < |x| ensures stops[i].window.start <= x[i] {
        assert x[i] == y[i - 1] && stops[i] == stops[1..][i - 1];
      }
    }
  }

  /** Every start of the greedy pass is the later of the arrival and the window's start. */
  lemma {:induction false} EarliestAt(stops: seq<Stop>, now: int, i: nat)
    requires i < |stops|
    ensures var e := Earliest(stops, now);
            e[i] == Max(if i == 0 then now else e[i - 1] + stops[i - 1].duration + stops[i - 1].travel, stops[i].window.start)
  {
    if i > 0 {
      var start := stops[0].Earliest(now);
      EarliestAt(stops[1..], stops[0].Leave(start), i - 1);
      assert stops[i] == stops[1..][i - 1];
      if i > 1 { assert stops[i - 1] == stops[1..][i - 2]; }
    }
  }

  lemma FeasibleTail(stops: seq<Stop>, now: int, x: seq<int>)
    requires stops != [] && Feasible(stops, now, x)
    ensures Feasible(stops[1..], stops[0].Leave(x[0]), x[1..])
    ensures OnTime(stops, x) ==> OnTime(stops[1..], x[1..])
  {
    var s, y := stops[1..], x[1..];
    assert forall i :: 0 <= i < |y| ==> y[i] == x[i + 1] && s[i] == stops[i + 1];
  }

  lemma {:induction false} EarliestIsLeast(stops: seq<Stop>, now: int, x: seq<int>, later: int)
    requires now <= later && Feasible(stops, later, x)
    ensures forall i :: 0 <= i < |x| ==> Earliest(stops, now)[i] <= x[i]
  {
    if stops != [] {
      FeasibleTail(stops, later, x);
      var start := stops[0].Earliest(now);
      EarliestIsLeast(stops[1..], stops[0].Leave(start), x[1..], stops[0].Leave(x[0]));
      forall i | 0 < i < |x| ensures Earliest(stops, now)[i] <= x[i] {
        assert x[i] == x[1..][i - 1];
      }
    }
  }

  /** The windows can be met at all exactly when the greedy pass meets them. */
  lemma WindowsCanBeMetIff(stops: seq<Stop>, now: int)
    ensures (exists x :: Feasible(stops, now, x) && OnTime(stops, x)) <==> OnTime(stops, Earliest(stops, now))
  {
    EarliestIsFeasible(stops, now);
    forall x | Feasible(stops, now, x) && OnTime(stops, x) ensures OnTime(stops, Earliest(stops, now)) {
      EarliestIsLeast(stops, now, x, now);
    }
  }

  /*---------- The budgeted slide ----------*/

  function ShiftAt(stop: Stop, now: int, budget: int): int {
    Max(0, Min(stop.window.start - now, budget))
  }

  /** The prefix shift taken at each stop, when the pass reaches it at time now with a shift budget. */
  function Shifts(stops: seq<Stop>, now: int, budget: int): (shifts: seq<int>)
    ensures |shifts| == |stops|
    ensures forall i :: 0 <= i < |shifts| ==> 0 <= shifts[i]
    decreases |stops|
  {
    if stops == [] then []
    else
      var shift := ShiftAt(stops[0], now, budget);
      var start := stops[0].Earliest(now + shift);
      [shift] + Shifts(stops[1..], stops[0].Leave(start), Min(budget - shift, stops[0].Slack(start)))
  }

  function Sum(xs: seq<int>): int {
    if xs == [] then 0 else xs[0] + Sum(xs[1..])
  }

  lemma {:induction false} SumOfNaturals(xs: seq<int>)
    requires forall i :: 0 <= i < |xs| ==> 0 <= xs[i]
    ensures 0 <= Sum(xs)
  {
    if xs != [] { SumOfNaturals(xs[1..]); }
  }

  lemma {:induction false} SumAppend(xs: seq<int>, x: int)
    ensures Sum(xs + [x]) == Sum(xs) + x
  {
    if xs == [] {
      assert xs + [x] == [x] && [x][1..] == [];
    } else {
      assert (xs + [x])[1..] == xs[1..] + [x];
      SumAppend(xs[1..], x);
    }
  }

  function SumAfter(xs: seq<int>, i: nat): int
    requires i < |xs|
  {
    Sum(xs[i + 1..])
  }

  lemma SumAfterSteps(xs: seq<int>, i: nat)
    requires i < |xs|
    ensures SumAfter(xs, i) == if i + 1 < |xs| then xs[i + 1] + SumAfter(xs, i + 1) else 0
    ensures 0 < i ==> SumAfter(xs, i) == SumAfter(xs[1..], i - 1)
  {
    if i + 1 < |xs| { assert xs[i + 1..][1..] == xs[i + 2..]; }
    if 0 < i { assert xs[1..][i..] == xs[i + 1..]; }
  }

  /** The slid timetable: every stop is moved right by all the shifts taken after it. */
  function Slid(stops: seq<Stop>, now: int, budget: int): (x: seq<int>)
    ensures |x| == |stops|
  {
    seq(|stops|, i requires 0 <= i < |stops| => Earliest(stops, now)[i] + SumAfter(Shifts(stops, now, budget), i))
  }

  lemma TakenShiftKeepsStart(stop: Stop, now: int, budget: int)
    ensures stop.Earliest(now + ShiftAt(stop, now, budget)) == stop.Earliest(now)
  {
  }

  function BudgetAfter(stop: Stop, now: int, budget: int): int {
    Min(budget - ShiftAt(stop, now, budget), stop.Slack(stop.Earliest(now)))
  }

  lemma ShiftsTail(stops: seq<Stop>, now: int, budget: int)
    requires stops != []
    ensures var start := stops[0].Earliest(now);
            Shifts(stops, now, budget)[1..] == Shifts(stops[1..], stops[0].Leave(start), BudgetAfter(stops[0], now, budget))
  {
    TakenShiftKeepsStart(stops[0], now, budget);
  }

  lemma SlidTail(stops: seq<Stop>, now: int, budget: int, i: nat)
    requires 0 < i < |stops|
    ensures Slid(stops, now, budget)[i]
         == Slid(stops[1..], stops[0].Leave(stops[0].Earliest(now)), BudgetAfter(stops[0], now, budget))[i - 1]
  {
    ShiftsTail(stops, now, budget);
    SumAfterSteps(Shifts(stops, now, budget), i);
  }

  /**
   How far the arrival at the first stop can be put off without ending any stop late or
   finishing the last one later: the forward time slack of the row of stops.
   */
  function ForwardSlack(stops: seq<Stop>, now: int): (slack: int)
    ensures 0 <= slack
  {
    if stops == [] then 0
    else
      var start := stops[0].Earliest(now);
      stops[0].Waiting(now) + Max(0, Min(stops[0].Slack(start), ForwardSlack(stops[1..], stops[0].Leave(start))))
  }

  /** All the shifts together take what both the budget and the forward slack allow. */
  lemma {:induction false} TotalShift(stops: seq<Stop>, now: int, budget: int)
    ensures Sum(Shifts(stops, now, budget)) == Max(0, Min(budget, ForwardSlack(stops, now)))
  {
    if stops != [] {
      var start := stops[0].Earliest(now);
      ShiftsTail(stops, now, budget);
      TotalShift(stops[1..], stops[0].Leave(start), BudgetAfter(stops[0], now, budget));
    }
  }

  /** The sliding keeps the last start, meets the windows' starts and never overtakes the travel. */
  lemma SlidGap(stops: seq<Stop>, now: int, budget: int, i: nat)
    requires 0 < i < |stops|
    ensures var x, e, shifts := Slid(stops, now, budget), Earliest(stops, now), Shifts(stops, now, budget);
            && x[i] - stops[i - 1].Leave(x[i - 1]) == e[i] - stops[i - 1].Leave(e[i - 1]) - shifts[i]
            && shifts[i] <= e[i] - stops[i - 1].Leave(e[i - 1])
  {
    var shifts := Shifts(stops, now, budget);
    SumAfterSteps(shifts, i - 1);
    ShiftWithinGap(stops, now, budget, i);
  }

  lemma {:induction false} ShiftWithinGap(stops: seq<Stop>, now: int, budget: int, i: nat)
    requires 0 < i < |stops|
    ensures var e := Earliest(stops, now);
            Shifts(stops, now, budget)[i] <= e[i] - stops[i - 1].Leave(e[i - 1])
  {
    var start := stops[0].Earliest(now);
    ShiftsTail(stops, now, budget);
    var shifts := Shifts(stops, now, budget);
    assert shifts[i] == shifts[1..][i - 1] && stops[i] == stops[1..][i - 1];
    if i > 1 {
      assert stops[i - 1] == stops[1..][i - 2];
      ShiftWithinGap(stops[1..], stops[0].Leave(start), BudgetAfter(stops[0], now, budget), i - 1);
    }
  }

  lemma SlidRespectsStop(stops: seq<Stop>, now: int, budget: int, i: nat)
    requires i < |stops|
    ensures var x := Slid(stops, now, budget);
            && Earliest(stops, now)[i] <= x[i] && stops[i].window.start <= x[i]
            && (0 < i ==> stops[i - 1].Leave(x[i - 1]) <= x[i])
  {
    EarliestIsFeasible(stops, now);
    SumOfNaturals(Shifts(stops, now, budget)[i + 1..]);
    if 0 < i { SlidGap(stops, now, budget, i); }
  }

  lemma SlidIsFeasible(stops: seq<Stop>, now: int, budget: int)
    ensures Feasible(stops, now, Slid(stops, now, budget))
    ensures stops != [] ==> Slid(stops, now, budget)[|stops| - 1] == Earliest(stops, now)[|stops| - 1]
  {
    var x := Slid(stops, now, budget);
    forall i | 0 <= i < |x|
      ensures stops[i].window.start <= x[i] && (0 < i ==> stops[i - 1].Leave(x[i - 1]) <= x[i])
    {
      SlidRespectsStop(stops, now, budget, i);
    }
    if stops != [] {
      SlidRespectsStop(stops, now, budget, 0);
      SumAfterSteps(Shifts(stops, now, budget), |stops| - 1);
    }
  }

  lemma FirstMovesBy(stops: seq<Stop>, now: int, budget: int)
    requires stops != []
    ensures var start := stops[0].Earliest(now);
            Slid(stops, now, budget)[0] - start
            == Max(0, Min(BudgetAfter(stops[0], now, budget), ForwardSlack(stops[1..], stops[0].Leave(start))))
  {
    ShiftsTail(stops, now, budget);
    TotalShift(stops[1..], stops[0].Leave(stops[0].Earliest(now)), BudgetAfter(stops[0], now, budget));
  }

  /** A stop on time stays on time; a late one is not moved at all, so its lateness is kept. */
  lemma {:induction false} SlidKeepsLateness(stops: seq<Stop>, now: int, budget: int, i: nat)
    requires i < |stops|
    ensures var x, e := Slid(stops, now, budget)[i], Earliest(stops, now)[i];
            && e <= x
            && Max(0, -stops[i].Slack(x)) == Max(0, -stops[i].Slack(e))
            && (stops[i].Slack(e) < 0 ==> x == e)
  {
    if i == 0 {
      FirstMovesBy(stops, now, budget);
    } else {
      SlidTail(stops, now, budget, i);
      SlidKeepsLateness(stops[1..], stops[0].Leave(stops[0].Earliest(now)), BudgetAfter(stops[0], now, budget), i - 1);
    }
  }

  /*---------- Optimality ----------*/

  /** No stop ends later after its window than under the greedy pass. */
  ghost predicate NoLater(stops: seq<Stop>, now: int, x: seq<int>) {
    |x| == |stops| &&
    forall i :: 0 <= i < |x| ==> Max(0, -stops[i].Slack(x[i])) <= Max(0, -stops[i].Slack(Earliest(stops, now)[i]))
  }

  /** Where the windows can be met that means meeting them. */
  lemma NoLaterIffOnTime(stops: seq<Stop>, now: int, x: seq<int>)
    requires |x| == |stops|
    ensures OnTime(stops, x) ==> NoLater(stops, now, x)
    ensures OnTime(stops, Earliest(stops, now)) && NoLater(stops, now, x) ==> OnTime(stops, x)
  {
  }

  lemma NoLaterTail(stops: seq<Stop>, now: int, x: seq<int>)
    requires stops != [] && NoLater(stops, now, x)
    ensures NoLater(stops[1..], stops[0].Leave(stops[0].Earliest(now)), x[1..])
  {
    var s, y := stops[1..], x[1..];
    forall i | 0 <= i < |y|
      ensures Max(0, -s[i].Slack(y[i])) <= Max(0, -s[i].Slack(Earliest(s, stops[0].Leave(stops[0].Earliest(now)))[i]))
    {
      assert s[i] == stops[i + 1] && y[i] == x[i + 1];
    }
  }

  /**
   Put off the arrival from now to later: a timetable with no stop later than under the greedy pass
   finishes no earlier than that pass, and later by at least whatever exceeds the forward slack.
   */
  lemma {:induction false} LateArrivalDelaysFinish(stops: seq<Stop>, now: int, later: int, x: seq<int>)
    requires stops != [] && now <= later && Feasible(stops, later, x) && NoLater(stops, now, x)
    ensures var last := |stops| - 1;
            Earliest(stops, now)[last] + Max(0, later - now - ForwardSlack(stops, now)) <= x[last]
  {
    EarliestIsLeast(stops, now, x, later);
    if |stops| > 1 {
      var start := stops[0].Earliest(now);
      FeasibleTail(stops, later, x);
      NoLaterTail(stops, now, x);
      LateArrivalDelaysFinish(stops[1..], stops[0].Leave(start), stops[0].Leave(x[0]), x[1..]);
    }
  }

  /** The most the first start can be moved right: by its own window and by the later stops. */
  function Postponement(stops: seq<Stop>, now: int): int
    requires stops != []
  {
    var start := stops[0].Earliest(now);
    Max(0, Min(stops[0].Slack(start), ForwardSlack(stops[1..], stops[0].Leave(start))))
  }

  /** What is left of the budget once the waiting at the first stop has been charged to it. */
  function BudgetForMoving(stops: seq<Stop>, now: int, budget: int): int
    requires stops != []
  {
    Max(0, budget - stops[0].Waiting(now))
  }

  lemma FirstStart(stops: seq<Stop>, now: int, budget: int)
    requires stops != []
    ensures Slid(stops, now, budget)[0]
         == Earliest(stops, now)[0] + Min(Postponement(stops, now), BudgetForMoving(stops, now, budget))
  {
    FirstMovesBy(stops, now, budget);
  }

  /** Starting the first stop later delays the finish by whatever exceeds the forward slack of the others. */
  lemma LateStartDelaysFinish(stops: seq<Stop>, now: int, x: seq<int>)
    requires 1 < |stops| && Feasible(stops, now, x) && NoLater(stops, now, x)
    ensures var start, last := stops[0].Earliest(now), |stops| - 1;
            Earliest(stops, now)[last] + Max(0, x[0] - start - ForwardSlack(stops[1..], stops[0].Leave(start))) <= x[last]
  {
    var start := stops[0].Earliest(now);
    FeasibleTail(stops, now, x);
    NoLaterTail(stops, now, x);
    LateArrivalDelaysFinish(stops[1..], stops[0].Leave(start), stops[0].Leave(x[0]), x[1..]);
  }

  lemma StartsNoLaterThanSlack(stops: seq<Stop>, now: int, x: seq<int>)
    requires stops != [] && NoLater(stops, now, x)
    ensures x[0] <= stops[0].Earliest(now) + Max(0, stops[0].Slack(stops[0].Earliest(now)))
  {
    assert Max(0, -stops[0].Slack(x[0])) <= Max(0, -stops[0].Slack(Earliest(stops, now)[0]));
  }

  /** No timetable without later stops that finishes as early departs after the postponed first start. */
  lemma SpanIsBounded(stops: seq<Stop>, now: int, x: seq<int>)
    requires stops != [] && Feasible(stops, now, x) && NoLater(stops, now, x)
    ensures var e := Earliest(stops, now); Span(stops, e) - Postponement(stops, now) <= Span(stops, x)
    ensures var e := Earliest(stops, now); var last := |stops| - 1;
            x[last] <= e[last] ==> x[0] <= e[0] + Postponement(stops, now)
  {
    StartsNoLaterThanSlack(stops, now, x);
    if |stops| > 1 {
      LateStartDelaysFinish(stops, now, x);
    }
  }

  /** The slid timetable is one of those; if the windows can be met, it meets them. */
  lemma SlidIsNoLater(stops: seq<Stop>, now: int, budget: int)
    ensures Feasible(stops, now, Slid(stops, now, budget)) && NoLater(stops, now, Slid(stops, now, budget))
    ensures OnTime(stops, Earliest(stops, now)) ==> OnTime(stops, Slid(stops, now, budget))
  {
    SlidIsFeasible(stops, now, budget);
    var x := Slid(stops, now, budget);
    forall i | 0 <= i < |x| ensures Max(0, -stops[i].Slack(x[i])) <= Max(0, -stops[i].Slack(Earliest(stops, now)[i])) {
      SlidKeepsLateness(stops, now, budget, i);
    }
    NoLaterIffOnTime(stops, now, x);
  }

  ghost predicate HasLeastSpan(stops: seq<Stop>, now: int, x: seq<int>)
    requires |x| == |stops| > 0
  {
    forall y :: Feasible(stops, now, y) && NoLater(stops, now, y) ==> Span(stops, x) <= Span(stops, y)
  }

  /**
   The slid timetable has the least span of all timetables without later stops exactly when the
   budget left after the first waiting covers the possible postponement.
   */
  lemma SlidHasLeastSpanIff(stops: seq<Stop>, now: int, budget: int)
    requires stops != []
    ensures HasLeastSpan(stops, now, Slid(stops, now, budget))
       <==> Postponement(stops, now) <= BudgetForMoving(stops, now, budget)
  {
    var x := Slid(stops, now, budget);
    SlidIsFeasible(stops, now, budget);
    FirstStart(stops, now, budget);
    if Postponement(stops, now) <= BudgetForMoving(stops, now, budget) {
      forall y | Feasible(stops, now, y) && NoLater(stops, now, y) ensures Span(stops, x) <= Span(stops, y) {
        SpanIsBounded(stops, now, y);
      }
    } else {
      var ample := stops[0].Waiting(now) + Postponement(stops, now);
      SlidIsNoLater(stops, now, ample);
      SlidIsFeasible(stops, now, ample);
      FirstStart(stops, now, ample);
      assert Span(stops, Slid(stops, now, ample)) < Span(stops, x);
    }
  }

  /** Where the windows can be met: the least span of all timetables that meet them. */
  lemma SlidHasLeastSpanOnTimeIff(stops: seq<Stop>, now: int, budget: int)
    requires stops != [] && OnTime(stops, Earliest(stops, now))
    ensures (forall y :: Feasible(stops, now, y) && OnTime(stops, y) ==> Span(stops, Slid(stops, now, budget)) <= Span(stops, y))
       <==> Postponement(stops, now) <= BudgetForMoving(stops, now, budget)
  {
    forall y | |y| == |stops| ensures NoLater(stops, now, y) <==> OnTime(stops, y) { NoLaterIffOnTime(stops, now, y); }
    SlidHasLeastSpanIff(stops, now, budget);
  }

  lemma TwoStops(stops: seq<Stop>, now: int)
    requires |stops| == 2
    ensures var start := stops[0].Earliest(now);
            var arrival := stops[0].Leave(start);
            var next := stops[1].Earliest(arrival);
            && Earliest(stops, now) == [start, next]
            && Postponement(stops, now) == Max(0, Min(stops[0].Slack(start), stops[1].Waiting(arrival) + Max(0, Min(stops[1].Slack(next), 0))))
  {
    var start := stops[0].Earliest(now);
    var arrival, tail := stops[0].Leave(start), stops[1..];
    assert tail[0] == stops[1] && tail[1..] == [];
    assert Earliest(tail, arrival) == [stops[1].Earliest(arrival)];
    assert ForwardSlack(tail[1..], tail[0].Leave(tail[0].Earliest(arrival))) == 0;
  }

  /** A wait between two stops is not squeezed out if it, and the room in the first window, exceed the initial budget. */
  lemma LongWaitIsNotSqueezed(stops: seq<Stop>, now: int)
    requires |stops| == 2 && OnTime(stops, Earliest(stops, now))
    requires INFINITE_TIME_INTERVAL < stops[0].Slack(stops[0].Earliest(now))
    requires INFINITE_TIME_INTERVAL < stops[1].Waiting(stops[0].Leave(stops[0].Earliest(now)))
    ensures !HasLeastSpan(stops, now, Slid(stops, now, INFINITE_TIME_INTERVAL))
  {
    TwoStops(stops, now);
    assert Earliest(stops, now)[1] == stops[1].Earliest(stops[0].Leave(stops[0].Earliest(now)));
    SlidHasLeastSpanIff(stops, now, INFINITE_TIME_INTERVAL);
  }

  /** A row of one stop that is open all the time and one that opens after more than a century, from time 0 on. */
  ghost predicate OpensAfterCentury(stops: seq<Stop>, now: int) {
    && |stops| == 2 && now == 0
    && stops[0].duration == stops[0].travel == stops[1].duration == 0
    && stops[0].window == TimeWindow(0, 5000000000) && stops[1].window == TimeWindow(4000000000, 5000000000)
  }

  lemma TwoOnTime(stops: seq<Stop>, x: seq<int>)
    requires |stops| == |x| == 2 && 0 <= stops[0].Slack(x[0]) && 0 <= stops[1].Slack(x[1])
    ensures OnTime(stops, x)
  {
  }

  lemma CenturyIsOnTime(stops: seq<Stop>, now: int)
    requires OpensAfterCentury(stops, now)
    ensures OnTime(stops, Earliest(stops, now))
  {
    TwoStops(stops, now);
    TwoOnTime(stops, Earliest(stops, now));
  }

  lemma CenturyExceedsBudget(stops: seq<Stop>, now: int)
    requires OpensAfterCentury(stops, now)
    ensures INFINITE_TIME_INTERVAL < stops[0].Slack(stops[0].Earliest(now))
    ensures INFINITE_TIME_INTERVAL < stops[1].Waiting(stops[0].Leave(stops[0].Earliest(now)))
  {
  }

  /** Its windows can be met, and its schedule does not have the least span. */
  lemma CenturyIsNotSqueezed(stops: seq<Stop>, now: int)
    requires OpensAfterCentury(stops, now)
    ensures OnTime(stops, Earliest(stops, now)) && !HasLeastSpan(stops, now, Slid(stops, now, INFINITE_TIME_INTERVAL))
  {
    CenturyIsOnTime(stops, now);
    CenturyExceedsBudget(stops, now);
    LongWaitIsNotSqueezed(stops, now);
  }

  /** With budget enough, nothing without later stops that finishes as early as the slid timetable departs later. */
  lemma SlidDepartsLatest(stops: seq<Stop>, now: int, budget: int, x: seq<int>)
    requires stops != [] && Postponement(stops, now) <= BudgetForMoving(stops, now, budget)
    requires Feasible(stops, now, x) && NoLater(stops, now, x)
    requires x[|x| - 1] <= Slid(stops, now, budget)[|x| - 1]
    ensures x[0] <= Slid(stops, now, budget)[0]
  {
    SlidIsFeasible(stops, now, budget);
    FirstStart(stops, now, budget);
    SpanIsBounded(stops, now, x);
  }

  /** All the waiting the greedy pass does, before the first stop included. */
  function TotalWaiting(stops: seq<Stop>, now: int): int {
    if stops == [] then 0
    else stops[0].Waiting(now) + TotalWaiting(stops[1..], stops[0].Leave(stops[0].Earliest(now)))
  }

  lemma {:induction false} SlackWithinWaiting(stops: seq<Stop>, now: int)
    ensures ForwardSlack(stops, now) <= TotalWaiting(stops, now)
  {
    if stops != [] {
      SlackWithinWaiting(stops[1..], stops[0].Leave(stops[0].Earliest(now)));
    }
  }

  /** In particular a budget of the whole waiting is enough. */
  lemma WaitingWithinBudget(stops: seq<Stop>, now: int, budget: int)
    requires stops != [] && TotalWaiting(stops, now) <= budget
    ensures Postponement(stops, now) <= BudgetForMoving(stops, now, budget)
  {
    SlackWithinWaiting(stops[1..], stops[0].Leave(stops[0].Earliest(now)));
  }
}
