/** Waybills and the two schedulers, which write the timetables of module Timetable into them. */
module Scheduling {
  import opened Concepts
  import opened Timetable

  const INFINITE_WINDOW := TimeWindow(0, INT64_MAX)

  type DistanceMatrix = (IndexedLocation, IndexedLocation) -> RouteInfo

  class WaybillAllocation {
    var startTime: int
    var endTime: int
    const plannedDuration: int
    const timeWindows: seq<TimeWindow>
    var nextRouteInfo: RouteInfo
    const location: IndexedLocation

    constructor (startTime: int, endTime: int, plannedDuration: int, timeWindows: seq<TimeWindow>, location: IndexedLocation)
      ensures this.startTime == startTime && this.endTime == endTime && nextRouteInfo == RouteInfo.Zero
      ensures this.plannedDuration == plannedDuration && this.timeWindows == timeWindows && this.location == location
    {
      this.startTime, this.endTime := startTime, endTime;
      this.plannedDuration, this.timeWindows, this.location := plannedDuration, timeWindows, location;
      nextRouteInfo := RouteInfo.Zero;
    }

    /** The first window whatever the time; an allocation without windows is open all the time. */
    function NearestNextTimeWindow(): TimeWindow {
      if timeWindows == [] then INFINITE_WINDOW else timeWindows[0]
    }

    method ShiftStartTime(interval: int)
      modifies this`startTime, this`endTime
      ensures startTime == old(startTime) + interval && endTime == old(endTime) + interval
    {
      startTime, endTime := startTime + interval, endTime + interval;
    }
  }

  class Waybill {
    const workShift: TimeWindow
    var allocations: seq<WaybillAllocation>

    constructor (workShift: TimeWindow, allocations: seq<WaybillAllocation>)
      ensures this.workShift == workShift && this.allocations == allocations
    {
      this.workShift, this.allocations := workShift, allocations;
    }

    /** The allocations are stored by value, so no two of them are the same object. */
    ghost predicate Valid()
      reads this
    {
      forall i, j :: 0 <= i < j < |allocations| ==> allocations[i] != allocations[j]
    }
  }

  function RouteAfter(matrix: DistanceMatrix, allocations: seq<WaybillAllocation>, i: nat): RouteInfo
    requires i < |allocations|
  {
    if i < |allocations| - 1 then matrix(allocations[i].location, allocations[i + 1].location) else RouteInfo.Zero
  }

  function StopAt(matrix: DistanceMatrix, allocations: seq<WaybillAllocation>, i: nat): Stop
    requires i < |allocations|
  {
    Stop(allocations[i].plannedDuration, allocations[i].NearestNextTimeWindow(), RouteAfter(matrix, allocations, i).duration)
  }

  /** What the schedulers read of a row of allocations. */
  function Stops(matrix: DistanceMatrix, allocations: seq<WaybillAllocation>): (stops: seq<Stop>)
    ensures |stops| == |allocations|
  {
    seq(|allocations|, i requires 0 <= i < |allocations| => StopAt(matrix, allocations, i))
  }

  ghost predicate HoldsAt(matrix: DistanceMatrix, allocations: seq<WaybillAllocation>, i: nat, start: int)
    requires i < |allocations|
    reads allocations[i]
  {
    && allocations[i].startTime == start
    && allocations[i].endTime == start + allocations[i].plannedDuration
    && allocations[i].nextRouteInfo == RouteAfter(matrix, allocations, i)
  }

  /** The first allocations hold the start times xs, their ends and the routes to their successors. */
  ghost predicate Holds(matrix: DistanceMatrix, allocations: seq<WaybillAllocation>, xs: seq<int>)
    requires |xs| <= |allocations|
    reads allocations
  {
    forall i :: 0 <= i < |xs| ==> HoldsAt(matrix, allocations, i, xs[i])
  }

  /*---------- The schedule in the allocations' own terms ----------*/

  /** When the first window opens; an allocation without windows is open from time 0 on. */
  function Opening(allocation: WaybillAllocation): int {
    if allocation.timeWindows == [] then 0 else allocation.timeWindows[0].start
  }

  /** The allocation lasts as planned and knows the route to its successor. */
  ghost predicate IsRoutedAt(matrix: DistanceMatrix, allocations: seq<WaybillAllocation>, i: nat)
    requires i < |allocations|
    reads allocations[i]
  {
    && allocations[i].endTime == allocations[i].startTime + allocations[i].plannedDuration
    && allocations[i].nextRouteInfo == if i < |allocations| - 1
                                       then matrix(allocations[i].location, allocations[i + 1].location)
                                       else RouteInfo(0.0, 0)
  }

  ghost predicate IsRouted(matrix: DistanceMatrix, allocations: seq<WaybillAllocation>)
    reads allocations
  {
    forall i :: 0 <= i < |allocations| ==> IsRoutedAt(matrix, allocations, i)
  }

  /** When one arrives at an allocation from the one before it. */
  ghost function Arrival(allocations: seq<WaybillAllocation>, first: int, i: nat): int
    requires i < |allocations|
    reads allocations
  {
    if i == 0 then first else allocations[i - 1].endTime + allocations[i - 1].nextRouteInfo.duration
  }

  /** When one can begin at an allocation if everything before starts at the given times. */
  function Soonest(matrix: DistanceMatrix, allocations: seq<WaybillAllocation>, first: int, xs: seq<int>, i: nat): int
    requires i < |allocations| == |xs|
  {
    var arrival := if i == 0 then first
                   else xs[i - 1] + allocations[i - 1].plannedDuration
                        + matrix(allocations[i - 1].location, allocations[i].location).duration;
    Max(arrival, Opening(allocations[i]))
  }

  /** Everything starts as soon as one has arrived and the window is open. */
  ghost predicate IsAsSoonAsPossible(matrix: DistanceMatrix, allocations: seq<WaybillAllocation>, first: int, xs: seq<int>) {
    |xs| == |allocations| && forall i :: 0 <= i < |xs| ==> xs[i] == Soonest(matrix, allocations, first, xs, i)
  }

  lemma StopsAgree(matrix: DistanceMatrix, allocations: seq<WaybillAllocation>, i: nat)
    requires i < |allocations|
    ensures var stops := Stops(matrix, allocations);
            && stops[i].duration == allocations[i].plannedDuration && stops[i].window.start == Opening(allocations[i])
            && stops[i].window == (if allocations[i].timeWindows == [] then TimeWindow(0, 9223372036854775807) else allocations[i].timeWindows[0])
            && (i < |allocations| - 1 ==> stops[i].travel == matrix(allocations[i].location, allocations[i + 1].location).duration)
  {
  }

  lemma EarliestIsAsSoonAsPossible(matrix: DistanceMatrix, allocations: seq<WaybillAllocation>, first: int)
    ensures IsAsSoonAsPossible(matrix, allocations, first, Earliest(Stops(matrix, allocations), first))
  {
    var stops := Stops(matrix, allocations);
    var e := Earliest(stops, first);
    forall i | 0 <= i < |e| ensures e[i] == Soonest(matrix, allocations, first, e, i) {
      EarliestAt(stops, first, i);
      StopsAgree(matrix, allocations, i);
      if i > 0 { StopsAgree(matrix, allocations, i - 1); }
    }
  }

  lemma {:induction false} AsSoonAsPossibleIsUnique(matrix: DistanceMatrix, allocations: seq<WaybillAllocation>, first: int,
                                                    xs: seq<int>, ys: seq<int>, i: nat)
    requires IsAsSoonAsPossible(matrix, allocations, first, xs) && IsAsSoonAsPossible(matrix, allocations, first, ys) && i < |xs|
    ensures xs[i] == ys[i]
  {
    assert xs[i] == Soonest(matrix, allocations, first, xs, i) && ys[i] == Soonest(matrix, allocations, first, ys, i);
    if i > 0 { AsSoonAsPossibleIsUnique(matrix, allocations, first, xs, ys, i - 1); }
  }

  /** The allocation starts neither before its window opens nor before one has arrived. */
  ghost predicate RespectsWindowAndTravel(allocations: seq<WaybillAllocation>, first: int, i: nat)
    requires i < |allocations|
    reads allocations
  {
    && (allocations[i].timeWindows != [] ==> allocations[i].timeWindows[0].start <= allocations[i].startTime)
    && Arrival(allocations, first, i) <= allocations[i].startTime
  }

  /** An allocation ends within its window just when it would by starting soonest; if it does not, it does start soonest. */
  ghost predicate IsLateOnlyIfMustAt(allocation: WaybillAllocation, soonest: int)
    reads allocation
  {
    allocation.timeWindows != [] ==>
      && (allocation.endTime <= allocation.timeWindows[0].end <==>
          soonest + allocation.plannedDuration <= allocation.timeWindows[0].end)
      && (allocation.timeWindows[0].end < allocation.endTime ==> allocation.startTime == soonest)
  }

  ghost predicate IsLateOnlyIfMust(matrix: DistanceMatrix, allocations: seq<WaybillAllocation>, first: int)
    reads allocations
  {
    forall xs :: IsAsSoonAsPossible(matrix, allocations, first, xs) ==>
      && (forall i :: 0 <= i < |xs| ==> IsLateOnlyIfMustAt(allocations[i], xs[i]))
      && (xs != [] ==> allocations[|xs| - 1].startTime == xs[|xs| - 1])
  }

  lemma HeldIsRouted(matrix: DistanceMatrix, allocations: seq<WaybillAllocation>, xs: seq<int>)
    requires |xs| == |allocations| && Holds(matrix, allocations, xs)
    ensures IsRouted(matrix, allocations)
  {
    forall i | 0 <= i < |allocations| ensures IsRoutedAt(matrix, allocations, i) {
      assert HoldsAt(matrix, allocations, i, xs[i]);
    }
  }

  lemma HeldArrival(matrix: DistanceMatrix, allocations: seq<WaybillAllocation>, first: int, xs: seq<int>, i: nat)
    requires |xs| == |allocations| && Holds(matrix, allocations, xs) && i < |xs|
    ensures var stops := Stops(matrix, allocations);
            Arrival(allocations, first, i) == if i == 0 then first else stops[i - 1].Leave(xs[i - 1])
    ensures allocations[i].startTime == xs[i]
  {
    assert HoldsAt(matrix, allocations, i, xs[i]);
    if i > 0 { assert HoldsAt(matrix, allocations, i - 1, xs[i - 1]); }
  }

  lemma HeldRespects(matrix: DistanceMatrix, allocations: seq<WaybillAllocation>, first: int, xs: seq<int>, i: nat)
    requires |xs| == |allocations| && Holds(matrix, allocations, xs) && Feasible(Stops(matrix, allocations), first, xs) && i < |xs|
    ensures RespectsWindowAndTravel(allocations, first, i)
  {
    HeldArrival(matrix, allocations, first, xs, i);
    StopsAgree(matrix, allocations, i);
  }

  lemma HeldIsLateOnlyIfMustAt(matrix: DistanceMatrix, allocations: seq<WaybillAllocation>, first: int, i: nat)
    requires i < |allocations|
    requires HoldsAt(matrix, allocations, i, Slid(Stops(matrix, allocations), first, INFINITE_TIME_INTERVAL)[i])
    ensures IsLateOnlyIfMustAt(allocations[i], Earliest(Stops(matrix, allocations), first)[i])
  {
    SlidKeepsLateness(Stops(matrix, allocations), first, INFINITE_TIME_INTERVAL, i);
    StopsAgree(matrix, allocations, i);
  }

  lemma HeldIsLateOnlyIfMust(matrix: DistanceMatrix, allocations: seq<WaybillAllocation>, first: int)
    requires Holds(matrix, allocations, Slid(Stops(matrix, allocations), first, INFINITE_TIME_INTERVAL))
    ensures IsLateOnlyIfMust(matrix, allocations, first)
  {
    var e, x := Earliest(Stops(matrix, allocations), first), Slid(Stops(matrix, allocations), first, INFINITE_TIME_INTERVAL);
    EarliestIsAsSoonAsPossible(matrix, allocations, first);
    SlidIsFeasible(Stops(matrix, allocations), first, INFINITE_TIME_INTERVAL);
    forall i | 0 <= i < |x| ensures IsLateOnlyIfMustAt(allocations[i], e[i]) && allocations[i].startTime == x[i] {
      assert HoldsAt(matrix, allocations, i, x[i]);
      HeldIsLateOnlyIfMustAt(matrix, allocations, first, i);
    }
    forall xs | IsAsSoonAsPossible(matrix, allocations, first, xs) ensures xs == e {
      forall i | 0 <= i < |xs| ensures xs[i] == e[i] { AsSoonAsPossibleIsUnique(matrix, allocations, first, xs, e, i); }
    }
  }

  lemma HeldStartsSoonest(matrix: DistanceMatrix, allocations: seq<WaybillAllocation>, first: int, i: nat)
    requires Holds(matrix, allocations, Earliest(Stops(matrix, allocations), first)) && i < |allocations|
    ensures allocations[i].startTime == Max(Arrival(allocations, first, i), Opening(allocations[i]))
  {
    HeldArrival(matrix, allocations, first, Earliest(Stops(matrix, allocations), first), i);
    EarliestAt(Stops(matrix, allocations), first, i);
    StopsAgree(matrix, allocations, i);
  }

  lemma HeldAsSoonAsPossible(matrix: DistanceMatrix, allocations: seq<WaybillAllocation>, first: int)
    requires Holds(matrix, allocations, Earliest(Stops(matrix, allocations), first))
    ensures IsRouted(matrix, allocations)
    ensures forall i :: 0 <= i < |allocations| ==> allocations[i].startTime == Max(Arrival(allocations, first, i), Opening(allocations[i]))
  {
    HeldIsRouted(matrix, allocations, Earliest(Stops(matrix, allocations), first));
    forall i | 0 <= i < |allocations|
      ensures allocations[i].startTime == Max(Arrival(allocations, first, i), Opening(allocations[i]))
    {
      HeldStartsSoonest(matrix, allocations, first, i);
    }
  }

  /** The first allocation is put off as far as the others allow, within a budget from which its own waiting is taken. */
  ghost predicate StartsWithinBudget(matrix: DistanceMatrix, allocations: seq<WaybillAllocation>, first: int)
    requires allocations != []
    reads allocations
  {
    var soonest := Max(first, Opening(allocations[0]));
    allocations[0].startTime
    == soonest + Min(Postponement(Stops(matrix, allocations), first), Max(0, 3600000000 - (soonest - first)))
  }

  lemma HeldFirst(matrix: DistanceMatrix, allocations: seq<WaybillAllocation>, first: int)
    requires Holds(matrix, allocations, Slid(Stops(matrix, allocations), first, INFINITE_TIME_INTERVAL)) && allocations != []
    ensures StartsWithinBudget(matrix, allocations, first)
  {
    assert HoldsAt(matrix, allocations, 0, Slid(Stops(matrix, allocations), first, INFINITE_TIME_INTERVAL)[0]);
    FirstStart(Stops(matrix, allocations), first, INFINITE_TIME_INTERVAL);
    StopsAgree(matrix, allocations, 0);
  }

  lemma HeldSlid(matrix: DistanceMatrix, allocations: seq<WaybillAllocation>, first: int)
    requires Holds(matrix, allocations, Slid(Stops(matrix, allocations), first, INFINITE_TIME_INTERVAL))
    ensures IsRouted(matrix, allocations) && IsLateOnlyIfMust(matrix, allocations, first)
    ensures forall i :: 0 <= i < |allocations| ==> RespectsWindowAndTravel(allocations, first, i)
  {
    var x := Slid(Stops(matrix, allocations), first, INFINITE_TIME_INTERVAL);
    SlidIsFeasible(Stops(matrix, allocations), first, INFINITE_TIME_INTERVAL);
    HeldIsRouted(matrix, allocations, x);
    forall i | 0 <= i < |allocations| ensures RespectsWindowAndTravel(allocations, first, i) {
      HeldRespects(matrix, allocations, first, x, i);
    }
    HeldIsLateOnlyIfMust(matrix, allocations, first);
  }

  /** Moves the start times of a prefix. */
  ghost function Moved(xs: seq<int>, shift: int): (ys: seq<int>)
    ensures |ys| == |xs|
  {
    seq(|xs|, i requires 0 <= i < |xs| => xs[i] + shift)
  }

  /** The start times of the allocations reached so far, each moved by the shifts taken after it. */
  ghost function MovedBy(xs: seq<int>, shifts: seq<int>): (ys: seq<int>)
    requires |xs| == |shifts|
    ensures |ys| == |xs|
  {
    seq(|xs|, i requires 0 <= i < |xs| => xs[i] + SumAfter(shifts, i))
  }

  lemma MovedByStep(xs: seq<int>, shifts: seq<int>, x: int, shift: int)
    requires |xs| == |shifts|
    ensures MovedBy(xs + [x], shifts + [shift]) == Moved(MovedBy(xs, shifts), shift) + [x]
  {
    var ys, zs := MovedBy(xs + [x], shifts + [shift]), Moved(MovedBy(xs, shifts), shift) + [x];
    forall i | 0 <= i < |ys| ensures ys[i] == zs[i] {
      assert ys[i] == (xs + [x])[i] + SumAfter(shifts + [shift], i);
      if i < |xs| {
        assert (shifts + [shift])[i + 1..] == shifts[i + 1..] + [shift];
        SumAppend(shifts[i + 1..], shift);
      }
    }
  }

  /**
   A pass over some stops: their starts when they were reached, the shifts taken, the starts as
   the shifts have moved them, and where the pass goes on.
   */
  datatype Pass = Pass(starts: seq<int>, shifts: seq<int>, moved: seq<int>, now: int, budget: int) {
    ghost function Advance(stop: Stop): Pass {
      var start, shift := stop.Earliest(now), ShiftAt(stop, now, budget);
      Pass(starts + [start], shifts + [shift], Moved(moved, shift) + [start],
           stop.Leave(start), BudgetAfter(stop, now, budget))
    }

    /** The pass agrees with the timetables on the stops behind it. */
    ghost predicate Agrees(stops: seq<Stop>, first: int, total: int) {
      && |starts| == |shifts| <= |stops|
      && Earliest(stops, first) == starts + Earliest(stops[|starts|..], now)
      && Shifts(stops, first, total) == shifts + Shifts(stops[|starts|..], now, budget)
    }
  }

  ghost function PassAt(stops: seq<Stop>, first: int, i: nat): (pass: Pass)
    requires i <= |stops|
    ensures |pass.starts| == |pass.shifts| == |pass.moved| == i
  {
    if i == 0 then Pass([], [], [], first, INFINITE_TIME_INTERVAL) else PassAt(stops, first, i - 1).Advance(stops[i - 1])
  }

  lemma EarliestUnfolds(stops: seq<Stop>, i: nat, now: int)
    requires i < |stops|
    ensures var start := stops[i].Earliest(now);
            Earliest(stops[i..], now) == [start] + Earliest(stops[i + 1..], stops[i].Leave(start))
  {
    assert stops[i..][1..] == stops[i + 1..];
  }

  lemma ShiftsUnfold(stops: seq<Stop>, i: nat, now: int, budget: int)
    requires i < |stops|
    ensures Shifts(stops[i..], now, budget)
         == [ShiftAt(stops[i], now, budget)]
            + Shifts(stops[i + 1..], stops[i].Leave(stops[i].Earliest(now)), BudgetAfter(stops[i], now, budget))
  {
    assert stops[i..][1..] == stops[i + 1..];
    ShiftsTail(stops[i..], now, budget);
  }

  lemma AgreesStep(stops: seq<Stop>, first: int, total: int, pass: Pass)
    requires |pass.starts| < |stops| && pass.Agrees(stops, first, total)
    ensures pass.Advance(stops[|pass.starts|]).Agrees(stops, first, total)
  {
    var i := |pass.starts|;
    var next := pass.Advance(stops[i]);
    assert Earliest(stops, first) == next.starts + Earliest(stops[i + 1..], next.now) by {
      EarliestUnfolds(stops, i, pass.now);
    }
    assert Shifts(stops, first, total) == next.shifts + Shifts(stops[i + 1..], next.now, next.budget) by {
      ShiftsUnfold(stops, i, pass.now, pass.budget);
    }
  }

  lemma {:induction false} PassAgrees(stops: seq<Stop>, first: int, i: nat)
    requires i <= |stops|
    ensures PassAt(stops, first, i).Agrees(stops, first, INFINITE_TIME_INTERVAL)
  {
    if i == 0 {
      assert stops[0..] == stops;
    } else {
      PassAgrees(stops, first, i - 1);
      AgreesStep(stops, first, INFINITE_TIME_INTERVAL, PassAt(stops, first, i - 1));
    }
  }

  lemma {:induction false} PassMoves(stops: seq<Stop>, first: int, i: nat)
    requires i <= |stops|
    ensures var pass := PassAt(stops, first, i); pass.moved == MovedBy(pass.starts, pass.shifts)
  {
    if i > 0 {
      PassMoves(stops, first, i - 1);
      var stop, pass := stops[i - 1], PassAt(stops, first, i - 1);
      MovedByStep(pass.starts, pass.shifts, stop.Earliest(pass.now), ShiftAt(stop, pass.now, pass.budget));
    }
  }

  lemma PassEnds(stops: seq<Stop>, first: int)
    ensures var pass := PassAt(stops, first, |stops|);
            && pass.starts == Earliest(stops, first)
            && pass.moved == Slid(stops, first, INFINITE_TIME_INTERVAL)
  {
    PassAgrees(stops, first, |stops|);
    PassMoves(stops, first, |stops|);
    var pass := PassAt(stops, first, |stops|);
    assert stops[|stops|..] == [];
    assert Earliest(stops, first) == pass.starts && Shifts(stops, first, INFINITE_TIME_INTERVAL) == pass.shifts;
    assert MovedBy(pass.starts, pass.shifts) == Slid(stops, first, INFINITE_TIME_INTERVAL);
  }

  /** What the allocations hold when the pass is over. */
  lemma PassIsSchedule(matrix: DistanceMatrix, allocations: seq<WaybillAllocation>, first: int)
    requires Holds(matrix, allocations, PassAt(Stops(matrix, allocations), first, |allocations|).moved)
    ensures Holds(matrix, allocations, Slid(Stops(matrix, allocations), first, INFINITE_TIME_INTERVAL))
    ensures IsRouted(matrix, allocations) && IsLateOnlyIfMust(matrix, allocations, first)
    ensures forall i :: 0 <= i < |allocations| ==> RespectsWindowAndTravel(allocations, first, i)
    ensures allocations != [] ==> StartsWithinBudget(matrix, allocations, first)
  {
    PassEnds(Stops(matrix, allocations), first);
    HeldSlid(matrix, allocations, first);
    if allocations != [] { HeldFirst(matrix, allocations, first); }
  }

  /** One more stop, spelled out as the loop body computes it. */
  lemma PassStep(stops: seq<Stop>, first: int, i: nat, pass: Pass) returns (next: Pass)
    requires i < |stops| && pass == PassAt(stops, first, i)
    ensures next == PassAt(stops, first, i + 1)
    ensures var stop := stops[i];
            var shift := Max(0, Min(stop.window.start - pass.now, pass.budget));
            var start := Max(pass.now + shift, stop.window.start);
            && |pass.moved| == i
            && next.moved == Moved(pass.moved, shift) + [start]
            && next.budget == Min(pass.budget - shift, stop.window.end - (start + stop.duration))
            && next.now == start + stop.duration + stop.travel
  {
    next := pass.Advance(stops[i]);
    TakenShiftKeepsStart(stops[i], pass.now, pass.budget);
  }

  /** The step both schedulers end an iteration with: allocation i gets its start and end time. */
  method Place(matrix: DistanceMatrix, waybill: Waybill, i: nat, start: int, ghost placed: seq<int>)
    requires waybill.Valid() && |placed| == i < |waybill.allocations|
    requires Holds(matrix, waybill.allocations, placed)
    requires waybill.allocations[i].nextRouteInfo == RouteAfter(matrix, waybill.allocations, i)
    modifies waybill.allocations[i]
    ensures waybill.allocations[i].nextRouteInfo == old(waybill.allocations[i].nextRouteInfo)
    ensures waybill.allocations[i].startTime == start
    ensures waybill.allocations[i].endTime == start + waybill.allocations[i].plannedDuration
    ensures Holds(matrix, waybill.allocations, placed + [start])
  {
    waybill.allocations[i].startTime := start;
    waybill.allocations[i].endTime := waybill.allocations[i].startTime + waybill.allocations[i].plannedDuration;
  }

  class LinearWaybillSchedulingAlgorithm {
    const matrix: DistanceMatrix

    constructor (matrix: DistanceMatrix)
      ensures this.matrix == matrix
    {
      this.matrix := matrix;
    }

    method ScheduleWaybill(waybill: Waybill)
      requires waybill.Valid()
      modifies waybill.allocations
      ensures Holds(matrix, waybill.allocations, Earliest(Stops(matrix, waybill.allocations), waybill.workShift.start))
      ensures IsRouted(matrix, waybill.allocations)
      ensures forall i :: 0 <= i < |waybill.allocations| ==>
                waybill.allocations[i].startTime
                == Max(Arrival(waybill.allocations, waybill.workShift.start, i), Opening(waybill.allocations[i]))
    {
      var currentTime := waybill.workShift.start;
      ghost var stops := Stops(matrix, waybill.allocations);
      for i := 0 to |waybill.allocations|
        invariant currentTime == PassAt(stops, waybill.workShift.start, i).now
        invariant Holds(matrix, waybill.allocations, PassAt(stops, waybill.workShift.start, i).starts)
      {
        var allocation := waybill.allocations[i];
        allocation.nextRouteInfo := RouteAfter(matrix, waybill.allocations, i);
        var tw := allocation.NearestNextTimeWindow();
        Place(matrix, waybill, i, Max(currentTime, tw.start), PassAt(stops, waybill.workShift.start, i).starts);
        currentTime := allocation.endTime + allocation.nextRouteInfo.duration;
      }
      PassEnds(stops, waybill.workShift.start);
      HeldAsSoonAsPossible(matrix, waybill.allocations, waybill.workShift.start);
    }
  }

  class BilinearWaybillSchedulingAlgorithm {
    const matrix: DistanceMatrix

    constructor (matrix: DistanceMatrix)
      ensures this.matrix == matrix
    {
      this.matrix := matrix;
    }

    /** The inner loop: a positive shift moves the allocations i, i-1, ..., 0 to the right. */
    method ShiftPrefix(waybill: Waybill, i: nat, shift: int, ghost done: seq<int>)
      requires waybill.Valid() && i < |waybill.allocations| && |done| == i && 0 <= shift
      requires Holds(matrix, waybill.allocations, done)
      modifies waybill.allocations
      ensures Holds(matrix, waybill.allocations, Moved(done, shift))
      ensures waybill.allocations[i].nextRouteInfo == old(waybill.allocations[i].nextRouteInfo)
    {
      if shift == 0 {
        assert Moved(done, shift) == done;
        return;
      }
      var j := i;
      while 0 <= j
        invariant -1 <= j <= i
        invariant forall k :: 0 <= k < i ==>
          HoldsAt(matrix, waybill.allocations, k, if k <= j then done[k] else done[k] + shift)
        invariant waybill.allocations[i].nextRouteInfo == old(waybill.allocations[i].nextRouteInfo)
      {
        waybill.allocations[j].ShiftStartTime(shift);
        j := j - 1;
      }
    }

    /** One turn of the loop: allocation i is routed, the prefix is moved, and allocation i gets its times. */
    method ScheduleNext(waybill: Waybill, i: nat, now: int, budget: int, ghost first: int, ghost pass: Pass)
      returns (currentTime: int, shiftBudget: int, ghost next: Pass)
      requires waybill.Valid() && i < |waybill.allocations|
      requires pass == PassAt(Stops(matrix, waybill.allocations), first, i) && now == pass.now && budget == pass.budget
      requires |pass.moved| == i && Holds(matrix, waybill.allocations, pass.moved)
      modifies waybill.allocations
      ensures next == PassAt(Stops(matrix, waybill.allocations), first, i + 1) && currentTime == next.now && shiftBudget == next.budget
      ensures |next.moved| == i + 1 && Holds(matrix, waybill.allocations, next.moved)
    {
      ghost var moved := pass.moved;
      next := PassStep(Stops(matrix, waybill.allocations), first, i, pass);
      var allocation := waybill.allocations[i];
      allocation.nextRouteInfo := RouteAfter(matrix, waybill.allocations, i);
      var tw := allocation.NearestNextTimeWindow();
      var waitingTime := tw.start - now;
      var shift := Max(0, Min(waitingTime, budget));
      ShiftPrefix(waybill, i, shift, moved);
      currentTime := now + shift;
      shiftBudget := budget - shift;

      Place(matrix, waybill, i, Max(currentTime, tw.start), Moved(moved, shift));
      shiftBudget := Min(shiftBudget, tw.end - allocation.endTime);
      currentTime := allocation.endTime + allocation.nextRouteInfo.duration;
    }

    method ScheduleWaybill(waybill: Waybill)
      requires waybill.Valid()
      modifies waybill.allocations
      ensures Holds(matrix, waybill.allocations,
                    Slid(Stops(matrix, waybill.allocations), waybill.workShift.start, INFINITE_TIME_INTERVAL))
      ensures IsRouted(matrix, waybill.allocations)
      ensures forall i :: 0 <= i < |waybill.allocations| ==> RespectsWindowAndTravel(waybill.allocations, waybill.workShift.start, i)
      ensures IsLateOnlyIfMust(matrix, waybill.allocations, waybill.workShift.start)
      ensures waybill.allocations != [] ==> StartsWithinBudget(matrix, waybill.allocations, waybill.workShift.start)
    {
      var currentTime := waybill.workShift.start;
      var shiftBudget := INFINITE_TIME_INTERVAL;
      ghost var stops := Stops(matrix, waybill.allocations);
      ghost var pass := PassAt(stops, waybill.workShift.start, 0);
      for i := 0 to |waybill.allocations|
        invariant pass == PassAt(stops, waybill.workShift.start, i)
        invariant currentTime == pass.now && shiftBudget == pass.budget
        invariant |pass.moved| == i && Holds(matrix, waybill.allocations, pass.moved)
      {
        currentTime, shiftBudget, pass := ScheduleNext(waybill, i, currentTime, shiftBudget, waybill.workShift.start, pass);
      }
      PassIsSchedule(matrix, waybill.allocations, waybill.workShift.start);
    }
  }
}
