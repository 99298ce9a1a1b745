/** The router client's batch request: every distinct location is sent once, the answers are fanned out again. */
module BatchClient {
  import opened Concepts
  import opened LocationKeys
  import opened Matrices

  datatype Request = Request(origins: seq<Location>, destinations: seq<Location>)

  datatype Answer = Answer(origin: Location, destination: Location, info: RouteInfo)

  datatype Response = Response(ok: bool, message: string, answers: seq<Answer>)

  /** A response that was never filled in has no status. */
  const EMPTY_RESPONSE := Response(false, "", [])

  /*---------- De-duplication ----------*/

  /** Each location once, in the order of first occurrences. */
  function Distinct(locations: seq<Location>): (ds: seq<Location>) {
    if locations == [] then []
    else
      var front, last := locations[..|locations| - 1], locations[|locations| - 1];
      Distinct(front) + if last in front then [] else [last]
  }

  lemma DistinctUpTo(locations: seq<Location>, p: nat)
    requires p < |locations|
    ensures Distinct(locations[..p + 1])
         == if locations[p] in locations[..p] then Distinct(locations[..p]) else Distinct(locations[..p]) + [locations[p]]
  {
    assert locations[..p + 1][..p] == locations[..p];
    assert Distinct(locations[..p]) + [] == Distinct(locations[..p]);
  }

  lemma {:induction false} DistinctListsEachOnce(locations: seq<Location>)
    ensures forall l :: l in Distinct(locations) <==> l in locations
    ensures forall p, q :: 0 <= p < q < |Distinct(locations)| ==> Distinct(locations)[p] != Distinct(locations)[q]
  {
    if locations != [] {
      var front, last := locations[..|locations| - 1], locations[|locations| - 1];
      DistinctListsEachOnce(front);
      assert locations == front + [last];
    }
  }

  lemma {:induction false} DistinctKeepsOrder(locations: seq<Location>, p: nat, q: nat)
    requires p < q < |Distinct(locations)|
    ensures exists i, j :: 0 <= i < j < |locations| && locations[i] == Distinct(locations)[p] && locations[j] == Distinct(locations)[q]
                           && Distinct(locations)[q] !in locations[..j]
  {
    var front, last := locations[..|locations| - 1], locations[|locations| - 1];
    var n := |Distinct(front)|;
    if q < n {
      DistinctKeepsOrder(front, p, q);
      var i, j :| 0 <= i < j < |front| && front[i] == Distinct(front)[p] && front[j] == Distinct(front)[q] && Distinct(front)[q] !in front[..j];
      assert locations[i] == front[i] && locations[j] == front[j] && front[..j] == locations[..j];
    } else {
      DistinctListsEachOnce(front);
      assert Distinct(front)[p] in front;
      var i :| 0 <= i < |front| && front[i] == Distinct(front)[p];
      assert locations[i] == front[i] && locations[|locations| - 1] == last;
    }
  }

  /** The mapping lists under a key just the places of the one location that has it. */
  ghost predicate Maps(mapping: map<string, seq<nat>>, locations: seq<Location>) {
    && (forall key :: key in mapping ==> mapping[key] != [])
    && (forall key, p {:trigger p in mapping[key]} :: key in mapping && p in mapping[key] ==> p < |locations| && BuildLocationKey(locations[p]) == key)
    && (forall p :: 0 <= p < |locations| ==> BuildLocationKey(locations[p]) in mapping && p in mapping[BuildLocationKey(locations[p])])
  }

  /** The places under the key of a location; none if there is no such key. */
  function Places(mapping: map<string, seq<nat>>, l: Location): seq<nat> {
    if BuildLocationKey(l) in mapping then mapping[BuildLocationKey(l)] else []
  }

  lemma PlacesAreOccurrences(mapping: map<string, seq<nat>>, locations: seq<Location>, l: Location)
    requires Maps(mapping, locations)
    ensures forall p: nat :: p in Places(mapping, l) <==> p < |locations| && locations[p] == l
  {
    forall p: nat | p in Places(mapping, l) ensures p < |locations| && locations[p] == l {
      var key := BuildLocationKey(l);
      assert key in mapping && p in mapping[key];
      BuildLocationKeyIsInjective(locations[p], l);
    }
  }

  /** The mapping after one more place. */
  function WithPlace(mapping: map<string, seq<nat>>, l: Location, p: nat): map<string, seq<nat>> {
    mapping[BuildLocationKey(l) := Places(mapping, l) + [p]]
  }

  lemma KeyIsKnownIff(mapping: map<string, seq<nat>>, locations: seq<Location>, l: Location)
    requires Maps(mapping, locations)
    ensures BuildLocationKey(l) in mapping <==> l in locations
  {
    PlacesAreOccurrences(mapping, locations, l);
    var key := BuildLocationKey(l);
    if key in mapping { assert mapping[key][0] in Places(mapping, l); }
  }

  /** Under each key only places of the location that has it. */
  lemma WithPlaceIsSound(mapping: map<string, seq<nat>>, locations: seq<Location>, l: Location, key: string, q: nat)
    requires Maps(mapping, locations) && key in WithPlace(mapping, l, |locations|) && q in WithPlace(mapping, l, |locations|)[key]
    ensures q < |locations| + 1 && BuildLocationKey((locations + [l])[q]) == key
  {
    if q in Places(mapping, l) { PlacesAreOccurrences(mapping, locations, l); }
  }

  /** And all of them. */
  lemma WithPlaceIsComplete(mapping: map<string, seq<nat>>, locations: seq<Location>, l: Location, q: nat)
    requires Maps(mapping, locations) && q < |locations| + 1
    ensures var key := BuildLocationKey((locations + [l])[q]);
            key in WithPlace(mapping, l, |locations|) && q in WithPlace(mapping, l, |locations|)[key]
  {
    if q < |locations| { assert (locations + [l])[q] == locations[q]; }
  }

  lemma MapsOneMore(mapping: map<string, seq<nat>>, locations: seq<Location>, l: Location)
    requires Maps(mapping, locations)
    ensures Maps(WithPlace(mapping, l, |locations|), locations + [l])
  {
    var mapping' := WithPlace(mapping, l, |locations|);
    forall key, q {:trigger q in mapping'[key]} | key in mapping' && q in mapping'[key]
      ensures q < |locations| + 1 && BuildLocationKey((locations + [l])[q]) == key
    {
      WithPlaceIsSound(mapping, locations, l, key, q);
    }
    forall q | 0 <= q < |locations| + 1
      ensures BuildLocationKey((locations + [l])[q]) in mapping' && q in mapping'[BuildLocationKey((locations + [l])[q])]
    {
      WithPlaceIsComplete(mapping, locations, l, q);
    }
  }

  /** One turn of the loop over the locations. */
  lemma MappingStep(mapping: map<string, seq<nat>>, locations: seq<Location>, p: nat)
    requires p < |locations| && Maps(mapping, locations[..p])
    ensures Maps(WithPlace(mapping, locations[p], p), locations[..p + 1])
    ensures Distinct(locations[..p + 1])
         == if BuildLocationKey(locations[p]) in mapping then Distinct(locations[..p]) else Distinct(locations[..p]) + [locations[p]]
  {
    DistinctUpTo(locations, p);
    KeyIsKnownIff(mapping, locations[..p], locations[p]);
    MapsOneMore(mapping, locations[..p], locations[p]);
    assert locations[..p + 1] == locations[..p] + [locations[p]];
  }

  /*---------- Fan-out ----------*/

  /** The cell of the result after the answers so far: the last answer for its pair counts. */
  function Cell(origins: seq<Location>, destinations: seq<Location>, answers: seq<Answer>, a: nat, b: nat): RouteInfo
    requires a < |origins| && b < |destinations|
  {
    if answers == [] then RouteInfo.Infinity
    else
      var last := answers[|answers| - 1];
      if last.origin == origins[a] && last.destination == destinations[b]
      then if a == b then RouteInfo.Zero else last.info
      else Cell(origins, destinations, answers[..|answers| - 1], a, b)
  }

  ghost predicate AnsweredAtMostOnce(answers: seq<Answer>) {
    forall p, q :: 0 <= p < q < |answers| ==> answers[p].origin != answers[q].origin || answers[p].destination != answers[q].destination
  }

  ghost predicate IsAnswerFor(answer: Answer, o: Location, d: Location) {
    answer.origin == o && answer.destination == d
  }

  /** With one answer a pair, every cell off the diagonal holds its own pair's answer, or infinity without one. */
  lemma {:induction false} CellHoldsOwnAnswer(origins: seq<Location>, destinations: seq<Location>, answers: seq<Answer>, a: nat, b: nat)
    requires a < |origins| && b < |destinations| && AnsweredAtMostOnce(answers)
    ensures forall p :: 0 <= p < |answers| && IsAnswerFor(answers[p], origins[a], destinations[b]) ==>
              Cell(origins, destinations, answers, a, b) == if a == b then RouteInfo.Zero else answers[p].info
    ensures (forall p :: 0 <= p < |answers| ==> !IsAnswerFor(answers[p], origins[a], destinations[b])) ==>
              Cell(origins, destinations, answers, a, b) == RouteInfo.Infinity
  {
    if answers != [] {
      var front, n := answers[..|answers| - 1], |answers| - 1;
      CellHoldsOwnAnswer(origins, destinations, front, a, b);
      assert forall p :: 0 <= p < n ==> front[p] == answers[p];
    }
  }

  /** The server's answers to a request: the route of every requested pair, once. */
  ghost predicate Serves(route: (Location, Location) -> RouteInfo, origins: seq<Location>, destinations: seq<Location>, answers: seq<Answer>) {
    && AnsweredAtMostOnce(answers)
    && (forall p :: 0 <= p < |answers| ==> answers[p].info == route(answers[p].origin, answers[p].destination))
    && (forall a, b :: 0 <= a < |origins| && 0 <= b < |destinations| ==>
          exists p :: 0 <= p < |answers| && IsAnswerFor(answers[p], origins[a], destinations[b]))
  }

  ghost predicate AgreesWithSingleRoutes(route: (Location, Location) -> RouteInfo, origins: seq<Location>, destinations: seq<Location>,
                                         answers: seq<Answer>) {
    forall a: nat, b: nat :: a < |origins| && b < |destinations| ==>
      Cell(origins, destinations, answers, a, b) == route(origins[a], destinations[b])
  }

  /**
   The batch answers like as many single requests exactly when the routes between the origin and
   the destination in the same place are zero, as they are for two equal lists.
   */
  lemma BatchAgreesIff(route: (Location, Location) -> RouteInfo, origins: seq<Location>, destinations: seq<Location>, answers: seq<Answer>)
    requires Serves(route, origins, destinations, answers)
    ensures AgreesWithSingleRoutes(route, origins, destinations, answers) <==>
            forall a :: 0 <= a < |origins| && a < |destinations| ==> route(origins[a], destinations[a]) == RouteInfo.Zero
  {
    forall a: nat, b: nat | a < |origins| && b < |destinations|
      ensures Cell(origins, destinations, answers, a, b) == if a == b then RouteInfo.Zero else route(origins[a], destinations[b])
    {
      var p :| 0 <= p < |answers| && IsAnswerFor(answers[p], origins[a], destinations[b]);
      CellHoldsOwnAnswer(origins, destinations, answers, a, b);
    }
  }

  /** One origin and one other destination: their route is lost. */
  lemma BatchLosesRoutesInTheSamePlace(route: (Location, Location) -> RouteInfo, o: Location, d: Location)
    requires route(o, d) != RouteInfo.Zero
    ensures Serves(route, [o], [d], [Answer(o, d, route(o, d))])
    ensures !AgreesWithSingleRoutes(route, [o], [d], [Answer(o, d, route(o, d))])
  {
    var answers := [Answer(o, d, route(o, d))];
    assert IsAnswerFor(answers[0], [o][0], [d][0]);
    BatchAgreesIff(route, [o], [d], answers);
    assert route([o][0], [d][0]) != RouteInfo.Zero;
  }

  class GrpcRouteProviderEngine {
    /** What the server streams back for a request. */
    const client: Request -> seq<Response>

    constructor (client: Request -> seq<Response>)
      ensures this.client == client
    {
      this.client := client;
    }

    method MapLocations(locations: seq<Location>) returns (distinct: seq<Location>, mapping: map<string, seq<nat>>)
      ensures distinct == Distinct(locations) && Maps(mapping, locations)
    {
      distinct, mapping := [], map[];
      for p := 0 to |locations|
        invariant distinct == Distinct(locations[..p]) && Maps(mapping, locations[..p])
      {
        var l := locations[p];
        var key := BuildLocationKey(l);
        MappingStep(mapping, locations, p);
        if key !in mapping {
          distinct := distinct + [l];
        }
        mapping := WithPlace(mapping, l, p);
      }
      assert locations[..|locations|] == locations;
    }

    method FanOut(answer: Answer, froms: seq<nat>, tos: seq<nat>, matrix: Matrix<RouteInfo>)
      requires matrix.WellFormed()
      requires (forall a :: a in froms ==> a < matrix.rows) && (forall b :: b in tos ==> b < matrix.columns)
      modifies matrix.data
      ensures forall a: nat, b: nat :: a < matrix.rows && b < matrix.columns ==>
                matrix.At(a, b) == if a in froms && b in tos then (if a == b then RouteInfo.Zero else answer.info) else old(matrix.At(a, b))
    {
      for x := 0 to |froms|
        invariant forall a: nat, b: nat :: a < matrix.rows && b < matrix.columns ==>
          matrix.At(a, b) == if a in froms[..x] && b in tos then (if a == b then RouteInfo.Zero else answer.info) else old(matrix.At(a, b))
      {
        for y := 0 to |tos|
          invariant forall a: nat, b: nat :: a < matrix.rows && b < matrix.columns ==>
            matrix.At(a, b) == if (a in froms[..x] && b in tos) || (a == froms[x] && b in tos[..y])
                               then (if a == b then RouteInfo.Zero else answer.info) else old(matrix.At(a, b))
        {
          assert froms[x] in froms && tos[y] in tos;
          matrix.Set(froms[x], tos[y], if froms[x] == tos[y] then RouteInfo.Zero else answer.info);
        }
      }
    }

    /** The matrix holds the cells of the answers. */
    ghost predicate Holds(m: Matrix<RouteInfo>, origins: seq<Location>, destinations: seq<Location>, answers: seq<Answer>)
      reads m.data
    {
      && m.WellFormed() && m.rows == |origins| && m.columns == |destinations|
      && forall a: nat, b: nat :: a < m.rows && b < m.columns ==> m.At(a, b) == Cell(origins, destinations, answers, a, b)
    }

    method Fill(origins: seq<Location>, originsMapping: map<string, seq<nat>>,
                destinations: seq<Location>, destinationsMapping: map<string, seq<nat>>, answers: seq<Answer>)
      returns (m: Matrix<RouteInfo>)
      requires Maps(originsMapping, origins) && Maps(destinationsMapping, destinations)
      ensures fresh(m.data) && Holds(m, origins, destinations, answers)
    {
      m := new Matrix<RouteInfo>(|origins|, |destinations|, (i, j) => RouteInfo.Infinity);
      for p := 0 to |answers|
        invariant fresh(m.data) && Holds(m, origins, destinations, answers[..p])
      {
        var froms, tos := Places(originsMapping, answers[p].origin), Places(destinationsMapping, answers[p].destination);
        PlacesAreOccurrences(originsMapping, origins, answers[p].origin);
        PlacesAreOccurrences(destinationsMapping, destinations, answers[p].destination);
        FanOut(answers[p], froms, tos, m);
        forall a: nat, b: nat | a < |origins| && b < |destinations|
          ensures m.At(a, b) == Cell(origins, destinations, answers[..p + 1], a, b)
        {
          CellStep(origins, destinations, answers, p, a, b);
        }
      }
      assert answers[..|answers|] == answers;
    }

    /** The request lists distinct locations; of several replies only the last is used. */
    method GetRouteInfoMatrix(origins: seq<Location>, destinations: seq<Location>) returns (result: Result<Matrix<RouteInfo>>)
      ensures var replies := client(Request(Distinct(origins), Distinct(destinations)));
              var response := if replies == [] then EMPTY_RESPONSE else replies[|replies| - 1];
              if response.ok then result.Success? && Holds(result.value, origins, destinations, response.answers)
              else result == Failure(response.message)
      ensures client(Request(Distinct(origins), Distinct(destinations))) == [] ==> result == Failure("")
    {
      var distinctOrigins, originsMapping := MapLocations(origins);
      var distinctDestinations, destinationsMapping := MapLocations(destinations);
      var replies := client(Request(distinctOrigins, distinctDestinations));
      var response := EMPTY_RESPONSE;
      for r := 0 to |replies|
        invariant response == if r == 0 then EMPTY_RESPONSE else replies[r - 1]
      {
        response := replies[r];
      }
      if !response.ok {
        return Failure(response.message);
      }
      var m := Fill(origins, originsMapping, destinations, destinationsMapping, response.answers);
      result := Success(m);
    }
  }

  lemma CellStep(origins: seq<Location>, destinations: seq<Location>, answers: seq<Answer>, p: nat, a: nat, b: nat)
    requires p < |answers| && a < |origins| && b < |destinations|
    ensures Cell(origins, destinations, answers[..p + 1], a, b)
         == if IsAnswerFor(answers[p], origins[a], destinations[b])
            then if a == b then RouteInfo.Zero else answers[p].info
            else Cell(origins, destinations, answers[..p], a, b)
  {
    assert answers[..p + 1][..p] == answers[..p];
  }
}
