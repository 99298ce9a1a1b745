/** The plain distance matrix engine, and the caching one that has to answer like it. */
module DistanceMatrixEngines {
  import opened Concepts
  import opened LocationKeys
  import opened Matrices

  datatype ErrorPolicy = ReturnInfinity | Throw

  /** A deterministic route provider whose calls may fail. */
  datatype Backend = Backend(details: (Location, Location) -> Result<RouteDetails>, info: (Location, Location) -> Result<RouteInfo>) {
    /** The short answer is the summary of the long one, and staying in place is no route at all. */
    ghost predicate IsCoherent() {
      && (forall o, d :: info(o, d) == Summary(details(o, d)))
      && (forall l :: details(l, l) == Success(RouteDetails.Zero(l, l)))
    }
  }

  /** Rethrowing by value keeps no more than the base class of the exception. */
  const RETHROWN := "std::exception"

  function ProcessError(policy: ErrorPolicy, o: Location, d: Location): Result<RouteDetails> {
    match policy
    case ReturnInfinity => Success(RouteDetails.Infinity(o, d))
    case Throw => Failure(RETHROWN)
  }

  /** What an engine without any cache answers. */
  function DirectDetails(backend: Backend, policy: ErrorPolicy, o: Location, d: Location): Result<RouteDetails> {
    var reply := backend.details(o, d);
    if reply.Success? then reply else ProcessError(policy, o, d)
  }

  function DirectInfo(backend: Backend, policy: ErrorPolicy, o: Location, d: Location): Result<RouteInfo> {
    var reply := backend.info(o, d);
    if reply.Success? then reply else Summary(ProcessError(policy, o, d))
  }

  /** The right long answer: the backend's route, and without one a billion meters and a million hours, or a failure. */
  ghost predicate AnswersDetails(backend: Backend, policy: ErrorPolicy, o: Location, d: Location, result: Result<RouteDetails>) {
    if backend.details(o, d).Success? then result == Success(backend.details(o, d).value)
    else if policy.ReturnInfinity? then result == Success(RouteDetails(RouteInfo(1000000000.0, 3600000000), [o, d]))
    else result.Failure?
  }

  /** The same for a short answer of the backend. */
  ghost predicate AnswersInfo(backend: Backend, policy: ErrorPolicy, o: Location, d: Location, result: Result<RouteInfo>) {
    if backend.info(o, d).Success? then result == Success(backend.info(o, d).value)
    else if policy.ReturnInfinity? then result == Success(RouteInfo(1000000000.0, 3600000000))
    else result.Failure?
  }

  datatype DirectRequestDistanceMatrixEngine = DirectEngine(backend: Backend, policy: ErrorPolicy, tag: int) {
    function GetRouteDetails(o: Location, d: Location): (result: Result<RouteDetails>)
      ensures AnswersDetails(backend, policy, o, d, result)
    {
      DirectDetails(backend, policy, o, d)
    }

    function GetRouteInfo(o: Location, d: Location): (result: Result<RouteInfo>)
      ensures AnswersInfo(backend, policy, o, d, result)
    {
      DirectInfo(backend, policy, o, d)
    }

    function GetIndexedRouteDetails(o: IndexedLocation, d: IndexedLocation): (result: Result<RouteDetails>)
      ensures AnswersDetails(backend, policy, o.raw, d.raw, result)
    {
      if o.tag != tag || d.tag != tag then GetRouteDetails(o.raw, d.raw) else DirectDetails(backend, policy, o.raw, d.raw)
    }

    function GetIndexedRouteInfo(o: IndexedLocation, d: IndexedLocation): (result: Result<RouteInfo>)
      ensures AnswersInfo(backend, policy, o.raw, d.raw, result)
    {
      if o.tag != tag || d.tag != tag then GetRouteInfo(o.raw, d.raw) else DirectInfo(backend, policy, o.raw, d.raw)
    }

    function AddLocation(location: Location): IndexedLocation {
      IndexedLocation(0, tag, location)
    }
  }

  lemma DirectInfoIsSummary(backend: Backend, policy: ErrorPolicy, o: Location, d: Location)
    requires backend.IsCoherent()
    ensures DirectInfo(backend, policy, o, d) == Summary(DirectDetails(backend, policy, o, d))
  {
  }

  /** The two answers of the plain engine fail together, or have the same distance and duration. */
  lemma ShortAnswersAgree(engine: DirectRequestDistanceMatrixEngine, o: Location, d: Location)
    requires engine.backend.IsCoherent()
    ensures var long, short := engine.GetRouteDetails(o, d), engine.GetRouteInfo(o, d);
            && (long.Success? <==> short.Success?)
            && (long.Success? ==> short.value.distance == long.value.summary.distance && short.value.duration == long.value.summary.duration)
  {
    DirectInfoIsSummary(engine.backend, engine.policy, o, d);
  }

  /*---------- Known locations ----------*/

  /** The locations an engine has been told, each under the key that encode gives it. */
  datatype Index = Index(known: seq<Location>, mapping: map<string, int>, encode: Location -> string) {
    ghost predicate Valid() {
      && (forall i :: 0 <= i < |known| ==> encode(known[i]) in mapping && mapping[encode(known[i])] == i)
      && (forall key :: key in mapping ==> 0 <= mapping[key] < |known| && encode(known[mapping[key]]) == key)
    }

    predicate Knows(l: Location) {
      encode(l) in mapping
    }

    /** The place a location has, or will have once it is added. */
    function Place(l: Location): int {
      if Knows(l) then mapping[encode(l)] else |known|
    }

    /** The known location that is looked up in place of a given one. */
    function Representative(l: Location): Location
      requires Valid()
    {
      if Knows(l) then known[mapping[encode(l)]] else l
    }

    ghost predicate Collides(l: Location) {
      exists i :: 0 <= i < |known| && known[i] != l && encode(known[i]) == encode(l)
    }

    function Added(l: Location): Index {
      if Knows(l) then this else Index(known + [l], mapping[encode(l) := |known|], encode)
    }
  }

  /** A location stands for itself exactly when no other known location has its key. */
  lemma RepresentsItselfIff(index: Index, l: Location)
    requires index.Valid()
    ensures index.Representative(l) == l <==> !index.Collides(l)
  {
    if index.Collides(l) {
      var i :| 0 <= i < |index.known| && index.known[i] != l && index.encode(index.known[i]) == index.encode(l);
      assert index.mapping[index.encode(l)] == i;
    }
  }

  lemma AddedIsValid(index: Index, l: Location)
    requires index.Valid()
    ensures index.Added(l).Valid() && index.known <= index.Added(l).known
    ensures var added := index.Added(l);
            && added.Knows(l) && added.Place(l) == index.Place(l) && 0 <= index.Place(l) < |added.known|
            && added.known[index.Place(l)] == added.Representative(l) == index.Representative(l)
  {
  }

  /** Adding a location changes nothing about the known ones. */
  lemma AddedKeepsKnown(index: Index, l: Location, m: Location)
    requires index.Valid() && index.Knows(m)
    ensures index.Added(l).Valid() && index.Added(l).Knows(m)
    ensures index.Added(l).Place(m) == index.Place(m) && index.Added(l).Representative(m) == index.Representative(m)
  {
    AddedIsValid(index, l);
  }

  /*---------- The cache ----------*/

  /** The route between two known locations, as the cache keeps it: no request for staying in place. */
  function CellDetails(backend: Backend, policy: ErrorPolicy, known: seq<Location>, i: nat, j: nat): Result<RouteDetails>
    requires i < |known| && j < |known|
  {
    if i == j then Success(RouteDetails.Zero(known[i], known[j])) else DirectDetails(backend, policy, known[i], known[j])
  }

  lemma CellsAnswerDirectly(backend: Backend, policy: ErrorPolicy, known: seq<Location>, i: nat, j: nat)
    requires backend.IsCoherent() && i < |known| && j < |known|
    ensures CellDetails(backend, policy, known, i, j) == DirectDetails(backend, policy, known[i], known[j])
  {
  }

  /** Zero meters and seconds on the diagonal, and the answer for the two known locations everywhere else. */
  ghost predicate AnswersCell(backend: Backend, policy: ErrorPolicy, known: seq<Location>, i: int, j: int, result: Result<RouteDetails>) {
    && 0 <= i < |known| && 0 <= j < |known|
    && if i == j then result == Success(RouteDetails(RouteInfo(0.0, 0), [known[i], known[j]]))
       else AnswersDetails(backend, policy, known[i], known[j], result)
  }

  /** The distance and the duration of such an answer. */
  ghost predicate AnswersCellShortly(backend: Backend, policy: ErrorPolicy, known: seq<Location>, i: int, j: int, result: Result<RouteInfo>) {
    && 0 <= i < |known| && 0 <= j < |known|
    && if i == j then result == Success(RouteInfo(0.0, 0))
       else if backend.details(known[i], known[j]).Success? then
         var route := backend.details(known[i], known[j]).value;
         result == Success(RouteInfo(route.summary.distance, route.summary.duration))
       else if policy.ReturnInfinity? then result == Success(RouteInfo(1000000000.0, 3600000000))
       else result.Failure?
  }

  lemma CellsAnswer(backend: Backend, policy: ErrorPolicy, known: seq<Location>, i: nat, j: nat)
    requires i < |known| && j < |known|
    ensures AnswersCell(backend, policy, known, i, j, CellDetails(backend, policy, known, i, j))
    ensures AnswersCellShortly(backend, policy, known, i, j, Summary(CellDetails(backend, policy, known, i, j)))
  {
  }

  /** All cells of a square matrix over the first known locations are right. */
  ghost predicate CellsAreRight(backend: Backend, policy: ErrorPolicy, known: seq<Location>, m: Matrix<RouteDetails>)
    reads m.data
  {
    m.WellFormed() && m.rows == m.columns <= |known| && FilledUpTo(backend, policy, known, m, m.rows, 0)
  }

  /** The cells before (i, j), row by row, are right. */
  ghost predicate FilledUpTo(backend: Backend, policy: ErrorPolicy, known: seq<Location>, m: Matrix<RouteDetails>, i: nat, j: nat)
    requires m.WellFormed() && m.rows == m.columns <= |known|
    reads m.data
  {
    forall a: nat, b: nat :: a < m.rows && b < m.rows && (a < i || (a == i && b < j)) ==>
      CellDetails(backend, policy, known, a, b) == Success(m.At(a, b))
  }

  lemma CellsStayRight(backend: Backend, policy: ErrorPolicy, known: seq<Location>, known': seq<Location>, m: Matrix<RouteDetails>)
    requires CellsAreRight(backend, policy, known, m) && known <= known'
    ensures CellsAreRight(backend, policy, known', m)
  {
    forall a: nat, b: nat | a < m.rows && b < m.rows
      ensures CellDetails(backend, policy, known', a, b) == Success(m.At(a, b))
    {
      assert CellDetails(backend, policy, known, a, b) == Success(m.At(a, b));
    }
  }

  /** Some route that the cache of the first r locations lacks cannot be found. */
  ghost predicate LacksRoute(backend: Backend, known: seq<Location>, r: nat) {
    exists i: nat, j: nat :: Lacking(backend, known, r, i, j)
  }

  ghost predicate Lacking(backend: Backend, known: seq<Location>, r: nat, i: nat, j: nat) {
    i < |known| && j < |known| && (r <= i || r <= j) && i != j && backend.details(known[i], known[j]).Failure?
  }

  lemma FilledLacksNothing(backend: Backend, policy: ErrorPolicy, known: seq<Location>, m: Matrix<RouteDetails>, r: nat)
    requires CellsAreRight(backend, policy, known, m) && m.rows == |known|
    ensures policy.Throw? ==> !LacksRoute(backend, known, r)
  {
    forall i: nat, j: nat | policy.Throw? && i < |known| && j < |known| ensures !Lacking(backend, known, r, i, j) {
      assert CellDetails(backend, policy, known, i, j) == Success(m.At(i, j));
    }
  }

  /*---------- Counting requests ----------*/

  /** Requests for the cells of row i before column j, when the first r rows and columns are there already. */
  function RowRequests(i: nat, j: nat, r: nat): nat {
    if i < r then Max(0, j - r) else if i < j then j - 1 else j
  }

  function Requests(i: nat, n: nat, r: nat): nat {
    if i == 0 then 0 else Requests(i - 1, n, r) + RowRequests(i - 1, n, r)
  }

  lemma {:induction false} RequestsClosed(i: nat, n: nat, r: nat)
    requires r <= n && i <= n
    ensures Requests(i, n, r) == if i <= r then i * (n - r) else r * (n - r) + (i - r) * (n - 1)
  {
    if i > 0 {
      RequestsClosed(i - 1, n, r);
      if i <= r {
        assert i * (n - r) == (i - 1) * (n - r) + (n - r);
      } else {
        assert (i - r) * (n - 1) == (i - 1 - r) * (n - 1) + (n - 1);
      }
    }
  }

  /** Growing from r to n locations requests just what n locations need and r have not requested. */
  lemma GrowthRequests(n: nat, r: nat)
    requires r <= n
    ensures r * (r - 1) + Requests(n, n, r) == n * (n - 1)
  {
    RequestsClosed(n, n, r);
    var g := n - r;
    assert n * (n - 1) == (r + g) * (r + g - 1) == r * (r - 1) + r * g + g * (r + g - 1);
  }

  class FullMatrixCacheDistanceMatrixEngine {
    const backend: Backend
    const policy: ErrorPolicy
    const tag: int
    var index: Index
    var isInitialized: bool
    var cache: Matrix?<RouteDetails>
    /** Requests to the backend made for cells of the cache, also those that failed. */
    ghost var cellRequests: nat

    ghost function CachedCount(): nat
      reads this
    {
      if cache == null then 0 else cache.rows
    }

    ghost predicate Sound()
      reads this, if cache == null then {} else {cache.data}
    {
      && index.Valid()
      && (cache != null ==> CellsAreRight(backend, policy, index.known, cache))
      && (isInitialized ==> cache != null && cache.rows == |index.known|)
    }

    /** A sound cache that never makes a request twice: n locations have cost n(n-1) requests. */
    ghost predicate Valid()
      reads this, if cache == null then {} else {cache.data}
    {
      Sound() && (policy.ReturnInfinity? ==> cellRequests == CachedCount() * (CachedCount() - 1))
    }

    constructor (backend: Backend, policy: ErrorPolicy, tag: int)
      ensures Valid() && this.backend == backend && this.policy == policy && this.tag == tag
      ensures index == Index([], map[], EncodeLocation) && cellRequests == 0
    {
      this.backend, this.policy, this.tag := backend, policy, tag;
      index, isInitialized, cache, cellRequests := Index([], map[], EncodeLocation), false, null, 0;
    }

    method AddLocation(location: Location) returns (indexed: IndexedLocation)
      requires Valid()
      modifies this`index, this`isInitialized
      ensures Valid() && index == old(index).Added(location)
      ensures indexed == IndexedLocation(old(index).Place(location), tag, location)
    {
      AddedIsValid(index, location);
      if cache != null { CellsStayRight(backend, policy, index.known, index.Added(location).known, cache); }
      isInitialized := false;
      var key := index.encode(location);
      if key in index.mapping {
        return IndexedLocation(index.mapping[key], tag, location);
      }
      index := Index(index.known + [location], index.mapping[key := |index.known|], index.encode);
      indexed := IndexedLocation(|index.known| - 1, tag, location);
    }

    /** The supplier of a cell's value: from the old cache, or nothing for staying in place, or from the backend. */
    method Supply(i: nat, j: nat) returns (cell: Result<RouteDetails>)
      requires cache != null ==> CellsAreRight(backend, policy, index.known, cache)
      requires i < |index.known| && j < |index.known|
      modifies this`cellRequests
      ensures cell == CellDetails(backend, policy, index.known, i, j) && AnswersCell(backend, policy, index.known, i, j, cell)
      ensures cellRequests == old(cellRequests) + if i == j || (i < CachedCount() && j < CachedCount()) then 0 else 1
    {
      CellsAnswer(backend, policy, index.known, i, j);
      if cache != null && i < cache.rows && j < cache.columns {
        return Success(cache.At(i, j));
      }
      if i == j {
        return Success(RouteDetails.Zero(index.known[i], index.known[j]));
      }
      cellRequests := cellRequests + 1;
      cell := backend.details(index.known[i], index.known[j]);
      if cell.Failure? {
        cell := ProcessError(policy, index.known[i], index.known[j]);
      }
    }

    /** The constructor of the new matrix, which ends with the supplier's first failure. */
    method Rebuild() returns (newCache: Matrix?<RouteDetails>)
      requires cache != null ==> CellsAreRight(backend, policy, index.known, cache)
      modifies this`cellRequests
      ensures newCache == null ==> policy.Throw? && LacksRoute(backend, index.known, CachedCount())
      ensures newCache != null ==> CellsAreRight(backend, policy, index.known, newCache) && newCache.rows == |index.known|
      ensures newCache != null ==> cellRequests == old(cellRequests) + Requests(|index.known|, |index.known|, CachedCount())
    {
      ghost var r, requests := CachedCount(), cellRequests;
      var n := |index.known|;
      var m := new Matrix<RouteDetails>.Blank(n, n);
      for i := 0 to n
        invariant FilledUpTo(backend, policy, index.known, m, i, 0)
        invariant cellRequests == requests + Requests(i, n, r)
      {
        for j := 0 to n
          invariant FilledUpTo(backend, policy, index.known, m, i, j)
          invariant cellRequests == requests + Requests(i, n, r) + RowRequests(i, j, r)
        {
          var cell := Supply(i, j);
          if cell.Failure? {
            assert Lacking(backend, index.known, r, i, j);
            return null;
          }
          m.Set(i, j, cell.value);
        }
      }
      newCache := m;
    }

    /** Fails, changing nothing that is cached, exactly when errors are thrown and a missing route cannot be found. */
    method Initialize() returns (ok: bool)
      requires Valid()
      modifies this`isInitialized, this`cache, this`cellRequests
      ensures Valid() && isInitialized == ok
      ensures ok <==> old(isInitialized) || policy.ReturnInfinity? || !LacksRoute(backend, index.known, old(CachedCount()))
      ensures !ok || old(isInitialized) ==> cache == old(cache)
    {
      if isInitialized { return true; }
      var newCache := Rebuild();
      if newCache == null { return false; }
      GrowthRequests(|index.known|, CachedCount());
      FilledLacksNothing(backend, policy, index.known, newCache, CachedCount());
      cache := newCache;
      isInitialized := true;
      ok := true;
    }

    /** Whether looking up known locations now would throw. */
    ghost predicate WouldThrow()
      reads this
    {
      policy.Throw? && !isInitialized && LacksRoute(backend, index.known, CachedCount())
    }

    method GetCachedRouteDetails(i: nat, j: nat) returns (result: Result<RouteDetails>)
      requires Valid() && i < |index.known| && j < |index.known|
      modifies this`isInitialized, this`cache, this`cellRequests
      ensures Valid()
      ensures result == if old(WouldThrow()) then Failure(RETHROWN) else CellDetails(backend, policy, index.known, i, j)
      ensures if old(WouldThrow()) then result.Failure? else AnswersCell(backend, policy, index.known, i, j, result)
      ensures policy.ReturnInfinity? ==> cellRequests == |index.known| * (|index.known| - 1)
    {
      CellsAnswer(backend, policy, index.known, i, j);
      if !isInitialized {
        var ok := Initialize();
        if !ok { return Failure(RETHROWN); }
      }
      result := Success(cache.At(i, j));
    }

    method GetRouteDetails(o: Location, d: Location) returns (result: Result<RouteDetails>)
      requires Valid()
      modifies this`isInitialized, this`cache, this`cellRequests
      ensures Valid()
      ensures result == if !index.Knows(o) || !index.Knows(d) then DirectDetails(backend, policy, o, d)
                        else if old(WouldThrow()) then Failure(RETHROWN)
                        else CellDetails(backend, policy, index.known, index.Place(o), index.Place(d))
      ensures if !index.Knows(o) || !index.Knows(d) then AnswersDetails(backend, policy, o, d, result)
              else if old(WouldThrow()) then result.Failure?
              else AnswersCell(backend, policy, index.known, index.Place(o), index.Place(d), result)
    {
      if index.encode(o) in index.mapping && index.encode(d) in index.mapping {
        result := GetCachedRouteDetails(index.mapping[index.encode(o)], index.mapping[index.encode(d)]);
      } else {
        result := backend.details(o, d);
        if result.Failure? { result := ProcessError(policy, o, d); }
      }
    }

    method GetRouteInfo(o: Location, d: Location) returns (result: Result<RouteInfo>)
      requires Valid()
      modifies this`isInitialized, this`cache, this`cellRequests
      ensures Valid()
      ensures result == if !index.Knows(o) || !index.Knows(d) then DirectInfo(backend, policy, o, d)
                        else if old(WouldThrow()) then Failure(RETHROWN)
                        else Summary(CellDetails(backend, policy, index.known, index.Place(o), index.Place(d)))
      ensures if !index.Knows(o) || !index.Knows(d) then AnswersInfo(backend, policy, o, d, result)
              else if old(WouldThrow()) then result.Failure?
              else AnswersCellShortly(backend, policy, index.known, index.Place(o), index.Place(d), result)
    {
      if index.encode(o) in index.mapping && index.encode(d) in index.mapping {
        var details := GetCachedRouteDetails(index.mapping[index.encode(o)], index.mapping[index.encode(d)]);
        CellsAnswer(backend, policy, index.known, index.Place(o), index.Place(d));
        result := Summary(details);
      } else {
        result := backend.info(o, d);
        if result.Failure? { result := Summary(ProcessError(policy, o, d)); }
      }
    }

    method GetIndexedRouteDetails(o: IndexedLocation, d: IndexedLocation) returns (result: Result<RouteDetails>)
      requires Valid() && (o.tag == tag && d.tag == tag ==> Issued(index, o) && Issued(index, d))
      modifies this`isInitialized, this`cache, this`cellRequests
      ensures Valid()
      ensures result == if !index.Knows(o.raw) || !index.Knows(d.raw) then DirectDetails(backend, policy, o.raw, d.raw)
                        else if old(WouldThrow()) then Failure(RETHROWN)
                        else CellDetails(backend, policy, index.known, index.Place(o.raw), index.Place(d.raw))
      ensures if !index.Knows(o.raw) || !index.Knows(d.raw) then AnswersDetails(backend, policy, o.raw, d.raw, result)
              else if old(WouldThrow()) then result.Failure?
              else AnswersCell(backend, policy, index.known, index.Place(o.raw), index.Place(d.raw), result)
    {
      if o.tag != tag || d.tag != tag {
        result := GetRouteDetails(o.raw, d.raw);
      } else {
        result := GetCachedRouteDetails(o.id, d.id);
      }
    }

    method GetIndexedRouteInfo(o: IndexedLocation, d: IndexedLocation) returns (result: Result<RouteInfo>)
      requires Valid() && (o.tag == tag && d.tag == tag ==> Issued(index, o) && Issued(index, d))
      modifies this`isInitialized, this`cache, this`cellRequests
      ensures Valid()
      ensures result == if !index.Knows(o.raw) || !index.Knows(d.raw) then DirectInfo(backend, policy, o.raw, d.raw)
                        else if old(WouldThrow()) then Failure(RETHROWN)
                        else Summary(CellDetails(backend, policy, index.known, index.Place(o.raw), index.Place(d.raw)))
      ensures if !index.Knows(o.raw) || !index.Knows(d.raw) then AnswersInfo(backend, policy, o.raw, d.raw, result)
              else if old(WouldThrow()) then result.Failure?
              else AnswersCellShortly(backend, policy, index.known, index.Place(o.raw), index.Place(d.raw), result)
    {
      if o.tag != tag || d.tag != tag {
        result := GetRouteInfo(o.raw, d.raw);
      } else {
        var details := GetCachedRouteDetails(o.id, d.id);
        CellsAnswer(backend, policy, index.known, o.id, d.id);
        result := Summary(details);
      }
    }
  }

  /** An indexed location as AddLocation hands it out. */
  ghost predicate Issued(index: Index, l: IndexedLocation) {
    index.Knows(l.raw) && l.id == index.Place(l.raw)
  }

  lemma AddedIsIssued(index: Index, l: Location, tag: int)
    requires index.Valid()
    ensures Issued(index.Added(l), IndexedLocation(index.Place(l), tag, l))
    ensures forall m :: Issued(index, m) ==> Issued(index.Added(l), m)
  {
    AddedIsValid(index, l);
    forall m | Issued(index, m) ensures Issued(index.Added(l), m) {
      AddedKeepsKnown(index, l, m.raw);
    }
  }

  /*---------- Refinement of the plain engine ----------*/

  /** What the cache answers for known locations that collide with no other is what the plain engine answers. */
  lemma CacheAnswersDirectly(backend: Backend, policy: ErrorPolicy, index: Index, o: Location, d: Location)
    requires backend.IsCoherent() && index.Valid() && index.Knows(o) && index.Knows(d)
    requires !index.Collides(o) && !index.Collides(d)
    ensures var cell := CellDetails(backend, policy, index.known, index.Place(o), index.Place(d));
            && cell == DirectEngine(backend, policy, 0).GetRouteDetails(o, d)
            && Summary(cell) == DirectEngine(backend, policy, 0).GetRouteInfo(o, d)
  {
    RepresentsItselfIff(index, o);
    RepresentsItselfIff(index, d);
    CellsAnswerDirectly(backend, policy, index.known, index.Place(o), index.Place(d));
    DirectInfoIsSummary(backend, policy, o, d);
  }

  /** A coherent backend under which any two different places are one meter and one second apart. */
  function UnitDetails(o: Location, d: Location): Result<RouteDetails> {
    Success(if o == d then RouteDetails.Zero(o, d) else RouteDetails(RouteInfo(1.0, 1), [o, d]))
  }

  function UnitBackend(): Backend {
    Backend(UnitDetails, (o: Location, d: Location) => Summary(UnitDetails(o, d)))
  }

  ghost predicate AlwaysDirect(policy: ErrorPolicy, index: Index, o: Location)
    requires index.Valid() && index.Knows(o)
  {
    forall backend: Backend, j: nat :: backend.IsCoherent() && j < |index.known| ==>
      CellDetails(backend, policy, index.known, index.Place(o), j) == DirectDetails(backend, policy, o, index.known[j])
  }

  /** The cached routes of a location are its own, whatever the backend, exactly when its key is its own. */
  lemma AlwaysDirectIffNoCollision(policy: ErrorPolicy, index: Index, o: Location)
    requires index.Valid() && index.Knows(o)
    ensures AlwaysDirect(policy, index, o) <==> !index.Collides(o)
  {
    RepresentsItselfIff(index, o);
    if index.Collides(o) {
      var i := index.Place(o);
      assert UnitBackend().IsCoherent();
      assert CellDetails(UnitBackend(), policy, index.known, i, i) != DirectDetails(UnitBackend(), policy, o, index.known[i]);
    } else {
      forall backend: Backend, j: nat | backend.IsCoherent() && j < |index.known|
        ensures CellDetails(backend, policy, index.known, index.Place(o), j) == DirectDetails(backend, policy, o, index.known[j])
      {
        CellsAnswerDirectly(backend, policy, index.known, index.Place(o), j);
      }
    }
  }

  /*---------- A lookup that fails for another route ----------*/

  const A := Location(0, 0)
  const B := Location(0, 1)
  const C := Location(0, 2)

  /** Everything has a route but the way from A to C. */
  function SpottyDetails(o: Location, d: Location): Result<RouteDetails> {
    if o == A && d == C then Failure("no route") else UnitDetails(o, d)
  }

  function SpottyBackend(): (backend: Backend)
    ensures backend.IsCoherent()
  {
    Backend(SpottyDetails, (o: Location, d: Location) => Summary(SpottyDetails(o, d)))
  }

  lemma PlacesHaveOwnKeys()
    ensures EncodeLocation(A) != EncodeLocation(B) && EncodeLocation(A) != EncodeLocation(C) && EncodeLocation(B) != EncodeLocation(C)
  {
    if EncodeLocation(A) == EncodeLocation(B) { EncodeLocationCollidesOnlyAcrossLengths(A, B); }
    if EncodeLocation(A) == EncodeLocation(C) { EncodeLocationCollidesOnlyAcrossLengths(A, C); }
    if EncodeLocation(B) == EncodeLocation(C) { EncodeLocationCollidesOnlyAcrossLengths(B, C); }
  }

  lemma ThreePlacesAdded(index: Index)
    requires index.known == [] && index.mapping == map[]
    requires index.encode(A) != index.encode(B) && index.encode(A) != index.encode(C) && index.encode(B) != index.encode(C)
    ensures var added := index.Added(A).Added(B).Added(C);
            added.known == [A, B, C] && added.Knows(A) && added.Knows(B)
  {
  }

  method AddThree(engine: FullMatrixCacheDistanceMatrixEngine)
    requires engine.Valid()
    modifies engine`index, engine`isInitialized
    ensures engine.Valid() && engine.index == old(engine.index).Added(A).Added(B).Added(C)
  {
    var a := engine.AddLocation(A);
    var b := engine.AddLocation(B);
    var c := engine.AddLocation(C);
  }

  method FillEngine() returns (engine: FullMatrixCacheDistanceMatrixEngine)
    ensures fresh(engine) && engine.Valid() && engine.backend == SpottyBackend() && engine.policy == Throw
    ensures engine.index.known == [A, B, C] && engine.index.Knows(A) && engine.index.Knows(B) && engine.CachedCount() == 0
  {
    engine := new FullMatrixCacheDistanceMatrixEngine(SpottyBackend(), Throw, 0);
    PlacesHaveOwnKeys();
    ThreePlacesAdded(engine.index);
    AddThree(engine);
  }

  /** Under the throwing policy the cache fails for the way from A to B, which the plain engine finds. */
  method MissingRouteFailsOthers() returns (cached: Result<RouteDetails>, direct: Result<RouteDetails>)
    ensures cached == Failure(RETHROWN)
    ensures direct == DirectEngine(SpottyBackend(), Throw, 0).GetRouteDetails(A, B) && direct.Success?
  {
    var engine := FillEngine();
    assert Lacking(engine.backend, engine.index.known, engine.CachedCount(), 0, 2);
    cached := engine.GetRouteDetails(A, B);
    direct := DirectDetails(SpottyBackend(), Throw, A, B);
  }
}
