/** The read-through route cache in front of a backend, on a store it shares with other engines. */
module RedisCache {
  import opened Concepts
  import opened Decimal
  import opened LocationKeys
  import opened RedisSerializer
  import opened Runs

  type Backend = (Location, Location) -> Result<RouteDetails>

  /** The backend that an engine with these settings has. */
  type Backends = Settings -> Backend

  predicate Storable(details: RouteDetails) {
    FitsTypes(details) && |details.waypoints| <= INT32_MAX
  }

  ghost predicate AnswersAreStorable(backends: Backends) {
    forall settings, o, d :: backends(settings)(o, d).Success? ==> Storable(backends(settings)(o, d).value)
  }

  function Key(text: DistanceText, settings: Settings, o: Location, d: Location): string {
    SerializeKey(o, d, Suffix(text, settings))
  }

  /** Two engines look up one key exactly when it is for the same pair and their suffixes agree, thousandth for thousandth. */
  lemma KeysAgreeIff(text: DistanceText, limit: int, x: Settings, y: Settings, j: int, k: int, o: Location, d: Location, o': Location, d': Location)
    requires TellsThousandthsApart(text, limit) && -limit <= j <= limit && -limit <= k <= limit
    requires IsNearest(j, x.speed) && IsNearest(k, y.speed)
    ensures Key(text, x, o, d) == Key(text, y, o', d') <==>
              && o == o' && d == d'
              && x.engineType == y.engineType && x.retrieveWaypoints == y.retrieveWaypoints && x.geometry == y.geometry && j == k
  {
    SpeedsToldApartIff(text, limit, x, y, j, k);
    if Key(text, x, o, d) == Key(text, y, o', d') {
      SerializeKeyIsInjective(o, d, Suffix(text, x), o', d', Suffix(text, y));
    }
  }

  /** Speeds more than a thousandth apart have no key in common. */
  lemma FarSpeedsShareNoKey(text: DistanceText, limit: int, x: Settings, y: Settings, o: Location, d: Location, o': Location, d': Location)
    requires TellsThousandthsApart(text, limit)
    requires (-limit) as real <= 1000.0 * x.speed <= limit as real && (-limit) as real <= 1000.0 * y.speed <= limit as real
    requires x.speed - y.speed > 0.001 || y.speed - x.speed > 0.001
    ensures Key(text, x, o, d) != Key(text, y, o', d')
  {
    var j := RoundedIsNearest(x.speed);
    var k := RoundedIsNearest(y.speed);
    KeysAgreeIff(text, limit, x, y, j, k, o, d, o', d');
  }

  /** An entry that one of the engines could look up is that engine's own backend's answer for that very pair. */
  ghost predicate Faithful(text: DistanceText, backends: Backends, engines: set<Settings>, entries: map<string, string>) {
    forall e, o, d :: e in engines && o != d && Key(text, e, o, d) in entries ==>
      && backends(e)(o, d).Success?
      && entries[Key(text, e, o, d)] == EncodeDetails(text, backends(e)(o, d).value)
  }

  /** Two backends' answers that look the same once stored. */
  predicate SameWhenStored(text: DistanceText, x: Result<RouteDetails>, y: Result<RouteDetails>) {
    x.Success? == y.Success? && (x.Success? ==> EncodeDetails(text, x.value) == EncodeDetails(text, y.value))
  }

  /** Engines whose settings are printed alike have backends that answer alike. */
  ghost predicate Consistent(text: DistanceText, backends: Backends, engines: set<Settings>) {
    forall a, b, o, d :: a in engines && b in engines && Suffix(text, a) == Suffix(text, b) && o != d ==>
      SameWhenStored(text, backends(a)(o, d), backends(b)(o, d))
  }

  /*---------- The shared store ----------*/

  /**
   A put that gets through, after a miss, a failed read or a forced update of the engine, at any
   later moment; and the store's dropping of entries. Lost puts and lookups leave the store as it is.
   */
  datatype Step = PutAnswer(settings: Settings, o: Location, d: Location) | Evict(keys: set<string>)

  /** The store after a step; None if none of the engines takes it. */
  function After(text: DistanceText, backends: Backends, engines: set<Settings>, entries: map<string, string>, step: Step)
    : Option<map<string, string>>
  {
    match step
    case PutAnswer(e, o, d) =>
      if e !in engines || o == d || backends(e)(o, d).Failure? then None
      else Some(entries[Key(text, e, o, d) := EncodeDetails(text, backends(e)(o, d).value)])
    case Evict(keys) => Some(entries - keys)
  }

  function Sharing(text: DistanceText, backends: Backends, engines: set<Settings>)
    : (map<string, string>, Step) -> Option<map<string, string>>
  {
    (entries: map<string, string>, step: Step) => After(text, backends, engines, entries, step)
  }

  /** A put cannot touch what any other pair, or any engine with another suffix, will look up. */
  lemma PutKeepsFaithful(text: DistanceText, backends: Backends, engines: set<Settings>, entries: map<string, string>,
                         e: Settings, o: Location, d: Location)
    requires Faithful(text, backends, engines, entries) && Consistent(text, backends, engines)
    requires e in engines && o != d && backends(e)(o, d).Success?
    ensures Faithful(text, backends, engines, entries[Key(text, e, o, d) := EncodeDetails(text, backends(e)(o, d).value)])
  {
    var key := Key(text, e, o, d);
    var entries' := entries[key := EncodeDetails(text, backends(e)(o, d).value)];
    forall e', o', d' | e' in engines && o' != d' && Key(text, e', o', d') in entries'
      ensures backends(e')(o', d').Success?
      ensures entries'[Key(text, e', o', d')] == EncodeDetails(text, backends(e')(o', d').value)
    {
      if Key(text, e', o', d') == key {
        SerializeKeyIsInjective(o', d', Suffix(text, e'), o, d, Suffix(text, e));
        assert SameWhenStored(text, backends(e)(o, d), backends(e')(o, d));
      } else {
        assert Key(text, e', o', d') in entries;
      }
    }
  }

  lemma EvictionKeepsFaithful(text: DistanceText, backends: Backends, engines: set<Settings>, entries: map<string, string>, keys: set<string>)
    requires Faithful(text, backends, engines, entries)
    ensures Faithful(text, backends, engines, entries - keys)
  {
  }

  lemma {:induction false} RunsKeepFaithful(text: DistanceText, backends: Backends, engines: set<Settings>, entries: map<string, string>, steps: seq<Step>)
    requires Faithful(text, backends, engines, entries) && Consistent(text, backends, engines)
    requires Run(Sharing(text, backends, engines), entries, steps).Some?
    ensures Faithful(text, backends, engines, Run(Sharing(text, backends, engines), entries, steps).value)
    decreases |steps|
  {
    if steps != [] {
      var entries' := After(text, backends, engines, entries, steps[0]).value;
      match steps[0] {
        case PutAnswer(e, o, d) => PutKeepsFaithful(text, backends, engines, entries, e, o, d);
        case Evict(keys) => EvictionKeepsFaithful(text, backends, engines, entries, keys);
      }
      RunsKeepFaithful(text, backends, engines, entries', steps[1..]);
    }
  }

  /** Every run of the engines on an empty store keeps it faithful for all of them. */
  ghost predicate AlwaysFaithful(text: DistanceText, backends: Backends, engines: set<Settings>) {
    forall entries :: Reaches(Sharing(text, backends, engines), map[], entries) ==> Faithful(text, backends, engines, entries)
  }

  /** One put is enough to mislead another engine. */
  lemma PutMisleads(text: DistanceText, backends: Backends, engines: set<Settings>, a: Settings, b: Settings, o: Location, d: Location)
    requires AlwaysFaithful(text, backends, engines) && a in engines && b in engines && o != d
    requires Suffix(text, a) == Suffix(text, b) && backends(a)(o, d).Success?
    ensures SameWhenStored(text, backends(a)(o, d), backends(b)(o, d))
  {
    OneStep(Sharing(text, backends, engines), map[], PutAnswer(a, o, d));
    var entries := After(text, backends, engines, map[], PutAnswer(a, o, d)).value;
    assert Faithful(text, backends, engines, entries);
    assert Key(text, b, o, d) in entries;
  }

  /** Engines can share a store just when those with one suffix have backends that answer alike. */
  lemma SharedStoreIsFaithfulIff(text: DistanceText, backends: Backends, engines: set<Settings>)
    ensures AlwaysFaithful(text, backends, engines) <==> Consistent(text, backends, engines)
  {
    if AlwaysFaithful(text, backends, engines) {
      forall a, b, o, d | a in engines && b in engines && Suffix(text, a) == Suffix(text, b) && o != d
        ensures SameWhenStored(text, backends(a)(o, d), backends(b)(o, d))
      {
        if backends(a)(o, d).Success? {
          PutMisleads(text, backends, engines, a, b, o, d);
        } else if backends(b)(o, d).Success? {
          PutMisleads(text, backends, engines, b, a, o, d);
        }
      }
    }
    if Consistent(text, backends, engines) {
      forall entries | Reaches(Sharing(text, backends, engines), map[], entries) ensures Faithful(text, backends, engines, entries) {
        var steps: seq<Step> :| Run(Sharing(text, backends, engines), map[], steps) == Some(entries);
        RunsKeepFaithful(text, backends, engines, map[], steps);
      }
    }
  }

  /*---------- Two engines that must not share one ----------*/

  /** Distances travelled straight at the speed of the settings, in whole seconds; the distances themselves are a parameter. */
  function AtSpeed(meters: (Location, Location) -> real, settings: Settings): Backend {
    (o: Location, d: Location) =>
      if settings.speed <= 0.0 then Failure("") else
        var travelled := meters(o, d);
        Success(RouteDetails(RouteInfo(travelled, (travelled / settings.speed).Floor), [o, d]))
  }

  const SLOWER := Settings(Crowflight, 16.66666, false, StraightLine)
  const FASTER := Settings(Crowflight, 16.6669, false, StraightLine)

  lemma SpeedsArePrintedAlike(text: DistanceText)
    ensures Suffix(text, SLOWER) == Suffix(text, FASTER)
  {
    assert Rounded(16.66666) == 16.667 == Rounded(16.6669);
    SuffixesAgreeIff(text, SLOWER, FASTER);
  }

  /** Over a thousand kilometers the faster engine is a second quicker. */
  lemma DurationsDiffer()
    ensures (1000000.0 / SLOWER.speed).Floor == 60000 && (1000000.0 / FASTER.speed).Floor == 59999
  {
  }

  /** Once the slower engine has stored its route, the faster one finds that under its own key. */
  lemma FasterEngineFindsSlowerRoute(text: DistanceText, meters: (Location, Location) -> real, o: Location, d: Location)
    requires text.ReadsBack() && o != d && meters(o, d) == 1000000.0
    requires IsInt64(o.latitude) && IsInt64(o.longitude) && IsInt64(d.latitude) && IsInt64(d.longitude)
    ensures var backends := (settings: Settings) => AtSpeed(meters, settings);
            var entries := After(text, backends, {SLOWER, FASTER}, map[], PutAnswer(SLOWER, o, d));
            && entries.Some? && Key(text, FASTER, o, d) in entries.value
            && backends(FASTER)(o, d) == Success(RouteDetails(RouteInfo(1000000.0, 59999), [o, d]))
            && DecodeDetails(text, entries.value[Key(text, FASTER, o, d)])
               == Some(text.Kept(RouteDetails(RouteInfo(1000000.0, 60000), [o, d])))
            && !Consistent(text, backends, {SLOWER, FASTER})
  {
    SpeedsArePrintedAlike(text);
    DurationsDiffer();
    DetailsRoundTrip(text, RouteDetails(RouteInfo(1000000.0, 60000), [o, d]));
    DetailsRoundTrip(text, RouteDetails(RouteInfo(1000000.0, 59999), [o, d]));
    var backends := (settings: Settings) => AtSpeed(meters, settings);
    assert !SameWhenStored(text, backends(SLOWER)(o, d), backends(FASTER)(o, d));
  }

  /*---------- The engine ----------*/

  datatype CacheEntry = CacheEntry(payload: string, isPresent: bool, isError: bool)

  class CacheStore {
    var entries: map<string, string>
    /** The puts that have been sent, lost ones included. */
    ghost var sent: seq<(string, string)>

    constructor ()
      ensures entries == map[] && sent == []
    {
      entries, sent := map[], [];
    }

    /** A get may fail; then it says nothing about the entry. */
    method Get(key: string) returns (entry: CacheEntry)
      ensures !entry.isError ==> entry.isPresent == (key in entries)
      ensures !entry.isError && entry.isPresent ==> entry.payload == entries[key]
    {
      var failed := *;
      entry := if failed then CacheEntry("", false, true)
               else if key in entries then CacheEntry(entries[key], true, false)
               else CacheEntry("", false, false);
    }

    /** A put is not awaited and may fail unnoticed. */
    method Put(key: string, payload: string)
      modifies this
      ensures entries == old(entries) || entries == old(entries)[key := payload]
      ensures sent == old(sent) + [(key, payload)]
    {
      sent := sent + [(key, payload)];
      var lost := *;
      if !lost { entries := entries[key := payload]; }
    }
  }

  class RedisRouteProviderEngine {
    const serializer: DefaultRedisSerializer
    const store: CacheStore
    const backends: Backends
    const forceUpdate: bool

    constructor (serializer: DefaultRedisSerializer, store: CacheStore, backends: Backends, forceUpdate: bool)
      ensures this.serializer == serializer && this.store == store && this.backends == backends && this.forceUpdate == forceUpdate
    {
      this.serializer, this.store, this.backends, this.forceUpdate := serializer, store, backends, forceUpdate;
    }

    function Backend(o: Location, d: Location): Result<RouteDetails> {
      backends(serializer.settings)(o, d)
    }

    ghost predicate Wired() {
      serializer.suffix == Suffix(serializer.text, serializer.settings) && serializer.text.ReadsBack() && AnswersAreStorable(backends)
    }

    function KeyOf(o: Location, d: Location): string {
      Key(serializer.text, serializer.settings, o, d)
    }

    /**
     Whatever has been cached, lost or dropped before, as long as it was faithful: the answer is the
     backend's own, or, from the cache, the backend's answer with its distance as the text keeps it;
     failures are the backend's. The backend is asked unless the store's entry may be and can be read, and what
     it finds is sent to the store; the store takes that step or none.
     */
    method RetrieveSingleRouteDetails(o: Location, d: Location, ghost engines: set<Settings>)
      returns (result: Result<RouteDetails>, ghost asked: bool)
      requires Wired() && serializer.settings in engines && Faithful(serializer.text, backends, engines, store.entries)
      modifies store
      ensures Consistent(serializer.text, backends, engines) ==> Faithful(serializer.text, backends, engines, store.entries)
      ensures o == d ==> result == Success(RouteDetails(RouteInfo(0.0, 0), [o, d])) && store.entries == old(store.entries)
      ensures o != d && (forceUpdate || KeyOf(o, d) !in old(store.entries)) ==> asked
      ensures asked ==> o != d && result == Backend(o, d)
      ensures o != d && !asked ==> Backend(o, d).Success? && result == Success(serializer.text.Kept(Backend(o, d).value))
      ensures store.sent == old(store.sent) + if asked && Backend(o, d).Success?
                                              then [(KeyOf(o, d), EncodeDetails(serializer.text, Backend(o, d).value))] else []
      ensures store.entries == old(store.entries)
           || Some(store.entries) == After(serializer.text, backends, engines, old(store.entries), PutAnswer(serializer.settings, o, d))
    {
      asked := false;
      if o == d {
        return Success(RouteDetails(RouteInfo.Zero, [o, d])), false;
      }
      var key := SerializeKey(o, d, serializer.suffix);
      var reply := store.Get(key);
      if reply.isError || !reply.isPresent || forceUpdate {
        result, asked := Backend(o, d), true;
        if result.Success? {
          if Consistent(serializer.text, backends, engines) {
            PutKeepsFaithful(serializer.text, backends, engines, store.entries, serializer.settings, o, d);
          }
          var payload := serializer.SerializeRouteDetails(result.value);
          store.Put(key, payload);
        }
      } else {
        DetailsRoundTrip(serializer.text, Backend(o, d).value);
        var details := serializer.DeserializeRouteDetails(reply.payload);
        result := Success(details.value);
      }
    }

    method GetSingleRouteInfo(o: Location, d: Location, ghost engines: set<Settings>) returns (result: Result<RouteInfo>, ghost asked: bool)
      requires Wired() && serializer.settings in engines && Faithful(serializer.text, backends, engines, store.entries)
      modifies store
      ensures Consistent(serializer.text, backends, engines) ==> Faithful(serializer.text, backends, engines, store.entries)
      ensures o == d ==> result == Success(RouteInfo(0.0, 0)) && store.entries == old(store.entries)
      ensures o != d && (forceUpdate || KeyOf(o, d) !in old(store.entries)) ==> asked
      ensures asked ==> o != d && result == Summary(Backend(o, d))
      ensures o != d && !asked ==> Backend(o, d).Success? && result == Success(serializer.text.Kept(Backend(o, d).value).summary)
      ensures store.sent == old(store.sent) + if asked && Backend(o, d).Success?
                                              then [(KeyOf(o, d), EncodeDetails(serializer.text, Backend(o, d).value))] else []
      ensures store.entries == old(store.entries)
           || Some(store.entries) == After(serializer.text, backends, engines, old(store.entries), PutAnswer(serializer.settings, o, d))
    {
      var details;
      details, asked := RetrieveSingleRouteDetails(o, d, engines);
      result := Summary(details);
    }
  }
}
