/** The text form in which routes are kept in redis. */
module RedisSerializer {
  import opened Concepts
  import opened Decimal
  import opened LocationKeys

  /**
   Distances are floating-point numbers, which a stream prints with its default precision: reading
   back gives the number as that precision keeps it.  The digits themselves are not modelled.
   */
  datatype DistanceText = DistanceText(format: real -> string, scan: string -> Option<(real, string)>, kept: real -> real) {
    function Printed(x: real, rest: string): string {
      " " + (format(x) + (" " + rest))
    }

    ghost predicate ReadsBack() {
      forall x, rest :: scan(Printed(x, rest)) == Some((kept(x), " " + rest))
    }

    function Kept(details: RouteDetails): RouteDetails {
      details.(summary := details.summary.(distance := kept(details.summary.distance)))
    }
  }

  /** Durations and coordinates are 64-bit in the source. */
  predicate FitsTypes(details: RouteDetails) {
    IsInt64(details.summary.duration) &&
    forall p :: 0 <= p < |details.waypoints| ==> IsInt64(details.waypoints[p].latitude) && IsInt64(details.waypoints[p].longitude)
  }

  /*---------- The format ----------*/

  function EncodeWaypoint(waypoint: Location, rest: string): string {
    PrintInt(waypoint.latitude) + (" " + (PrintInt(waypoint.longitude) + (" " + rest)))
  }

  function EncodeWaypoints(waypoints: seq<Location>): string {
    if waypoints == [] then "" else EncodeWaypoint(waypoints[0], EncodeWaypoints(waypoints[1..]))
  }

  function EncodeDetails(text: DistanceText, details: RouteDetails): string {
    PrintInt(details.summary.duration)
    + text.Printed(details.summary.distance, PrintInt(|details.waypoints|) + (" " + EncodeWaypoints(details.waypoints)))
  }

  function DecodeWaypoint(s: string): Option<(Location, string)> {
    match ReadFitting(s, INT64_MAX)
    case None => None
    case Some((latitude, s')) =>
      match ReadFitting(s', INT64_MAX)
      case None => None
      case Some((longitude, s'')) => Some((Location(latitude, longitude), s''))
  }

  /** What is still to be read is appended to what has been read, if the reading succeeds. */
  function Appended(found: seq<Location>, more: Option<seq<Location>>): Option<seq<Location>> {
    match more
    case None => None
    case Some(waypoints) => Some(found + waypoints)
  }

  function DecodeWaypoints(s: string, count: nat): Option<seq<Location>>
    decreases count
  {
    if count == 0 then Some([])
    else
      match DecodeWaypoint(s)
      case None => None
      case Some((waypoint, s')) =>
        Appended([waypoint], DecodeWaypoints(s', count - 1))
  }

  /** None stands for a stream that has failed, whose later values are unspecified. */
  function DecodeDetails(text: DistanceText, s: string): Option<RouteDetails> {
    match ReadFitting(s, INT64_MAX)
    case None => None
    case Some((seconds, s1)) =>
      match text.scan(s1)
      case None => None
      case Some((meters, s2)) =>
        match ReadFitting(s2, INT32_MAX)
        case None => None
        case Some((size, s3)) =>
          match DecodeWaypoints(s3, Max(0, size))
          case None => None
          case Some(waypoints) => Some(RouteDetails(RouteInfo(meters, seconds), waypoints))
  }

  /*---------- Round trip ----------*/

  lemma ReadFittingPrinted(v: int, rest: string, max: int)
    ensures ReadFitting(PrintInt(v) + (" " + rest), max) == if -max - 1 <= v <= max then Some((v, " " + rest)) else None
    ensures ReadFitting(" " + (PrintInt(v) + (" " + rest)), max) == if -max - 1 <= v <= max then Some((v, " " + rest)) else None
  {
    ReadPrintedInt(v, " " + rest);
  }

  lemma WaypointRoundTrip(waypoint: Location, rest: string)
    requires IsInt64(waypoint.latitude) && IsInt64(waypoint.longitude)
    ensures DecodeWaypoint(" " + EncodeWaypoint(waypoint, rest)) == Some((waypoint, " " + rest))
  {
    ReadFittingPrinted(waypoint.latitude, PrintInt(waypoint.longitude) + (" " + rest), INT64_MAX);
    ReadFittingPrinted(waypoint.longitude, rest, INT64_MAX);
  }

  lemma {:induction false} WaypointsRoundTrip(waypoints: seq<Location>)
    requires forall p :: 0 <= p < |waypoints| ==> IsInt64(waypoints[p].latitude) && IsInt64(waypoints[p].longitude)
    ensures DecodeWaypoints(" " + EncodeWaypoints(waypoints), |waypoints|) == Some(waypoints)
  {
    if waypoints != [] {
      WaypointRoundTrip(waypoints[0], EncodeWaypoints(waypoints[1..]));
      WaypointsRoundTrip(waypoints[1..]);
      assert [waypoints[0]] + waypoints[1..] == waypoints;
    }
  }

  /**
   A stored route is read back as it was, its distance as the text keeps it, exactly when the
   number of its waypoints fits the 32-bit count; otherwise the stream fails.
   */
  lemma DetailsRoundTrip(text: DistanceText, details: RouteDetails)
    requires text.ReadsBack() && FitsTypes(details)
    ensures DecodeDetails(text, EncodeDetails(text, details))
         == if |details.waypoints| <= INT32_MAX then Some(text.Kept(details)) else None
  {
    var waypoints := EncodeWaypoints(details.waypoints);
    var tail := PrintInt(|details.waypoints|) + (" " + waypoints);
    ReadFittingPrinted(details.summary.duration, text.format(details.summary.distance) + (" " + tail), INT64_MAX);
    assert text.scan(text.Printed(details.summary.distance, tail)) == Some((text.kept(details.summary.distance), " " + tail));
    ReadFittingPrinted(|details.waypoints|, waypoints, INT32_MAX);
    WaypointsRoundTrip(details.waypoints);
  }

  /*---------- Settings ----------*/

  datatype RouterEngineType = UnknownEngine | Osrm | Crowflight | Euclidean | RandomEngine {
    function Code(): nat {
      match this
      case UnknownEngine => 0
      case Osrm => 1
      case Crowflight => 2
      case Euclidean => 3
      case RandomEngine => 4
    }
  }

  datatype OsrmGeometry = Unspecified | StraightLine | Simplified | Full {
    function Code(): nat {
      match this
      case Unspecified => 0
      case StraightLine => 1
      case Simplified => 2
      case Full => 3
    }
  }

  /** What the routes of an engine depend on besides the two places; speeds are in meters per second. */
  datatype Settings = Settings(engineType: RouterEngineType, speed: real, retrieveWaypoints: bool, geometry: OsrmGeometry)

  /** To the nearest thousandth, halves away from zero. */
  function Rounded(speed: real): real {
    if speed < 0.0 then -((0.5 - speed * 1000.0).Floor as real / 1000.0) else (speed * 1000.0 + 0.5).Floor as real / 1000.0
  }

  function FlagText(flag: bool): string {
    if flag then "1" else "0"
  }

  function SuffixEnd(settings: Settings): (end: string) {
    " " + (FlagText(settings.retrieveWaypoints) + (" " + PrintInt(settings.geometry.Code())))
  }

  /** The settings as every key of the engine ends with them. */
  function Suffix(text: DistanceText, settings: Settings): string {
    PrintInt(settings.engineType.Code()) + (" " + (text.format(Rounded(settings.speed)) + SuffixEnd(settings)))
  }

  lemma PrintedDigit(n: nat)
    requires n < 10
    ensures PrintInt(n) == [Digit(n)]
  {
  }

  lemma SuffixEndsAgree(a: string, x: Settings, b: string, y: Settings)
    requires a + SuffixEnd(x) == b + SuffixEnd(y)
    ensures a == b && x.retrieveWaypoints == y.retrieveWaypoints && x.geometry == y.geometry
  {
    PrintedDigit(x.geometry.Code());
    PrintedDigit(y.geometry.Code());
    assert |SuffixEnd(x)| == 4 && |SuffixEnd(y)| == 4;
    var all, n := a + SuffixEnd(x), |a|;
    assert a == all[..n] == b;
    assert SuffixEnd(x) == all[n..] == SuffixEnd(y);
    assert SuffixEnd(x)[1] == SuffixEnd(y)[1] && SuffixEnd(x)[3] == SuffixEnd(y)[3];
    PrintIntIsInjective(x.geometry.Code(), y.geometry.Code());
  }

  /** Engines have one suffix just when they differ at most in their speeds, and those look the same when printed. */
  lemma SuffixesAgreeIff(text: DistanceText, x: Settings, y: Settings)
    ensures Suffix(text, x) == Suffix(text, y) <==>
              && x.engineType == y.engineType && x.retrieveWaypoints == y.retrieveWaypoints && x.geometry == y.geometry
              && text.format(Rounded(x.speed)) == text.format(Rounded(y.speed))
  {
    if Suffix(text, x) == Suffix(text, y) {
      var a, b := text.format(Rounded(x.speed)), text.format(Rounded(y.speed));
      PrintedPrefixIsUnique(x.engineType.Code(), y.engineType.Code(), a + SuffixEnd(x), b + SuffixEnd(y));
      SuffixEndsAgree(a, x, b, y);
    }
  }

  /*---------- Speeds in a suffix ----------*/

  function Thousandths(k: int): real {
    k as real / 1000.0
  }

  /** No other whole number of thousandths is nearer to the speed, and one just as near is nearer to zero. */
  predicate IsNearest(k: int, speed: real) {
    var off := 1000.0 * speed - k as real;
    if 0.0 <= speed then -0.5 <= off < 0.5 else -0.5 < off <= 0.5
  }

  lemma NearestIsUnique(j: int, k: int, speed: real)
    requires IsNearest(j, speed) && IsNearest(k, speed)
    ensures j == k
  {
    assert -1.0 < (j - k) as real < 1.0;
  }

  /** What is printed of a speed is a whole number of thousandths, and off by half a thousandth at most. */
  lemma RoundedIsNearest(speed: real) returns (k: int)
    ensures Rounded(speed) == Thousandths(k) && IsNearest(k, speed)
    ensures -0.0005 <= Rounded(speed) - speed <= 0.0005
  {
    k := if speed < 0.0 then -(0.5 - speed * 1000.0).Floor else (speed * 1000.0 + 0.5).Floor;
  }

  /** The stream prints different thousandths differently, up to the limit its precision sets. */
  ghost predicate TellsThousandthsApart(text: DistanceText, limit: int) {
    forall j: int, k: int :: -limit <= j <= limit && -limit <= k <= limit && text.format(Thousandths(j)) == text.format(Thousandths(k)) ==> j == k
  }

  /** Then engines have one suffix exactly when they differ at most in their speeds, and those have the same nearest thousandth. */
  lemma SpeedsToldApartIff(text: DistanceText, limit: int, x: Settings, y: Settings, j: int, k: int)
    requires TellsThousandthsApart(text, limit) && -limit <= j <= limit && -limit <= k <= limit
    requires IsNearest(j, x.speed) && IsNearest(k, y.speed)
    ensures Suffix(text, x) == Suffix(text, y) <==>
              x.engineType == y.engineType && x.retrieveWaypoints == y.retrieveWaypoints && x.geometry == y.geometry && j == k
  {
    var j' := RoundedIsNearest(x.speed);
    var k' := RoundedIsNearest(y.speed);
    NearestIsUnique(j, j', x.speed);
    NearestIsUnique(k, k', y.speed);
    SuffixesAgreeIff(text, x, y);
  }

  /** Some texts, letter by letter. */
  lemma SuffixesSpelled(text: DistanceText)
    ensures Suffix(text, Settings(Osrm, 16.66666, true, Full)) == "1 " + (text.format(16.667) + " 1 3")
    ensures Suffix(text, Settings(Crowflight, -0.0005, false, StraightLine)) == "2 " + (text.format(-0.001) + " 0 1")
  {
    PrintedDigit(1);
    PrintedDigit(2);
    PrintedDigit(3);
    assert " " + ("1" + (" " + "3")) == " 1 3" && " " + ("0" + (" " + "1")) == " 0 1";
    assert Rounded(16.66666) == 16.667 && Rounded(-0.0005) == -0.001;
    assert "1" + (" " + (text.format(16.667) + " 1 3")) == "1 " + (text.format(16.667) + " 1 3");
    assert "2" + (" " + (text.format(-0.001) + " 0 1")) == "2 " + (text.format(-0.001) + " 0 1");
  }

  lemma KeysSpelled()
    ensures SerializeKey(Location(1, 2), Location(3, 4), "end") == "1 2 3 4 end"
  {
    PrintedDigit(1);
    PrintedDigit(2);
    PrintedDigit(3);
    PrintedDigit(4);
    assert "4" + (" " + "end") == "4 end";
    assert "3" + (" " + "4 end") == "3 4 end";
    assert "2" + (" " + "3 4 end") == "2 3 4 end";
    assert "1" + (" " + "2 3 4 end") == "1 2 3 4 end";
  }

  lemma DetailsSpelled(text: DistanceText)
    ensures EncodeDetails(text, RouteDetails(RouteInfo(5.0, 6), [Location(1, 2), Location(3, 4)])) == "6 " + (text.format(5.0) + " 2 1 2 3 4 ")
  {
    PrintedDigit(2);
    PrintedDigit(6);
    WaypointSpelled(3, 4, "", "3 4 ");
    WaypointSpelled(1, 2, "3 4 ", "1 2 3 4 ");
    var waypoints := [Location(1, 2), Location(3, 4)];
    assert waypoints[1..] == [Location(3, 4)] && waypoints[1..][1..] == [];
    assert EncodeWaypoints(waypoints[1..]) == "3 4 ";
    assert EncodeWaypoints(waypoints) == "1 2 3 4 ";
    assert "2" + (" " + "1 2 3 4 ") == "2 1 2 3 4 ";
    assert "6" + (" " + (text.format(5.0) + (" " + "2 1 2 3 4 "))) == "6 " + (text.format(5.0) + " 2 1 2 3 4 ");
  }

  lemma WaypointSpelled(latitude: nat, longitude: nat, rest: string, all: string)
    requires latitude < 10 && longitude < 10 && all == [Digit(latitude), ' ', Digit(longitude), ' '] + rest
    ensures EncodeWaypoint(Location(latitude, longitude), rest) == all
  {
    PrintedDigit(latitude);
    PrintedDigit(longitude);
  }

  /*---------- The serializer ----------*/

  lemma RestMovesOut(a: string, b: string, rest: string)
    ensures a + (" " + (b + (" " + rest))) == (a + (" " + (b + (" " + "")))) + rest
  {
  }

  lemma ConcatAssociates(a: string, b: string, c: string)
    ensures a + (b + c) == (a + b) + c
  {
  }

  lemma EncodeOneMore(str: string, waypoints: seq<Location>, p: nat)
    requires p < |waypoints| && EncodeWaypoints(waypoints) == str + EncodeWaypoints(waypoints[p..])
    ensures EncodeWaypoints(waypoints) == (str + EncodeWaypoint(waypoints[p], "")) + EncodeWaypoints(waypoints[p + 1..])
  {
    var rest := EncodeWaypoints(waypoints[p + 1..]);
    assert waypoints[p..][1..] == waypoints[p + 1..];
    RestMovesOut(PrintInt(waypoints[p].latitude), PrintInt(waypoints[p].longitude), rest);
    ConcatAssociates(str, EncodeWaypoint(waypoints[p], ""), rest);
  }

  lemma AppendedToNothing(more: Option<seq<Location>>)
    ensures Appended([], more) == more
  {
    if more.Some? { assert [] + more.value == more.value; }
  }

  lemma AppendedStep(found: seq<Location>, waypoint: Location, more: Option<seq<Location>>)
    ensures Appended(found, Appended([waypoint], more)) == Appended(found + [waypoint], more)
  {
    if more.Some? { assert found + ([waypoint] + more.value) == (found + [waypoint]) + more.value; }
  }

  class DefaultRedisSerializer {
    const text: DistanceText
    const settings: Settings
    const suffix: string

    constructor (text: DistanceText, settings: Settings)
      ensures this.text == text && this.settings == settings && suffix == Suffix(text, settings)
    {
      this.text, this.settings, suffix := text, settings, Suffix(text, settings);
    }

    method SerializeWaypoints(waypoints: seq<Location>) returns (str: string)
      ensures str == EncodeWaypoints(waypoints)
    {
      str := "";
      for p := 0 to |waypoints|
        invariant EncodeWaypoints(waypoints) == str + EncodeWaypoints(waypoints[p..])
      {
        EncodeOneMore(str, waypoints, p);
        str := str + EncodeWaypoint(waypoints[p], "");
      }
    }

    method SerializeRouteDetails(details: RouteDetails) returns (str: string)
      ensures str == EncodeDetails(text, details)
    {
      var waypoints := SerializeWaypoints(details.waypoints);
      str := PrintInt(details.summary.duration)
             + text.Printed(details.summary.distance, PrintInt(|details.waypoints|) + (" " + waypoints));
    }

    method DeserializeWaypoints(serialized: string, count: nat) returns (waypoints: Option<seq<Location>>)
      ensures waypoints == DecodeWaypoints(serialized, count)
    {
      var str, found: seq<Location> := serialized, [];
      AppendedToNothing(DecodeWaypoints(str, count));
      for i := 0 to count
        invariant DecodeWaypoints(serialized, count) == Appended(found, DecodeWaypoints(str, count - i))
      {
        var waypoint := DecodeWaypoint(str);
        if waypoint.None? { return None; }
        AppendedStep(found, waypoint.value.0, DecodeWaypoints(waypoint.value.1, count - i - 1));
        found, str := found + [waypoint.value.0], waypoint.value.1;
      }
      assert found + [] == found;
      waypoints := Some(found);
    }

    method DeserializeRouteDetails(serialized: string) returns (details: Option<RouteDetails>)
      ensures details == DecodeDetails(text, serialized)
    {
      var seconds := ReadFitting(serialized, INT64_MAX);
      if seconds.None? { return None; }
      var meters := text.scan(seconds.value.1);
      if meters.None? { return None; }
      var size := ReadFitting(meters.value.1, INT32_MAX);
      if size.None? { return None; }
      var waypoints := DeserializeWaypoints(size.value.1, Max(0, size.value.0));
      if waypoints.None? { return None; }
      details := Some(RouteDetails(RouteInfo(meters.value.0, seconds.value.0), waypoints.value));
    }
  }
}
