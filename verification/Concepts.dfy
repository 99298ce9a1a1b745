/** Values shared by the router, the scheduler and the tsp solver. */
module Concepts {

  datatype Option<+T> = None | Some(value: T)

  /** A failed call keeps the message of the exception the source would throw. */
  datatype Result<+T> = Success(value: T) | Failure(message: string)

  /** Coordinates are kept in their encoded (integer) form, as the source does. */
  datatype Location = Location(latitude: int, longitude: int)

  datatype IndexedLocation = IndexedLocation(id: int, tag: int, raw: Location)

  const INT64_MAX: int := 0x7FFF_FFFF_FFFF_FFFF
  const INFINITE_TIME_INTERVAL: int := 3600000000
  const INFINITE_DISTANCE: real := 1000000000.0

  /** Distance in meters, duration in seconds. */
  datatype RouteInfo = RouteInfo(distance: real, duration: int) {
    static const Zero := RouteInfo(0.0, 0)
    static const Infinity := RouteInfo(INFINITE_DISTANCE, INFINITE_TIME_INTERVAL)
  }

  datatype RouteDetails = RouteDetails(summary: RouteInfo, waypoints: seq<Location>) {
    static function Zero(from: Location, to: Location): RouteDetails {
      RouteDetails(RouteInfo.Zero, [from, to])
    }

    static function Infinity(from: Location, to: Location): RouteDetails {
      RouteDetails(RouteInfo.Infinity, [from, to])
    }
  }

  /** The summary of what was found, or the same failure. */
  function Summary(details: Result<RouteDetails>): Result<RouteInfo> {
    match details
    case Success(found) => Success(found.summary)
    case Failure(message) => Failure(message)
  }

  function Max(a: int, b: int): int {
    if a > b then a else b
  }

  function Min(a: int, b: int): int {
    if a < b then a else b
  }
}
