/** Telemetry records.  Times are in milliseconds, distances in kilometres, both exact reals; a driver is its index. */
module RaceTypes {

  datatype Frame = Frame(
    driver: int,
    lap: int,
    sector: int,
    speed: real,
    throttle: real,
    brake: real,
    tireWear: real,
    fuel: real,
    drs: bool,
    inPit: bool,
    gap: real,
    lapTime: real)              // positive only on the tick that completes a lap

  datatype Profile = Profile(aggression: real, consistency: real, tireMgmt: real)

  datatype Car = Car(enginePower: real)

  datatype Track = Track(length: real, tireDeg: real, fuelUse: real)

  datatype Driver = Driver(
    profile: Profile,
    car: Car,
    frame: Frame,
    position: int,
    pitStops: int,
    bestLap: real,
    distance: real,             // in the current lap
    inPit: bool,
    pitTimer: int,
    hasPitted: bool,
    lapStart: real)             // clock reading

  const DEFAULT_TRACK: Track := Track(5.4, 1.0, 2.3)

  /** A default-constructed record. */
  const NO_DRIVER: Driver :=
    Driver(Profile(0.0, 0.0, 0.0), Car(0.0), Frame(-1, 0, 1, 0.0, 0.0, 0.0, 0.0, 100.0, false, false, 0.0, 0.0),
           0, 0, 0.0, 0.0, false, 0, false, 0.0)

  /** Position of a driver in the season's table of n drivers; -1 if it is not there. */
  function DriverIndexOf(driver: int, n: nat): int {
    if 0 <= driver < n then driver else -1
  }
}
