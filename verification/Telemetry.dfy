/**
 One tick of the simulation: every car in turn, then positions, gaps and DRS.

 The noise sample and the clock reading of each car are inputs, so every statement below is about all noise and all
 clocks.  `World` adds the accounts the statements are about; the simulation does not read them.
 */
module Telemetry {
  import opened RaceTypes
  import opened Ranking

  const SIM_S_PER_TICK: real := 120.0 * 0.02
  const TIRE_WEAR_BASE: real := 0.00130
  const PIT_STOP_TICKS: int := 11
  const TOTAL_LAPS: int := 50

  function Min(a: real, b: real): real {
    if b < a then b else a
  }

  function Max(a: real, b: real): real {
    if a < b then b else a
  }

  function Clamp(x: real, lo: real, hi: real): real {
    if x < lo then lo else if hi < x then hi else x
  }

  // ---------------------------------------------------------------- one car

  function MaxSpeed(car: Car): real {
    280.0 + car.enginePower * 90.0
  }

  function SpeedOf(d: Driver, noise: real): (v: real)
    ensures 80.0 <= v <= 370.0
  {
    var fuelFactor := 1.0 - (d.frame.fuel / 100.0) * 0.08;
    var tireFactor := 1.0 - d.frame.tireWear * 0.25;
    var variation := noise * (1.0 - d.profile.consistency) * 8.0;
    Clamp(MaxSpeed(d.car) * fuelFactor * tireFactor + variation + (if d.frame.drs then 12.0 else 0.0), 80.0, 370.0)
  }

  /** Kilometres covered in one tick. */
  function TickDistance(speed: real): real {
    speed / 3600.0 * SIM_S_PER_TICK
  }

  const SLOWEST_TICK: real := TickDistance(80.0)
  const FASTEST_TICK: real := TickDistance(370.0)

  /** `std::min(3, static_cast<int>(distance / sector_len) + 1)`, for a distance that is not negative. */
  function SectorAt(distance: real, track: Track): int
    requires track.length > 0.0
  {
    var s := (distance / (track.length / 3.0)).Floor + 1;
    if s < 3 then s else 3
  }

  /** Speed, controls, distance, tires and fuel, before the finish line is looked at. */
  function Move(d: Driver, track: Track, noise: real): Driver
    requires track.length > 0.0
  {
    var v := SpeedOf(d, noise);
    var km := TickDistance(v);
    var distance := d.distance + km;
    var wear := TIRE_WEAR_BASE * d.profile.aggression * track.tireDeg * (v / 280.0);
    d.(distance := distance,
       frame := d.frame.(
         lapTime := 0.0,
         speed := v,
         throttle := Min(1.0, v / 310.0),
         brake := if v < 150.0 then Clamp((150.0 - v) / 150.0, 0.0, 1.0) else 0.0,
         sector := SectorAt(distance, track),
         tireWear := Min(1.0, d.frame.tireWear + wear),
         fuel := Max(0.0, d.frame.fuel - track.fuelUse * km)))
  }

  predicate ShouldPit(d: Driver) {
    if d.hasPitted then false
    else if d.frame.lap < 5 then false
    else d.frame.tireWear >= 0.60 + d.profile.tireMgmt * 0.25
  }

  /** The line has been crossed: new lap, lap time, best lap, pit decision. */
  function CompleteLap(d: Driver, track: Track, now: real): Driver {
    var lapMs := now - d.lapStart;
    var e := d.(
      distance := d.distance - track.length,
      lapStart := now,
      bestLap := if d.bestLap < 1.0 || lapMs < d.bestLap then lapMs else d.bestLap,
      frame := d.frame.(lap := d.frame.lap + 1, lapTime := lapMs));
    if ShouldPit(e)
    then e.(inPit := true, pitTimer := PIT_STOP_TICKS, hasPitted := true, frame := e.frame.(inPit := true))
    else e
  }

  function HandlePit(d: Driver): Driver {
    var e := d.(
      pitTimer := d.pitTimer - 1,
      frame := d.frame.(inPit := true, speed := 60.0, throttle := 0.2, brake := 0.1, lapTime := 0.0));
    if e.pitTimer <= 0
    then e.(inPit := false, pitStops := e.pitStops + 1,
            frame := e.frame.(inPit := false, tireWear := 0.02, fuel := 100.0))
    else e
  }

  datatype Input = Input(noise: real, now: real)

  predicate CrossesLine(d: Driver, track: Track, noise: real)
    requires track.length > 0.0
  {
    !d.inPit && Move(d, track, noise).distance >= track.length
  }

  /** The body of the per-car loop. */
  function CarTick(d: Driver, track: Track, i: Input): Driver
    requires track.length > 0.0
  {
    if d.inPit then HandlePit(d)
    else if CrossesLine(d, track, i.noise) then CompleteLap(Move(d, track, i.noise), track, i.now)
    else Move(d, track, i.noise)
  }

  // ---------------------------------------------------------------- accounts of one car

  /** What one car has done since the start. */
  datatype Acct = Acct(
    ticks: nat,
    pitTicks: nat,
    moved: real,            // kilometres driven: a moving tick is 2.4 s at its speed
    since: real,            // and those since it last had fresh tires and a full tank
    laps: seq<real>)        // lap times of its pushed frames that carry one

  function CarAcct(a: Acct, d: Driver, track: Track, i: Input): Acct
    requires track.length > 0.0
  {
    var e := CarTick(d, track, i);
    a.(ticks := a.ticks + 1,
       pitTicks := if d.inPit then a.pitTicks + 1 else a.pitTicks,
       moved := if d.inPit then a.moved else a.moved + e.frame.speed / 1500.0,
       since := if !d.inPit then a.since + e.frame.speed / 1500.0 else if e.inPit then a.since else 0.0,
       laps := if e.frame.lapTime > 0.0 then a.laps + [e.frame.lapTime] else a.laps)
  }

  function Total(d: Driver, track: Track): real {
    d.frame.lap as real * track.length + d.distance
  }

  /** The track is long enough for one subtraction per tick, and no constant is negative. */
  predicate GoodTrack(track: Track) {
    track.length >= FASTEST_TICK && track.tireDeg >= 0.0 && track.fuelUse >= 0.0
  }

  predicate RangesOk(d: Driver, track: Track) {
    && d.profile.aggression >= 0.0
    && 0.0 <= d.distance < track.length
    && 0.0 <= d.frame.tireWear <= 1.0
    && 0.0 <= d.frame.fuel <= 100.0
    && 1 <= d.frame.sector <= 3
  }

  /** At most one stop; the frame and the car agree on it; the timer says how far it has got. */
  predicate PitOk(d: Driver, a: Acct) {
    && d.frame.inPit == d.inPit
    && (d.inPit ==> d.hasPitted && 1 <= d.pitTimer <= PIT_STOP_TICKS)
    && d.pitStops + (if d.inPit then 1 else 0) == (if d.hasPitted then 1 else 0)
    && a.pitTicks == if !d.hasPitted then 0 else if d.inPit then PIT_STOP_TICKS - d.pitTimer else PIT_STOP_TICKS
  }

  /** Distance is conserved, and moving ticks cover at least the slowest tick's distance each. */
  predicate DistanceOk(d: Driver, a: Acct, track: Track, start: real) {
    && Total(d, track) == start + a.moved
    && a.pitTicks <= a.ticks
    && a.moved >= (a.ticks - a.pitTicks) as real * SLOWEST_TICK
  }

  /** Tire wear per kilometre. */
  function WearRate(p: Profile, track: Track): real {
    0.00130 * p.aggression * track.tireDeg * (1500.0 / 280.0)
  }

  /** A full tank after the given distance. */
  function FuelAfter(track: Track, since: real): real {
    Max(0.0, 100.0 - track.fuelUse * since)
  }

  /** Tires after the given distance: unworn at the start, worn by 2 % out of the pits. */
  function WearAfter(d: Driver, track: Track, since: real): real {
    Min(1.0, (if d.pitStops == 0 then 0.0 else 0.02) + WearRate(d.profile, track) * since)
  }

  /** Fuel and tires are used up in proportion to the distance since the start or the stop, as far as there are any. */
  predicate FuelOk(d: Driver, a: Acct, track: Track) {
    && 0.0 <= a.since
    && (d.pitStops == 0 ==> a.since == a.moved)
    && d.frame.fuel == FuelAfter(track, a.since)
    && d.frame.tireWear == WearAfter(d, track, a.since)
  }

  /** `best_lap_ms` as a fold over lap times. */
  function BestOf(laps: seq<real>): real {
    if laps == [] then 0.0
    else
      var best, lap := BestOf(laps[..|laps| - 1]), laps[|laps| - 1];
      if best < 1.0 || lap < best then lap else best
  }

  predicate LapsOk(d: Driver, a: Acct) {
    && d.frame.lap == 1 + |a.laps|
    && d.bestLap == BestOf(a.laps)
    && (forall k :: 0 <= k < |a.laps| ==> a.laps[k] > 0.0)
  }

  predicate CarOk(d: Driver, a: Acct, track: Track, start: real) {
    RangesOk(d, track) && PitOk(d, a) && DistanceOk(d, a, track, start) && FuelOk(d, a, track) && LapsOk(d, a)
  }

  lemma TickDistanceBounds(v: real)
    requires 80.0 <= v <= 370.0
    ensures 0.0 < SLOWEST_TICK <= TickDistance(v) <= FASTEST_TICK
    ensures TickDistance(v) == v / 1500.0
  {
  }

  lemma ProductNonNegative(a: real, b: real)
    requires a >= 0.0 && b >= 0.0
    ensures a * b >= 0.0
  {
  }

  lemma ProductMonotone(a: real, b: real, c: real, d: real)
    requires 0.0 <= a <= b && 0.0 <= c <= d
    ensures a * c <= b * d
  {
    ProductNonNegative(b - a, c);
    ProductNonNegative(b, d - c);
    assert b * d - a * c == (b - a) * c + b * (d - c);
  }

  /** All else equal, more fuel and more worn tires never make a car faster. */
  lemma LoadSlows(d: Driver, e: Driver, noise: real)
    requires MaxSpeed(d.car) >= 0.0 && e.car == d.car && e.profile == d.profile && e.frame.drs == d.frame.drs
    requires 0.0 <= e.frame.fuel <= d.frame.fuel <= 100.0 && 0.0 <= e.frame.tireWear <= d.frame.tireWear <= 1.0
    ensures SpeedOf(d, noise) <= SpeedOf(e, noise)
  {
    var top := MaxSpeed(d.car);
    var fuelD, fuelE := 1.0 - (d.frame.fuel / 100.0) * 0.08, 1.0 - (e.frame.fuel / 100.0) * 0.08;
    var tireD, tireE := 1.0 - d.frame.tireWear * 0.25, 1.0 - e.frame.tireWear * 0.25;
    ProductMonotone(top, top, fuelD, fuelE);
    ProductNonNegative(top, fuelD);
    ProductMonotone(top * fuelD, top * fuelE, tireD, tireE);
    var rest := noise * (1.0 - d.profile.consistency) * 8.0;
    var drs := if d.frame.drs then 12.0 else 0.0;
    assert SpeedOf(d, noise) == Clamp(top * fuelD * tireD + rest + drs, 80.0, 370.0);
    assert SpeedOf(e, noise) == Clamp(top * fuelE * tireE + rest + drs, 80.0, 370.0);
  }

  /** A car with an empty tank, new tires and no noise runs at 280 kph plus 90 for its engine, within limits; a full
      tank takes 8 % of that, worn-out tires 25 %. */
  lemma LoadEndpoints(d: Driver)
    requires d.frame.drs == false
    ensures var top := 280.0 + d.car.enginePower * 90.0;
      && SpeedOf(d.(frame := d.frame.(fuel := 0.0, tireWear := 0.0)), 0.0) == Clamp(top, 80.0, 370.0)
      && SpeedOf(d.(frame := d.frame.(fuel := 100.0, tireWear := 0.0)), 0.0) == Clamp(top * 0.92, 80.0, 370.0)
      && SpeedOf(d.(frame := d.frame.(fuel := 0.0, tireWear := 1.0)), 0.0) == Clamp(top * 0.75, 80.0, 370.0)
  {
  }

  /** Within limits DRS adds 12 kph, and noise eight times its inconsistent part; outside, neither works the other
      way. */
  lemma NoiseAndDrs(d: Driver, noise: real)
    requires d.frame.drs == false
    ensures var part := noise * (1.0 - d.profile.consistency);
      var still, moved := SpeedOf(d, 0.0), SpeedOf(d, noise);
      var open := SpeedOf(d.(frame := d.frame.(drs := true)), 0.0);
      && (80.0 < still < 370.0 && 80.0 < open < 370.0 ==> open - still == 12.0)
      && (80.0 < still < 370.0 && 80.0 < moved < 370.0 ==> moved - still == 8.0 * part)
      && open >= still
      && (part >= 0.0 ==> moved >= still)
  {
    var load := MaxSpeed(d.car) * (1.0 - (d.frame.fuel / 100.0) * 0.08) * (1.0 - d.frame.tireWear * 0.25);
    var part := noise * (1.0 - d.profile.consistency);
    assert 0.0 * (1.0 - d.profile.consistency) == 0.0;
    assert SpeedOf(d, 0.0) == Clamp(load, 80.0, 370.0);
    assert SpeedOf(d, noise) == Clamp(load + part * 8.0, 80.0, 370.0);
    assert SpeedOf(d.(frame := d.frame.(drs := true)), 0.0) == Clamp(load + 12.0, 80.0, 370.0);
    hide SpeedOf;
  }

  lemma SectorInRange(distance: real, track: Track)
    requires track.length > 0.0 && distance >= 0.0
    ensures 1 <= SectorAt(distance, track) <= 3
  {
    var len := track.length / 3.0;
    assert distance / len >= 0.0;
  }

  /** Moving keeps every range, and leaves the car less than two lengths from the start of its lap. */
  lemma MoveRanges(d: Driver, track: Track, noise: real)
    requires GoodTrack(track) && RangesOk(d, track)
    ensures var e := Move(d, track, noise);
      && e.distance == d.distance + TickDistance(e.frame.speed)
      && SLOWEST_TICK <= TickDistance(e.frame.speed) == e.frame.speed / 1500.0
      && e.frame.lap == d.frame.lap
      && 0.0 <= e.distance < track.length + track.length
      && 0.0 <= e.frame.tireWear <= 1.0 && 0.0 <= e.frame.fuel <= 100.0 && 1 <= e.frame.sector <= 3
  {
    var v := SpeedOf(d, noise);
    TickDistanceBounds(v);
    ProductNonNegative(d.profile.aggression, track.tireDeg);
    ProductNonNegative(d.profile.aggression * track.tireDeg, v / 280.0);
    var w := TIRE_WEAR_BASE * d.profile.aggression * track.tireDeg * (v / 280.0);
    assert w == TIRE_WEAR_BASE * ((d.profile.aggression * track.tireDeg) * (v / 280.0));
    ProductNonNegative(track.fuelUse, TickDistance(v));
    SectorInRange(d.distance + TickDistance(v), track);
  }

  lemma CarTickRanges(d: Driver, track: Track, i: Input)
    requires GoodTrack(track) && RangesOk(d, track)
    ensures RangesOk(CarTick(d, track, i), track)
  {
    if !d.inPit {
      MoveRanges(d, track, i.noise);
    }
  }

  lemma CarTickPit(d: Driver, a: Acct, track: Track, i: Input)
    requires track.length > 0.0 && PitOk(d, a)
    ensures PitOk(CarTick(d, track, i), CarAcct(a, d, track, i))
  {
  }

  lemma CarTickDistance(d: Driver, a: Acct, track: Track, start: real, i: Input)
    requires GoodTrack(track) && RangesOk(d, track) && DistanceOk(d, a, track, start)
    ensures DistanceOk(CarTick(d, track, i), CarAcct(a, d, track, i), track, start)
  {
    if !d.inPit {
      MoveRanges(d, track, i.noise);
      NextProduct(a.ticks - a.pitTicks, SLOWEST_TICK);
      NextProduct(d.frame.lap, track.length);
      hide Move, ShouldPit, RangesOk, TickDistance;
    }
  }

  lemma NextProduct(n: int, x: real)
    ensures (n + 1) as real * x == n as real * x + x
  {
  }

  /** Using up twice in a row what there is is using up the sum. */
  lemma UsedUp(full: real, used: real, more: real)
    requires more >= 0.0
    ensures Max(0.0, Max(0.0, full - used) - more) == Max(0.0, full - (used + more))
  {
  }

  lemma WornOut(worn: real, more: real)
    requires more >= 0.0
    ensures Min(1.0, Min(1.0, worn) + more) == Min(1.0, worn + more)
  {
  }

  /** One moving tick's wear is its distance times the wear per kilometre. */
  lemma TickWear(p: Profile, track: Track, v: real)
    requires p.aggression >= 0.0 && track.tireDeg >= 0.0 && v >= 0.0
    ensures TIRE_WEAR_BASE * p.aggression * track.tireDeg * (v / 280.0) == WearRate(p, track) * (v / 1500.0)
    ensures WearRate(p, track) * (v / 1500.0) >= 0.0
  {
    var x := TIRE_WEAR_BASE * p.aggression * track.tireDeg;
    ProductNonNegative(TIRE_WEAR_BASE * p.aggression, track.tireDeg);
    ProductNonNegative(x, v / 280.0);
    assert x * (v / 280.0) == x * (1500.0 / 280.0) * (v / 1500.0);
  }

  lemma Distributes(a: real, x: real, y: real)
    ensures a * (x + y) == a * x + a * y
  {
  }

  lemma TankAfterMore(track: Track, since: real, km: real)
    requires track.fuelUse >= 0.0 && km >= 0.0
    ensures Max(0.0, FuelAfter(track, since) - track.fuelUse * km) == FuelAfter(track, since + km)
  {
    ProductNonNegative(track.fuelUse, km);
    Distributes(track.fuelUse, since, km);
    UsedUp(100.0, track.fuelUse * since, track.fuelUse * km);
    hide Max;
  }

  lemma TiresAfterMore(d: Driver, track: Track, since: real, v: real)
    requires d.profile.aggression >= 0.0 && track.tireDeg >= 0.0 && v >= 0.0
    ensures Min(1.0, WearAfter(d, track, since)
                     + TIRE_WEAR_BASE * d.profile.aggression * track.tireDeg * (v / 280.0))
         == WearAfter(d, track, since + v / 1500.0)
  {
    var rate, base := WearRate(d.profile, track), if d.pitStops == 0 then 0.0 else 0.02;
    TickWear(d.profile, track, v);
    Distributes(rate, since, v / 1500.0);
    WornOut(base + rate * since, rate * (v / 1500.0));
    hide WearRate, Min;
  }

  lemma MoveFuel(d: Driver, a: Acct, track: Track, noise: real)
    requires GoodTrack(track) && RangesOk(d, track) && FuelOk(d, a, track)
    ensures var e := Move(d, track, noise); var since := a.since + e.frame.speed / 1500.0;
      && e.pitStops == d.pitStops && e.profile == d.profile && e.frame.speed >= 80.0
      && e.frame.fuel == FuelAfter(track, since) && e.frame.tireWear == WearAfter(d, track, since)
  {
    var v := SpeedOf(d, noise);
    TickDistanceBounds(v);
    TankAfterMore(track, a.since, v / 1500.0);
    TiresAfterMore(d, track, a.since, v);
    hide SpeedOf, FuelAfter, WearAfter, Max, Min, TickDistance;
  }

  /** Completing a lap uses nothing up. */
  lemma LineUsesNothing(d: Driver, track: Track, now: real)
    ensures var e := CompleteLap(d, track, now);
      && e.pitStops == d.pitStops && e.profile == d.profile && e.frame.speed == d.frame.speed
      && e.frame.fuel == d.frame.fuel && e.frame.tireWear == d.frame.tireWear
      && e.frame.throttle == d.frame.throttle && e.frame.brake == d.frame.brake
  {
  }

  lemma FreshOutOfThePits(d: Driver, track: Track)
    requires d.pitStops != 0
    ensures FuelAfter(track, 0.0) == 100.0 && WearAfter(d, track, 0.0) == 0.02
  {
  }

  lemma WearAfterSame(d: Driver, e: Driver, track: Track, since: real)
    requires e.pitStops == d.pitStops && e.profile == d.profile
    ensures WearAfter(e, track, since) == WearAfter(d, track, since)
  {
  }

  lemma CarTickFuel(d: Driver, a: Acct, track: Track, i: Input)
    requires GoodTrack(track) && RangesOk(d, track) && PitOk(d, a) && FuelOk(d, a, track)
    ensures FuelOk(CarTick(d, track, i), CarAcct(a, d, track, i), track)
  {
    var e, b := CarTick(d, track, i), CarAcct(a, d, track, i);
    if d.inPit {
      hide WearAfter, FuelAfter;
      FreshOutOfThePits(d.(pitStops := 1), track);
      WearAfterSame(d.(pitStops := 1), e.(pitStops := 1), track, 0.0);
      WearAfterSame(d, e.(pitStops := d.pitStops), track, a.since);
    } else {
      var m := Move(d, track, i.noise);
      MoveFuel(d, a, track, i.noise);
      LineUsesNothing(m, track, i.now);
      hide Move, CompleteLap, CrossesLine, WearAfter, FuelAfter, RangesOk, PitOk, GoodTrack;
      assert track.length > 0.0;
      WearAfterSame(d, e, track, b.since);
    }
  }

  /** The clock has moved on since the lap began. */
  predicate ClockOk(d: Driver, i: Input) {
    i.now > d.lapStart
  }

  lemma CarTickLaps(d: Driver, a: Acct, track: Track, i: Input)
    requires track.length > 0.0 && LapsOk(d, a) && ClockOk(d, i)
    ensures LapsOk(CarTick(d, track, i), CarAcct(a, d, track, i))
  {
    var e, b := CarTick(d, track, i), CarAcct(a, d, track, i);
    if e.frame.lapTime > 0.0 {
      assert b.laps[..|a.laps|] == a.laps;
    }
  }

  // ---------------------------------------------------------------- positions, gaps, DRS

  function Totals(cars: seq<Driver>, track: Track): seq<real> {
    seq(|cars|, i requires 0 <= i < |cars| => Total(cars[i], track))
  }

  function GapTo(leader: Driver, d: Driver, track: Track): real {
    var gapKm := Total(leader, track) - Total(d, track);
    var avg := (leader.frame.speed + d.frame.speed) / 2.0;
    gapKm / Max(avg, 1.0) * 3600.0
  }

  /** Gap to the leader of the car in place p (counting from 0). */
  function GapAt(cars: seq<Driver>, order: seq<nat>, track: Track, p: nat): real
    requires InRange(order, |cars|) && p < |order|
  {
    if p == 0 then 0.0 else GapTo(cars[order[0]], cars[order[p]], track)
  }

  /** The car in place p, with its position, gap and DRS flag for the next tick. */
  function Placed(cars: seq<Driver>, order: seq<nat>, track: Track, p: nat): Driver
    requires InRange(order, |cars|) && p < |order|
  {
    var d := cars[order[p]];
    var gap := GapAt(cars, order, track, p);
    d.(position := p + 1,
       frame := d.frame.(gap := gap, drs := p > 0 && gap - GapAt(cars, order, track, p - 1) < 1.0))
  }

  /** `placed` is `cars` with every car's position, gap and DRS flag updated for the given ranking. */
  predicate IsPlacement(cars: seq<Driver>, order: seq<nat>, track: Track, placed: seq<Driver>) {
    && InRange(order, |cars|)
    && |placed| == |cars| == |order|
    && forall p :: 0 <= p < |order| ==> placed[order[p]] == Placed(cars, order, track, p)
  }

  /** The place of car i in an order that lists it. */
  function PlaceOf(order: seq<nat>, i: nat): (p: nat)
    requires i in order
    ensures p < |order| && order[p] == i
  {
    if order[|order| - 1] == i then |order| - 1 else PlaceOf(order[..|order| - 1], i)
  }

  function UpdatePositions(cars: seq<Driver>, track: Track): (r: seq<Driver>)
    ensures |r| == |cars|
  {
    var order := StableOrder(Totals(cars, track), |cars|);
    seq(|cars|, i requires 0 <= i < |cars| => Placed(cars, order, track, PlaceOf(order, i)))
  }

  /** The ranking used by a tick. */
  function OrderOf(cars: seq<Driver>, track: Track): seq<nat> {
    StableOrder(Totals(cars, track), |cars|)
  }

  lemma UpdateIsPlacement(cars: seq<Driver>, track: Track)
    ensures IsRanking(Totals(cars, track), OrderOf(cars, track))
    ensures IsPlacement(cars, OrderOf(cars, track), track, UpdatePositions(cars, track))
  {
    var totals, order := Totals(cars, track), OrderOf(cars, track);
    StableOrderRanks(totals);
    forall p | 0 <= p < |order| ensures UpdatePositions(cars, track)[order[p]] == Placed(cars, order, track, p) {
      var q := PlaceOf(order, order[p]);
      PlacesDecide(totals, order, p, q);
    }
  }

  /** Updating positions touches nothing a car's accounts speak of. */
  lemma PlacementKeeps(cars: seq<Driver>, track: Track, i: nat)
    requires i < |cars|
    ensures var d, e := cars[i], UpdatePositions(cars, track)[i];
      e == d.(position := e.position, frame := d.frame.(gap := e.frame.gap, drs := e.frame.drs))
  {
  }
}
