/**
 What a tick does to the cars it leaves behind, in terms of their fields alone, and what follows for whole races.
 */
module RaceLaws {
  import opened RaceTypes
  import opened Ranking
  import opened Telemetry
  import opened Race
  import opened RaceResults

  // ---------------------------------------------------------------- gaps and DRS

  /** How far car d is behind car l on the road. */
  function Behind(l: Driver, d: Driver, track: Track): real {
    (l.frame.lap - d.frame.lap) as real * track.length + (l.distance - d.distance)
  }

  /** The mean of two speeds, and at least 1 kph. */
  function MeanSpeed(l: Driver, d: Driver): real {
    var mean := (l.frame.speed + d.frame.speed) / 2.0;
    if mean < 1.0 then 1.0 else mean
  }

  /** A gap in seconds, at the mean speed in kilometres an hour, is the distance behind in kilometres. */
  predicate IsTimeBehind(gap: real, l: Driver, d: Driver, track: Track) {
    gap * MeanSpeed(l, d) == Behind(l, d, track) * 3600.0
  }

  lemma PlaceAfterTick(w: World, inputs: seq<Input>, i: nat) returns (p: nat)
    requires WellFormed(w) && Legal(w, inputs) && i < |w.cars|
    ensures var moved := MoveAll(w.cars, w.track, inputs); var order := OrderOf(moved, w.track);
      && InRange(order, |moved|) && p < |order| && order[p] == i
      && Tick(w, inputs).cars[i] == Placed(moved, order, w.track, p)
      && Tick(w, inputs).cars[i].position == p + 1
  {
    var moved := MoveAll(w.cars, w.track, inputs);
    var order := OrderOf(moved, w.track);
    UpdateIsPlacement(moved, w.track);
    assert i in order;
    p := PlaceOf(order, i);
  }

  lemma PlacedFields(cars: seq<Driver>, order: seq<nat>, track: Track, p: nat)
    requires InRange(order, |cars|) && p < |order|
    ensures var d, e := cars[order[p]], Placed(cars, order, track, p);
      && e == d.(position := e.position, frame := d.frame.(gap := e.frame.gap, drs := e.frame.drs))
      && e.frame.gap == (if p == 0 then 0.0 else GapTo(cars[order[0]], d, track))
      && (e.frame.drs <==> p > 0 && e.frame.gap - Placed(cars, order, track, p - 1).frame.gap < 1.0)
  {
    hide GapTo;
  }

  lemma QuotientTimes(a: real, b: real, c: real)
    requires b > 0.0
    ensures a / b * c * b == a * c
  {
    assert a / b * b == a;
    assert a / b * c * b == (a / b * b) * c;
  }

  lemma GapTimesSpeed(leader: Driver, d: Driver, l: Driver, e: Driver, track: Track)
    requires l == leader.(position := l.position, frame := leader.frame.(gap := l.frame.gap, drs := l.frame.drs))
    requires e == d.(position := e.position, frame := d.frame.(gap := e.frame.gap, drs := e.frame.drs))
    ensures IsTimeBehind(GapTo(leader, d, track), l, e, track)
  {
    var gapKm := Total(leader, track) - Total(d, track);
    Distributes(track.length, leader.frame.lap as real, -(d.frame.lap as real));
    assert gapKm == Behind(l, e, track);
    QuotientTimes(gapKm, MeanSpeed(l, e), 3600.0);
  }

  /** After any tick, a car's gap in seconds times the mean of its and the leader's speed in kph is 3600 times how far
      it is behind the leader. */
  lemma GapIsTimeBehind(w: World, inputs: seq<Input>, l: nat, i: nat)
    requires WellFormed(w) && Legal(w, inputs) && l < |w.cars| && i < |w.cars|
    requires Tick(w, inputs).cars[l].position == 1
    ensures var v := Tick(w, inputs); var leader, d := v.cars[l], v.cars[i];
      && leader.frame.gap == 0.0
      && (i != l ==> IsTimeBehind(d.frame.gap, leader, d, v.track))
  {
    var moved, v := MoveAll(w.cars, w.track, inputs), Tick(w, inputs);
    var order := OrderOf(moved, w.track);
    var q := PlaceAfterTick(w, inputs, l);
    var p := PlaceAfterTick(w, inputs, i);
    PlacedFields(moved, order, w.track, q);
    PlacedFields(moved, order, w.track, p);
    GapTimesSpeed(moved[l], moved[i], v.cars[l], v.cars[i], w.track);
    assert v.track == w.track && |v.cars| == |w.cars|;
    hide Tick, OrderOf, MoveAll, Placed, GapTo, IsTimeBehind;
  }

  /** After any tick, the car in position 1 has no DRS, and any other has it if and only if its gap to the leader
      exceeds that of the car one position ahead by less than a second. */
  lemma DrsWithinASecond(w: World, inputs: seq<Input>, i: nat, j: nat)
    requires WellFormed(w) && Legal(w, inputs) && i < |w.cars| && j < |w.cars|
    ensures var v := Tick(w, inputs); var ahead, d := v.cars[j], v.cars[i];
      && (d.position == 1 ==> !d.frame.drs)
      && (ahead.position == d.position - 1 ==> (d.frame.drs <==> d.frame.gap - ahead.frame.gap < 1.0))
  {
    var moved, v := MoveAll(w.cars, w.track, inputs), Tick(w, inputs);
    assert |v.cars| == |w.cars|;
    var p := PlaceAfterTick(w, inputs, i);
    var q := PlaceAfterTick(w, inputs, j);
    PlacedFields(moved, OrderOf(moved, w.track), w.track, p);
    hide Tick, OrderOf, MoveAll, Placed, GapTo;
  }

  // ---------------------------------------------------------------- the end of the race

  /** In this tick the car in position 1 completes a lap and is then beyond lap fifty. */
  ghost predicate LeaderFinishes(w: World, inputs: seq<Input>)
    requires WellFormed(w) && |inputs| == |w.cars|
  {
    var v := Tick(w, inputs);
    exists i :: 0 <= i < |w.cars| && w.cars[i].position == 1
             && v.cars[i].frame.lap == w.cars[i].frame.lap + 1 && v.cars[i].frame.lap > 50
  }

  lemma LapInTick(w: World, inputs: seq<Input>, i: nat)
    requires WellFormed(w) && |inputs| == |w.cars| && i < |w.cars|
    ensures Tick(w, inputs).cars[i].frame.lap
         == w.cars[i].frame.lap + (if CrossesLine(w.cars[i], w.track, inputs[i].noise) then 1 else 0)
  {
    LapAfterTick(w.cars[i], w.track, inputs[i]);
    PlacementKeeps(MoveAll(w.cars, w.track, inputs), w.track, i);
    hide UpdatePositions, CarTick, CrossesLine, RaceLapAfter, FinishedAfter;
  }

  lemma {:induction false} FinishedByOne(w: World, inputs: seq<Input>, n: nat)
    requires WellFormed(w) && |inputs| == |w.cars| && n <= |w.cars|
    ensures FinishedAfter(w, inputs, n) <==>
      w.finished || exists i :: 0 <= i < n && w.cars[i].position == 1 && w.cars[i].frame.lap + 1 > 50
                             && CrossesLine(w.cars[i], w.track, inputs[i].noise)
  {
    hide CrossesLine;
    if n > 0 {
      FinishedByOne(w, inputs, n - 1);
    }
  }

  /** A tick leaves the race finished if and only if it was finished before or the car in position 1 finishes it. */
  lemma FinishedExactly(w: World, inputs: seq<Input>)
    requires WellFormed(w) && |inputs| == |w.cars|
    ensures Tick(w, inputs).finished <==> w.finished || LeaderFinishes(w, inputs)
  {
    FinishedByOne(w, inputs, |w.cars|);
    var v := Tick(w, inputs);
    assert v.finished == FinishedAfter(w, inputs, |w.cars|);
    forall i | 0 <= i < |w.cars|
      ensures v.cars[i].frame.lap
           == w.cars[i].frame.lap + (if CrossesLine(w.cars[i], w.track, inputs[i].noise) then 1 else 0)
    {
      LapInTick(w, inputs, i);
    }
    hide Tick, CrossesLine, FinishedAfter;
  }

  /** In some tick of the run the leader finishes. */
  ghost predicate SomeTickFinishes(w: World, run: seq<seq<Input>>)
    requires WellFormed(w) && LegalRun(w, run)
    decreases |run|
  {
    run != [] && (LeaderFinishes(w, run[0]) || SomeTickFinishes(Tick(w, run[0]), run[1..]))
  }

  lemma {:induction false} FinishedInRun(w: World, run: seq<seq<Input>>)
    requires WellFormed(w) && LegalRun(w, run)
    ensures Run(w, run).finished <==> w.finished || SomeTickFinishes(w, run)
    decreases |run|
  {
    if run != [] {
      NextTickLegal(w, run);
      hide Tick, LeaderFinishes, Legal;
      FinishedExactly(w, run[0]);
      FinishedInRun(Tick(w, run[0]), run[1..]);
    }
  }

  /** A race is finished if and only if in some tick of it the car that was in position 1 completed a lap beyond the
      fiftieth. */
  lemma RaceFinishedExactly(s: Setup, run: seq<seq<Input>>)
    requires GoodSetup(s) && LegalRun(Grid(s), run)
    ensures After(s, run).finished <==> SomeTickFinishes(Grid(s), run)
  {
    FinishedInRun(Grid(s), run);
    hide LegalRun, Run, SomeTickFinishes;
  }

  // ---------------------------------------------------------------- the pits

  lemma CarAfterTick(w: World, inputs: seq<Input>, i: nat)
    requires WellFormed(w) && |inputs| == |w.cars| && i < |w.cars|
    ensures var d, e := CarTick(w.cars[i], w.track, inputs[i]), Tick(w, inputs).cars[i];
      e == d.(position := e.position, frame := d.frame.(gap := e.frame.gap, drs := e.frame.drs))
  {
    PlacementKeeps(MoveAll(w.cars, w.track, inputs), w.track, i);
    hide UpdatePositions, CarTick, RaceLapAfter, FinishedAfter;
  }

  lemma PitCase(d: Driver, track: Track, i: Input)
    requires track.length > 0.0 && !d.inPit
    ensures var e := CarTick(d, track, i);
      && (e.inPit <==> e.frame.lap == d.frame.lap + 1 && !d.hasPitted && e.frame.lap >= 5
                       && e.frame.tireWear >= 0.60 + 0.25 * d.profile.tireMgmt)
      && (e.inPit ==> e.pitTimer == 11 && e.hasPitted && e.frame.inPit)
      && (!e.inPit ==> e.hasPitted == d.hasPitted && e.pitTimer == d.pitTimer && e.frame.inPit == d.frame.inPit)
      && e.pitStops == d.pitStops
  {
    hide SpeedOf;
  }

  /** A tick sends a car on the track into the pits if and only if the car completes a lap in it, has not stopped
      before, is then at least on lap 5, and its tires are worn by at least 60 % and a quarter of its tire management;
      it then has eleven ticks to stand. */
  lemma PitDecision(w: World, inputs: seq<Input>, i: nat)
    requires WellFormed(w) && |inputs| == |w.cars| && i < |w.cars| && !w.cars[i].inPit
    ensures var d, e := w.cars[i], Tick(w, inputs).cars[i];
      && (e.inPit <==> e.frame.lap == d.frame.lap + 1 && !d.hasPitted && e.frame.lap >= 5
                       && e.frame.tireWear >= 0.60 + 0.25 * d.profile.tireMgmt)
      && (e.inPit ==> e.pitTimer == 11 && e.hasPitted && e.frame.inPit)
      && (!e.inPit ==> e.hasPitted == d.hasPitted && e.pitTimer == d.pitTimer && e.frame.inPit == d.frame.inPit)
      && e.pitStops == d.pitStops
  {
    PitCase(w.cars[i], w.track, inputs[i]);
    CarAfterTick(w, inputs, i);
    hide Tick, CarTick;
  }

  lemma StandingCase(d: Driver, track: Track, i: Input)
    requires track.length > 0.0 && d.inPit
    ensures var e := CarTick(d, track, i);
      && e.pitTimer == d.pitTimer - 1 && (e.inPit <==> d.pitTimer > 1) && e.frame.inPit == e.inPit
      && e.frame.speed == 60.0 && e.frame.throttle == 0.2 && e.frame.brake == 0.1 && e.frame.lapTime == 0.0
      && e.distance == d.distance && e.frame.lap == d.frame.lap && e.frame.sector == d.frame.sector
      && e.bestLap == d.bestLap && e.lapStart == d.lapStart && e.hasPitted == d.hasPitted
      && (if e.inPit
          then e.frame.tireWear == d.frame.tireWear && e.frame.fuel == d.frame.fuel && e.pitStops == d.pitStops
          else e.frame.tireWear == 0.02 && e.frame.fuel == 100.0 && e.pitStops == d.pitStops + 1)
  {
  }

  /** A tick in the pits counts the timer down, moves nothing, and reports pit-lane speed; when the timer has run out
      the car leaves with fresh tires and a full tank, one stop the richer. */
  lemma StandingTick(w: World, inputs: seq<Input>, i: nat)
    requires WellFormed(w) && |inputs| == |w.cars| && i < |w.cars| && w.cars[i].inPit
    ensures var d, e := w.cars[i], Tick(w, inputs).cars[i];
      && e.pitTimer == d.pitTimer - 1 && (e.inPit <==> d.pitTimer > 1) && e.frame.inPit == e.inPit
      && e.frame.speed == 60.0 && e.frame.throttle == 0.2 && e.frame.brake == 0.1 && e.frame.lapTime == 0.0
      && e.distance == d.distance && e.frame.lap == d.frame.lap && e.frame.sector == d.frame.sector
      && e.bestLap == d.bestLap && e.lapStart == d.lapStart && e.hasPitted == d.hasPitted
      && (if e.inPit
          then e.frame.tireWear == d.frame.tireWear && e.frame.fuel == d.frame.fuel && e.pitStops == d.pitStops
          else e.frame.tireWear == 0.02 && e.frame.fuel == 100.0 && e.pitStops == d.pitStops + 1)
  {
    StandingCase(w.cars[i], w.track, inputs[i]);
    CarAfterTick(w, inputs, i);
    hide Tick, CarTick;
  }

  // ---------------------------------------------------------------- a tick on the track

  /** The distance lies in the given third of the lap. */
  predicate InSector(x: real, sector: int, track: Track) {
    (sector - 1) as real * track.length <= 3.0 * x < sector as real * track.length
  }

  /** Car e is car d after 2.4 s at e's speed: controls, tires and fuel follow the speed. */
  predicate Driven(d: Driver, e: Driver, track: Track) {
    var driven := e.frame.speed / 1500.0;
    && 310.0 * e.frame.throttle == Min(310.0, e.frame.speed)
    && 150.0 * e.frame.brake == Max(0.0, 150.0 - e.frame.speed)
    && e.frame.tireWear == Min(1.0, d.frame.tireWear + WearRate(d.profile, track) * driven)
    && e.frame.fuel == Max(0.0, d.frame.fuel - track.fuelUse * driven)
    && e.profile == d.profile
  }

  /** It has completed a lap if and only if that took it to the line; the lap time is the time since it last did, the
      best lap is updated, and the sector is the third of the lap it has got to. */
  predicate LappedOrNot(d: Driver, e: Driver, track: Track, now: real) {
    var x := d.distance + e.frame.speed / 1500.0;
    if x >= track.length
    then && e.distance == x - track.length && e.frame.lap == d.frame.lap + 1 && e.frame.sector == 3
         && e.frame.lapTime == now - d.lapStart && e.lapStart == now
         && e.bestLap == (if d.bestLap < 1.0 || e.frame.lapTime < d.bestLap then e.frame.lapTime else d.bestLap)
    else && e.distance == x && e.frame.lap == d.frame.lap && InSector(x, e.frame.sector, track)
         && e.frame.lapTime == 0.0 && e.lapStart == d.lapStart && e.bestLap == d.bestLap
  }

  lemma DrivingCase(d: Driver, track: Track, i: Input)
    requires GoodTrack(track) && RangesOk(d, track) && !d.inPit
    ensures Driven(d, CarTick(d, track, i), track)
  {
    var m := Move(d, track, i.noise);
    DrivingMove(d, track, i.noise);
    LineUsesNothing(m, track, i.now);
    hide Move, WearRate, Min, Max;
  }

  lemma DrivingMove(d: Driver, track: Track, noise: real)
    requires GoodTrack(track) && RangesOk(d, track)
    ensures Driven(d, Move(d, track, noise), track)
  {
    var v := SpeedOf(d, noise);
    TickDistanceBounds(v);
    TickWear(d.profile, track, v);
    hide SpeedOf, WearRate, SectorAt, TickDistance;
  }

  lemma LappingCase(d: Driver, track: Track, i: Input)
    requires GoodTrack(track) && RangesOk(d, track) && !d.inPit
    ensures LappedOrNot(d, CarTick(d, track, i), track, i.now)
  {
    var v := SpeedOf(d, i.noise);
    TickDistanceBounds(v);
    SectorOf(d.distance + v / 1500.0, track);
    hide SpeedOf, SectorAt, InSector, TickDistance, Min, Max, Clamp;
  }

  lemma SectorOf(x: real, track: Track)
    requires track.length > 0.0 && x >= 0.0
    ensures if x < track.length then InSector(x, SectorAt(x, track), track) else SectorAt(x, track) == 3
  {
    var third := track.length / 3.0;
    var q := x / third;
    assert q * third == x;
    var k := q.Floor;
    ThirdBounds(k as real, q, third, x);
    ThirdBounds(q, (k + 1) as real, third, x);
    ProductBounds(q, 3.0, third);
    ProductBounds(3.0, q, third);
    assert 3.0 * third == track.length;
    hide InSector;
    if x < track.length {
      assert k < 3 && SectorAt(x, track) == k + 1;
      SectorIs(x, k + 1, track);
    }
  }

  lemma SectorIs(x: real, sector: int, track: Track)
    requires (sector - 1) as real * track.length <= 3.0 * x && 3.0 * x < sector as real * track.length
    ensures InSector(x, sector, track)
  {
  }

  /** Three thirds make a whole. */
  lemma ThirdBounds(a: real, b: real, third: real, x: real)
    requires third > 0.0 && (a * third == x || b * third == x)
    ensures a <= b && b * third == x ==> a * (3.0 * third) <= 3.0 * x
    ensures a < b && a * third == x ==> 3.0 * x < b * (3.0 * third)
  {
    ProductBounds(a, b, third);
    ThreeTimes(a, third);
    ThreeTimes(b, third);
  }

  lemma ThreeTimes(a: real, b: real)
    ensures a * (3.0 * b) == 3.0 * (a * b)
  {
  }

  lemma ProductBounds(a: real, b: real, c: real)
    requires c > 0.0
    ensures a <= b ==> a * c <= b * c
    ensures a < b ==> a * c < b * c
  {
  }

  lemma RankingUnseen(d: Driver, m: Driver, e: Driver, track: Track, now: real)
    requires e == m.(position := e.position, frame := m.frame.(gap := e.frame.gap, drs := e.frame.drs))
    ensures Driven(d, m, track) ==> Driven(d, e, track)
    ensures LappedOrNot(d, m, track, now) ==> LappedOrNot(d, e, track, now)
  {
    assert e.frame.speed == m.frame.speed && e.frame.fuel == m.frame.fuel && e.frame.tireWear == m.frame.tireWear;
    assert e.frame.throttle == m.frame.throttle && e.frame.brake == m.frame.brake && e.profile == m.profile;
  }

  /** In any race, a tick of a car on the track drives it on by 2.4 s at its speed, and laps it if that took it to the
      line. */
  lemma DrivingTick(w: World, inputs: seq<Input>, i: nat)
    requires RaceOk(w) && Legal(w, inputs) && i < |w.cars| && !w.cars[i].inPit
    ensures var d, e := w.cars[i], Tick(w, inputs).cars[i];
      Driven(d, e, w.track) && LappedOrNot(d, e, w.track, inputs[i].now)
  {
    CarFacts(w, i);
    RaceFacts(w);
    DrivingCase(w.cars[i], w.track, inputs[i]);
    LappingCase(w.cars[i], w.track, inputs[i]);
    CarAfterTick(w, inputs, i);
    hide Tick, CarTick, Driven, LappedOrNot, RaceOk, CarsOk, DistanceOk, FuelOk, LapsOk, PitOk;
    RankingUnseen(w.cars[i], CarTick(w.cars[i], w.track, inputs[i]), Tick(w, inputs).cars[i], w.track, inputs[i].now);
  }

  /** A tick pushes every car's frame, in the order of the cars, with gap and DRS as they were before the ranking. */
  lemma FramesPushed(w: World, inputs: seq<Input>, i: nat)
    requires WellFormed(w) && |inputs| == |w.cars| && i < |w.cars|
    ensures var v := Tick(w, inputs);
      && |v.frames| == |w.frames| + |w.cars| && w.frames <= v.frames
      && v.frames[|w.frames| + i]
         == v.cars[i].frame.(gap := CarTick(w.cars[i], w.track, inputs[i]).frame.gap,
                             drs := CarTick(w.cars[i], w.track, inputs[i]).frame.drs)
      && CarTick(w.cars[i], w.track, inputs[i]).frame.gap == w.cars[i].frame.gap
      && CarTick(w.cars[i], w.track, inputs[i]).frame.drs == w.cars[i].frame.drs
  {
    GapKept(w.cars[i], w.track, inputs[i]);
    CarAfterTick(w, inputs, i);
    hide CarTick, UpdatePositions, RaceLapAfter, FinishedAfter;
  }

  lemma GapKept(d: Driver, track: Track, i: Input)
    requires track.length > 0.0
    ensures CarTick(d, track, i).frame.gap == d.frame.gap && CarTick(d, track, i).frame.drs == d.frame.drs
    ensures CarTick(d, track, i).profile == d.profile && CarTick(d, track, i).car == d.car
  {
  }

  // ---------------------------------------------------------------- fuel, tires and the clock over a race

  /** Over any race, fuel and tires are what the distance since the start or the stop leaves of them; before the stop
      that is the distance from the grid. */
  lemma FuelAndTiresFollowDistance(s: Setup, run: seq<seq<Input>>, i: nat)
    requires GoodSetup(s) && LegalRun(Grid(s), run) && i < |s.profiles|
    ensures var w := After(s, run);
      && i < |w.cars| && i < |w.accts| && i < |Grid(s).cars|
      && FuelOk(w.cars[i], w.accts[i], s.track)
      && (w.cars[i].pitStops == 0 ==>
            var driven := Total(w.cars[i], s.track) - Total(Grid(s).cars[i], s.track);
            && w.cars[i].frame.fuel == FuelAfter(s.track, driven)
            && w.cars[i].frame.tireWear == WearAfter(w.cars[i], s.track, driven))
  {
    Reached(s, run);
    GridStart(s, i);
    CarFacts(After(s, run), i);
    hide RaceOk, After, Total, Grid, FuelAfter, WearAfter, RangesOk, PitOk, LapsOk;
  }

  function SumOf(laps: seq<real>): real {
    if laps == [] then 0.0 else SumOf(laps[..|laps| - 1]) + laps[|laps| - 1]
  }

  lemma SumSnoc(laps: seq<real>, lap: real)
    ensures SumOf(laps + [lap]) == SumOf(laps) + lap
  {
    assert (laps + [lap])[..|laps|] == laps;
  }

  lemma {:induction false} LapsFillTheClock(w: World, run: seq<seq<Input>>, i: nat, start: real)
    requires WellFormed(w) && LegalRun(w, run) && i < |w.cars|
    requires SumOf(w.accts[i].laps) == w.cars[i].lapStart - start
    ensures var v := Run(w, run);
      i < |v.cars| && i < |v.accts| && SumOf(v.accts[i].laps) == v.cars[i].lapStart - start
    decreases |run|
  {
    hide Tick, CrossesLine, SumOf, Run, LegalRun, Legal;
    if run == [] {
      NoTicks(w);
    } else {
      NextTickLegal(w, run);
      ClockAfterTick(w, run[0], i);
      SumSnoc(w.accts[i].laps, run[0][i].now - w.cars[i].lapStart);
      assert w.accts[i].laps + [] == w.accts[i].laps;
      LapsFillTheClock(Tick(w, run[0]), run[1..], i, start);
    }
  }

  /** Over any race, a car's lap times add up to the clock time from the start to its last crossing of the line. */
  lemma LapTimesAddUp(s: Setup, run: seq<seq<Input>>, i: nat)
    requires GoodSetup(s) && LegalRun(Grid(s), run) && i < |s.profiles|
    ensures var w := After(s, run);
      i < |w.cars| && SumOf(LapTimesOf(w.frames, i)) == w.cars[i].lapStart - s.now
  {
    GridLaps(s, i);
    GridClock(s, i);
    LapsFillTheClock(Grid(s), run, i, s.now);
    LapFrames(s, run, i);
    hide GoodSetup, Grid, LegalRun, Run, SumOf;
  }

  lemma GridClock(s: Setup, i: nat)
    requires GridFits(s) && i < |s.profiles|
    ensures i < |Grid(s).cars| && Grid(s).cars[i].lapStart == s.now && Grid(s).cars[i].profile == s.profiles[i]
    ensures !Grid(s).cars[i].hasPitted
  {
  }

  // ---------------------------------------------------------------- every car stops

  /** Only a pit stop between this car and its next crossing of the line. */
  predicate DueToStop(d: Driver) {
    !d.hasPitted && d.frame.lap >= 4 && d.frame.tireWear >= 0.60 + 0.25 * d.profile.tireMgmt
  }

  /** A car due to stop goes into the pits, or gets nearer the line and stays due. */
  lemma DueCase(d: Driver, track: Track, i: Input)
    requires GoodTrack(track) && RangesOk(d, track) && !d.inPit && DueToStop(d)
    ensures var e := CarTick(d, track, i);
      e.hasPitted || (DueToStop(e) && e.distance >= d.distance + SLOWEST_TICK)
  {
    var v := SpeedOf(d, i.noise);
    TickDistanceBounds(v);
    TickWear(d.profile, track, v);
    hide SpeedOf, WearRate, TickDistance, SectorAt;
  }

  lemma StoppedStays(d: Driver, track: Track, i: Input)
    requires track.length > 0.0 && d.hasPitted
    ensures CarTick(d, track, i).hasPitted
  {
    hide SpeedOf;
  }

  /** The distance still to go to the line, in ticks at the slowest speed. */
  predicate Within(d: Driver, track: Track, n: nat) {
    d.distance + n as real * SLOWEST_TICK >= track.length
  }

  lemma OneTickNearer(d: Driver, e: Driver, track: Track, n: nat)
    requires n > 0 && Within(d, track, n) && e.distance >= d.distance + SLOWEST_TICK
    ensures Within(e, track, n - 1)
  {
    assert n as real * SLOWEST_TICK == (n - 1) as real * SLOWEST_TICK + SLOWEST_TICK;
  }

  lemma NotInPits(w: World, i: nat)
    requires RaceOk(w) && i < |w.cars| && DueToStop(w.cars[i])
    ensures !w.cars[i].inPit && RangesOk(w.cars[i], w.track) && GoodTrack(w.track)
    ensures !Within(w.cars[i], w.track, 0)
  {
    CarFacts(w, i);
    RaceFacts(w);
  }

  /** After a tick, a car that has stopped or is due to stop still is, and in the second case it is nearer the line. */
  lemma DueTick(w: World, inputs: seq<Input>, i: nat)
    requires RaceOk(w) && Legal(w, inputs) && i < |w.cars|
    ensures var d, e := w.cars[i], Tick(w, inputs).cars[i];
      && (d.hasPitted ==> e.hasPitted)
      && (DueToStop(d) ==> e.hasPitted || (DueToStop(e) && e.distance >= d.distance + SLOWEST_TICK))
  {
    RaceFacts(w);
    CarAfterTick(w, inputs, i);
    if w.cars[i].hasPitted {
      StoppedStays(w.cars[i], w.track, inputs[i]);
    }
    if DueToStop(w.cars[i]) {
      NotInPits(w, i);
      DueCase(w.cars[i], w.track, inputs[i]);
    }
    hide Tick, CarTick, RaceOk;
  }

  /** The car has stopped, or will when it gets to the line, n ticks from here at most. */
  predicate DueStill(d: Driver, track: Track, n: nat) {
    d.hasPitted || (DueToStop(d) && Within(d, track, n))
  }

  lemma NobodyOnTheLine(w: World, i: nat)
    requires RaceOk(w) && i < |w.cars| && DueStill(w.cars[i], w.track, 0)
    ensures w.cars[i].hasPitted
  {
    if DueToStop(w.cars[i]) {
      NotInPits(w, i);
    }
  }

  lemma DueStep(w: World, inputs: seq<Input>, i: nat, n: nat)
    requires RaceOk(w) && Legal(w, inputs) && i < |w.cars| && n > 0 && DueStill(w.cars[i], w.track, n)
    ensures WellFormed(w) && i < |Tick(w, inputs).cars| && DueStill(Tick(w, inputs).cars[i], w.track, n - 1)
  {
    RaceFacts(w);
    SameField(w, inputs);
    DueTick(w, inputs, i);
    hide RaceOk, Tick, DueToStop, Within;
    var d, e := w.cars[i], Tick(w, inputs).cars[i];
    if !d.hasPitted && !e.hasPitted {
      OneTickNearer(d, e, w.track, n);
    }
  }

  lemma {:induction false} DueStops(w: World, run: seq<seq<Input>>, i: nat)
    requires RaceOk(w) && LegalRun(w, run) && i < |w.cars|
    requires DueStill(w.cars[i], w.track, |run|)
    ensures i < |Run(w, run).cars| && Run(w, run).cars[i].hasPitted
    decreases |run|
  {
    hide RaceOk, WellFormed, DueStill, Legal, Run, LegalRun, Tick;
    assert i < |w.cars|;
    if run == [] {
      RaceFacts(w);
      NoTicks(w);
      NobodyOnTheLine(w, i);
    } else {
      RaceFacts(w);
      NextTickLegal(w, run);
      TickOk(w, run[0]);
      SameField(w, run[0]);
      DueStep(w, run[0], i, |run|);
      DueStops(Tick(w, run[0]), run[1..], i);
    }
  }

  lemma SameField(w: World, inputs: seq<Input>)
    requires WellFormed(w) && |inputs| == |w.cars|
    ensures |Tick(w, inputs).cars| == |w.cars| && Tick(w, inputs).track == w.track
  {
    hide CarTick, UpdatePositions, RaceLapAfter, FinishedAfter;
  }

  /** How many ticks a car that has gone into the pits still has to stand. */
  function Standing(d: Driver): int {
    if d.inPit then d.pitTimer else 0
  }

  lemma StopFacts(w: World, i: nat)
    requires RaceOk(w) && i < |w.cars| && w.cars[i].hasPitted
    ensures Standing(w.cars[i]) <= 11 && (w.cars[i].inPit ==> Standing(w.cars[i]) >= 1)
    ensures !w.cars[i].inPit ==> w.cars[i].pitStops == 1
  {
    CarFacts(w, i);
  }

  lemma StandingDown(w: World, inputs: seq<Input>, i: nat)
    requires RaceOk(w) && Legal(w, inputs) && i < |w.cars| && w.cars[i].hasPitted
    ensures var d, e := w.cars[i], Tick(w, inputs).cars[i];
      e.hasPitted && Standing(e) <= (if Standing(d) > 0 then Standing(d) - 1 else 0)
  {
    RaceFacts(w);
    StopFacts(w, i);
    if w.cars[i].inPit {
      StandingTick(w, inputs, i);
    } else {
      PitDecision(w, inputs, i);
    }
    hide Tick, RaceOk;
  }

  lemma {:induction false} StopEnds(w: World, run: seq<seq<Input>>, i: nat)
    requires RaceOk(w) && LegalRun(w, run) && i < |w.cars|
    requires w.cars[i].hasPitted && Standing(w.cars[i]) <= |run|
    ensures var v := Run(w, run); i < |v.cars| && !v.cars[i].inPit && v.cars[i].pitStops == 1
    decreases |run|
  {
    RaceFacts(w);
    StopFacts(w, i);
    hide RaceOk, Legal, Standing, Run, LegalRun, CarsOk, PositionsOk, FlagsOk, FramesOk;
    if run == [] {
      NoTicks(w);
    } else {
      NextTickLegal(w, run);
      TickOk(w, run[0]);
      StandingDown(w, run[0], i);
      SameField(w, run[0]);
      hide Tick;
      StopEnds(Tick(w, run[0]), run[1..], i);
    }
  }

  lemma {:induction false} RunSplit(w: World, a: seq<seq<Input>>, b: seq<seq<Input>>)
    requires WellFormed(w) && LegalRun(w, a + b)
    ensures LegalRun(w, a) && WellFormed(Run(w, a)) && LegalRun(Run(w, a), b)
    ensures Run(w, a + b) == Run(Run(w, a), b)
    decreases |a|
  {
    hide Tick, Legal, Run, LegalRun;
    if a == [] {
      assert a + b == b;
      NoTicks(w);
    } else {
      NextTickLegal(w, a + b);
      assert (a + b)[0] == a[0] && (a + b)[1..] == a[1..] + b;
      RunSplit(Tick(w, a[0]), a[1..], b);
      RunCons(w, a[0], a[1..]);
      assert [a[0]] + a[1..] == a;
    }
  }

  lemma {:induction false} ProfileKept(w: World, run: seq<seq<Input>>, i: nat)
    requires WellFormed(w) && LegalRun(w, run) && i < |w.cars|
    ensures i < |Run(w, run).cars| && Run(w, run).cars[i].profile == w.cars[i].profile
    decreases |run|
  {
    hide Tick, CarTick, Legal, Run, LegalRun;
    if run == [] {
      NoTicks(w);
    } else {
      NextTickLegal(w, run);
      CarAfterTick(w, run[0], i);
      GapKept(w.cars[i], w.track, run[0][i]);
      SameField(w, run[0]);
      ProfileKept(Tick(w, run[0]), run[1..], i);
    }
  }

  /** At the slowest speed, k ticks wear the tires of a driver down to the threshold. */
  predicate WearsOut(p: Profile, track: Track, k: nat) {
    0.60 + 0.25 * p.tireMgmt <= 1.0 && WearRate(p, track) * (k as real * SLOWEST_TICK) >= 0.60 + 0.25 * p.tireMgmt
  }

  lemma RateNonNegative(p: Profile, track: Track)
    requires p.aggression >= 0.0 && track.tireDeg >= 0.0
    ensures WearRate(p, track) >= 0.0
  {
    ProductNonNegative(0.00130 * p.aggression, track.tireDeg);
  }

  lemma WornEnough(d: Driver, a: Acct, track: Track, k: nat, start: real)
    requires RangesOk(d, track) && GoodTrack(track) && DistanceOk(d, a, track, start) && FuelOk(d, a, track)
    requires d.pitStops == 0 && a.pitTicks == 0 && a.ticks == k && WearsOut(d.profile, track, k)
    ensures d.frame.tireWear >= 0.60 + 0.25 * d.profile.tireMgmt
  {
    RateNonNegative(d.profile, track);
    var rate, least := WearRate(d.profile, track), k as real * SLOWEST_TICK;
    assert a.moved >= least;
    ProductMonotone(rate, rate, least, a.moved);
    assert d.frame.tireWear == Min(1.0, 0.0 + rate * a.moved);
    hide WearRate;
  }

  /** After k ticks that are enough to wear the tires out and for three laps, a car has stopped or is due to. */
  lemma DueAfter(s: Setup, run: seq<seq<Input>>, i: nat)
    requires GoodSetup(s) && LegalRun(Grid(s), run) && i < |s.profiles|
    requires WearsOut(s.profiles[i], s.track, |run|) && Enough(|run|, 3, s.track)
    ensures var w := After(s, run); i < |w.cars| && (w.cars[i].hasPitted || DueToStop(w.cars[i]))
  {
    Reached(s, run);
    TicksCounted(s, run, i);
    GridClock(s, i);
    ProfileKept(Grid(s), run, i);
    var w := After(s, run);
    CarFacts(w, i);
    RaceFacts(w);
    var d, a := w.cars[i], w.accts[i];
    if !d.hasPitted {
      assert d.pitStops == 0 && a.pitTicks == 0;
      hide RaceOk, GoodSetup, LegalRun, Run, WearsOut, Enough, DistanceOk, FuelOk;
      WornEnough(d, a, w.track, |run|, w.starts[i]);
      LapsFromDistance(d, a, w.track, w.starts[i], 3, |run|);
    }
  }

  /** Whatever the noise, every car makes its one stop: within the ticks the slowest speed needs to wear its tires out
      (and for three laps), then as many as it needs for one more lap, and the eleven of the stop. */
  lemma EveryCarStops(s: Setup, run: seq<seq<Input>>, i: nat, k: nat, q: nat)
    requires GoodSetup(s) && LegalRun(Grid(s), run) && i < |s.profiles|
    requires WearsOut(s.profiles[i], s.track, k) && Enough(k, 3, s.track) && Enough(q, 1, s.track)
    requires |run| >= k + q + 11
    ensures var w := After(s, run); i < |w.cars| && !w.cars[i].inPit && w.cars[i].pitStops == 1
  {
    var g := Grid(s);
    var a, rest := run[..k], run[k..];
    assert run == a + rest;
    hide WearsOut, Enough, LegalRun, Run, DueToStop, RaceOk, Grid;
    RunSplit(g, a, rest);
    DueAfter(s, a, i);
    Reached(s, a);
    DueThenDone(Run(g, a), rest, i, q);
  }

  lemma DueThenDone(w: World, run: seq<seq<Input>>, i: nat, q: nat)
    requires RaceOk(w) && WellFormed(w) && LegalRun(w, run) && i < |w.cars| && |run| >= q + 11
    requires w.cars[i].hasPitted || DueToStop(w.cars[i])
    requires Enough(q, 1, w.track)
    ensures var v := Run(w, run); i < |v.cars| && !v.cars[i].inPit && v.cars[i].pitStops == 1
  {
    var b, c := run[..q], run[q..];
    assert run == b + c;
    CarFacts(w, i);
    WithinOneLap(w.cars[i], w.track, q);
    assert DueStill(w.cars[i], w.track, q);
    hide Enough, DueStill, LegalRun, Run, RaceOk, Standing;
    RunSplit(w, b, c);
    DueStops(w, b, i);
    RunOk(w, b);
    StopFacts(Run(w, b), i);
    StopEnds(Run(w, b), c, i);
  }

  lemma WithinOneLap(d: Driver, track: Track, q: nat)
    requires RangesOk(d, track) && Enough(q, 1, track)
    ensures Within(d, track, q)
  {
  }

  /** On the default track, every driver as aggressive and as easy on tires as the season's are has stopped within 3838
      ticks. */
  lemma SeasonStops(s: Setup, run: seq<seq<Input>>, i: nat)
    requires s.track == DEFAULT_TRACK && GoodSetup(s) && LegalRun(Grid(s), run) && i < |s.profiles|
    requires s.profiles[i].aggression >= 0.60 && s.profiles[i].tireMgmt <= 0.92 && |run| >= 3838
    ensures var w := After(s, run); i < |w.cars| && !w.cars[i].inPit && w.cars[i].pitStops == 1
  {
    hide GoodSetup, LegalRun, Grid;
    assert WearsOut(s.profiles[i], s.track, 3725);
    assert Enough(3725, 3, s.track) && Enough(102, 1, s.track);
    EveryCarStops(s, run, i, 3725, 102);
  }

  /** There are legal ticks to go on with from anywhere. */
  lemma {:induction false} SomeTicks(w: World, n: nat) returns (run: seq<seq<Input>>)
    requires WellFormed(w)
    ensures LegalRun(w, run) && |run| == n
    decreases n
  {
    if n == 0 {
      return [];
    }
    var inputs := seq(|w.cars|, i requires 0 <= i < |w.cars| => Input(0.0, w.cars[i].lapStart + 1.0));
    assert Legal(w, inputs);
    assert WellFormed(Tick(w, inputs));
    hide Tick, Legal, WellFormed;
    var rest := SomeTicks(Tick(w, inputs), n - 1);
    run := [inputs] + rest;
    RunCons(w, inputs, rest);
  }

  /** A race on the default track in which a car goes into the pits and leaves them again. */
  lemma ARaceWithAStop() returns (s: Setup, run: seq<seq<Input>>)
    ensures GoodSetup(s) && LegalRun(Grid(s), run) && s.track == DEFAULT_TRACK
    ensures var w := After(s, run); |w.cars| == 1 && !w.cars[0].inPit && w.cars[0].pitStops == 1
  {
    s := Setup(DEFAULT_TRACK, [Profile(0.85, 0.95, 0.80)], [Car(0.97)], 0.0);
    assert GoodSetup(s);
    hide GoodSetup;
    run := SomeTicks(Grid(s), 3838);
    SeasonStops(s, run, 0);
    Reached(s, run);
    hide LegalRun, Run;
  }
}
