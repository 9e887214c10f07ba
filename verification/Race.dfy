/**
 Whole races: any number of cars, any number of ticks, any noise.
 */
module Race {
  import opened RaceTypes
  import opened Ranking
  import opened Telemetry

  datatype World = World(
    track: Track,
    cars: seq<Driver>,
    raceLap: int,
    finished: bool,
    frames: seq<Frame>,         // every frame pushed to the telemetry queue, oldest first
    accts: seq<Acct>,           // accounts, one per car
    starts: seq<real>)          // lap * length + distance on the grid

  predicate WellFormed(w: World) {
    |w.cars| > 0 && |w.accts| == |w.cars| && |w.starts| == |w.cars| && w.track.length > 0.0
  }

  /** A tick supplies one input per car, with clocks that move. */
  predicate Legal(w: World, inputs: seq<Input>) {
    |inputs| == |w.cars| && forall i :: 0 <= i < |inputs| ==> ClockOk(w.cars[i], inputs[i])
  }

  function MoveAll(cars: seq<Driver>, track: Track, inputs: seq<Input>): (r: seq<Driver>)
    requires track.length > 0.0 && |inputs| == |cars|
    ensures |r| == |cars| && forall i :: 0 <= i < |cars| ==> r[i] == CarTick(cars[i], track, inputs[i])
  {
    seq(|cars|, i requires 0 <= i < |cars| => CarTick(cars[i], track, inputs[i]))
  }

  function FramesOf(cars: seq<Driver>): (r: seq<Frame>)
    ensures |r| == |cars| && forall i :: 0 <= i < |cars| ==> r[i] == cars[i].frame
  {
    seq(|cars|, i requires 0 <= i < |cars| => cars[i].frame)
  }

  function AcctsOf(w: World, inputs: seq<Input>): (r: seq<Acct>)
    requires WellFormed(w) && |inputs| == |w.cars|
    ensures |r| == |w.cars|
    ensures forall i :: 0 <= i < |w.cars| ==> r[i] == CarAcct(w.accts[i], w.cars[i], w.track, inputs[i])
  {
    seq(|w.cars|, i requires 0 <= i < |w.cars| => CarAcct(w.accts[i], w.cars[i], w.track, inputs[i]))
  }

  /** `race_lap_` after the first n cars of a tick. */
  function RaceLapAfter(w: World, inputs: seq<Input>, n: nat): int
    requires WellFormed(w) && |inputs| == |w.cars| && n <= |w.cars|
  {
    if n == 0 then w.raceLap
    else
      var before, d := RaceLapAfter(w, inputs, n - 1), w.cars[n - 1];
      if CrossesLine(d, w.track, inputs[n - 1].noise) && d.frame.lap + 1 > before then d.frame.lap + 1 else before
  }

  /** `race_finished_` after the first n cars of a tick: set by a car that was leading before the tick. */
  function FinishedAfter(w: World, inputs: seq<Input>, n: nat): bool
    requires WellFormed(w) && |inputs| == |w.cars| && n <= |w.cars|
  {
    if n == 0 then w.finished
    else
      var d := w.cars[n - 1];
      || FinishedAfter(w, inputs, n - 1)
      || (CrossesLine(d, w.track, inputs[n - 1].noise) && d.frame.lap + 1 > TOTAL_LAPS && d.position == 1)
  }

  function Tick(w: World, inputs: seq<Input>): World
    requires WellFormed(w) && |inputs| == |w.cars|
  {
    var moved := MoveAll(w.cars, w.track, inputs);
    w.(cars := UpdatePositions(moved, w.track),
       raceLap := RaceLapAfter(w, inputs, |w.cars|),
       finished := FinishedAfter(w, inputs, |w.cars|),
       frames := w.frames + FramesOf(moved),
       accts := AcctsOf(w, inputs))
  }

  /** The grid: cars 10 metres apart, the first one in front. */
  function GridCar(profile: Profile, car: Car, i: nat, n: nat, now: real): Driver {
    NO_DRIVER.(
      profile := profile, car := car, position := i + 1,
      distance := (n - i - 1) as real * 0.010,
      lapStart := now,
      frame := NO_DRIVER.frame.(driver := i, lap := 1, fuel := 100.0))
  }

  function Init(track: Track, profiles: seq<Profile>, engines: seq<Car>, now: real): (w: World)
    requires |profiles| == |engines|
    ensures |w.cars| == |profiles|
  {
    var n := |profiles|;
    var cars := seq(n, i requires 0 <= i < n => GridCar(profiles[i], engines[i], i, n, now));
    World(track, cars, 1, false, [], seq(n, _ => Acct(0, 0, 0.0, 0.0, [])),
          seq(n, i requires 0 <= i < n => Total(cars[i], track)))
  }

  /** A run: one legal tick after another. */
  ghost predicate LegalRun(w: World, run: seq<seq<Input>>)
    requires WellFormed(w)
    decreases |run|
  {
    run == [] || (Legal(w, run[0]) && LegalRun(Tick(w, run[0]), run[1..]))
  }

  function Run(w: World, run: seq<seq<Input>>): World
    requires WellFormed(w) && LegalRun(w, run)
    decreases |run|
  {
    if run == [] then w else Run(Tick(w, run[0]), run[1..])
  }

  // ---------------------------------------------------------------- the invariant of a race

  /** Every car's position is one more than the number of cars ahead of it. */
  ghost predicate PositionsOk(w: World) {
    forall i :: 0 <= i < |w.cars| ==> w.cars[i].position == 1 + |AheadOf(Totals(w.cars, w.track), i)|
  }

  ghost predicate FlagsOk(w: World) {
    && (forall i :: 0 <= i < |w.cars| ==> w.cars[i].frame.lap <= w.raceLap)
    && (exists i :: 0 <= i < |w.cars| && w.cars[i].frame.lap == w.raceLap)
    && (w.finished ==> w.raceLap > TOTAL_LAPS)
  }

  /** Positive lap times of one driver, in the order of the frames. */
  function LapTimesOf(frames: seq<Frame>, driver: int): seq<real> {
    if frames == [] then []
    else
      var front, f := LapTimesOf(frames[..|frames| - 1], driver), frames[|frames| - 1];
      if f.driver == driver && f.lapTime > 0.0 then front + [f.lapTime] else front
  }

  ghost predicate FramesOk(w: World) {
    && |w.accts| == |w.cars|
    && (forall i :: 0 <= i < |w.cars| ==> w.cars[i].frame.driver == i)
    && (forall i :: 0 <= i < |w.cars| ==> LapTimesOf(w.frames, i) == w.accts[i].laps)
    && (forall k :: 0 <= k < |w.frames| ==> 0 <= w.frames[k].driver < |w.cars|)
  }

  ghost predicate CarsOk(w: World)
    requires WellFormed(w)
  {
    forall i :: 0 <= i < |w.cars| ==>
      CarOk(w.cars[i], w.accts[i], w.track, w.starts[i]) && w.starts[i] >= w.track.length
  }

  ghost predicate RaceOk(w: World) {
    WellFormed(w) && GoodTrack(w.track) && CarsOk(w) && PositionsOk(w) && FlagsOk(w) && FramesOk(w)
  }

  // ---------------------------------------------------------------- a tick keeps it

  /** Position, gap and DRS are no part of a car's accounts. */
  lemma PlacedCarOk(d: Driver, e: Driver, a: Acct, track: Track, start: real)
    requires CarOk(d, a, track, start)
    requires e == d.(position := e.position, frame := d.frame.(gap := e.frame.gap, drs := e.frame.drs))
    ensures CarOk(e, a, track, start)
  {
  }

  /** What a race knows about one of its cars. */
  lemma CarFacts(w: World, i: nat)
    requires RaceOk(w) && i < |w.cars|
    ensures i < |w.accts| && i < |w.starts|
    ensures RangesOk(w.cars[i], w.track) && PitOk(w.cars[i], w.accts[i])
    ensures DistanceOk(w.cars[i], w.accts[i], w.track, w.starts[i]) && LapsOk(w.cars[i], w.accts[i])
    ensures FuelOk(w.cars[i], w.accts[i], w.track)
    ensures w.starts[i] >= w.track.length
  {
    assert CarOk(w.cars[i], w.accts[i], w.track, w.starts[i]);
  }

  lemma TickCarsOk(w: World, inputs: seq<Input>)
    requires RaceOk(w) && Legal(w, inputs)
    ensures WellFormed(Tick(w, inputs)) && CarsOk(Tick(w, inputs))
  {
    hide CarTick, CarAcct, RangesOk, PitOk, DistanceOk, FuelOk, LapsOk, UpdatePositions;
    var moved := MoveAll(w.cars, w.track, inputs);
    var w' := Tick(w, inputs);
    forall i | 0 <= i < |w.cars|
      ensures CarOk(w'.cars[i], w'.accts[i], w'.track, w'.starts[i]) && w'.starts[i] >= w'.track.length
    {
      CarFacts(w, i);
      CarTickRanges(w.cars[i], w.track, inputs[i]);
      CarTickPit(w.cars[i], w.accts[i], w.track, inputs[i]);
      CarTickDistance(w.cars[i], w.accts[i], w.track, w.starts[i], inputs[i]);
      CarTickFuel(w.cars[i], w.accts[i], w.track, inputs[i]);
      CarTickLaps(w.cars[i], w.accts[i], w.track, inputs[i]);
      PlacementKeeps(moved, w.track, i);
      PlacedCarOk(moved[i], w'.cars[i], w'.accts[i], w.track, w.starts[i]);
    }
  }

  lemma TotalsKept(cars: seq<Driver>, track: Track)
    ensures Totals(UpdatePositions(cars, track), track) == Totals(cars, track)
  {
    hide UpdatePositions;
    forall i | 0 <= i < |cars| ensures Total(UpdatePositions(cars, track)[i], track) == Total(cars[i], track) {
      PlacementKeeps(cars, track, i);
    }
  }

  lemma PlacementPositions(cars: seq<Driver>, track: Track, i: nat)
    requires i < |cars|
    ensures UpdatePositions(cars, track)[i].position == 1 + |AheadOf(Totals(cars, track), i)|
  {
    var order := OrderOf(cars, track);
    UpdateIsPlacement(cars, track);
    assert i in order;
    var p := PlaceOf(order, i);
    assert UpdatePositions(cars, track)[order[p]] == Placed(cars, order, track, p);
    PlaceIsCarsAhead(Totals(cars, track), order, p);
  }

  lemma TickPositionsOk(w: World, inputs: seq<Input>)
    requires WellFormed(w) && Legal(w, inputs)
    ensures PositionsOk(Tick(w, inputs))
  {
    var moved := MoveAll(w.cars, w.track, inputs);
    TotalsKept(moved, w.track);
    forall i | 0 <= i < |w.cars|
      ensures UpdatePositions(moved, w.track)[i].position == 1 + |AheadOf(Totals(moved, w.track), i)|
    {
      PlacementPositions(moved, w.track, i);
    }
  }

  /** Lap counters only grow, by one on the line. */
  lemma LapAfterTick(d: Driver, track: Track, i: Input)
    requires track.length > 0.0
    ensures CarTick(d, track, i).frame.lap == d.frame.lap + (if CrossesLine(d, track, i.noise) then 1 else 0)
    ensures CarTick(d, track, i).frame.driver == d.frame.driver
  {
  }

  lemma {:induction false} RaceLapIsMax(w: World, inputs: seq<Input>, n: nat)
    requires WellFormed(w) && FlagsOk(w) && |inputs| == |w.cars| && n <= |w.cars|
    ensures var moved := MoveAll(w.cars, w.track, inputs); var r := RaceLapAfter(w, inputs, n);
      && r >= w.raceLap
      && (forall i :: 0 <= i < n ==> moved[i].frame.lap <= r)
      && (r == w.raceLap || exists i :: 0 <= i < n && moved[i].frame.lap == r)
      && (FinishedAfter(w, inputs, n) ==> r > TOTAL_LAPS)
  {
    hide CarTick, CrossesLine;
    if n > 0 {
      RaceLapIsMax(w, inputs, n - 1);
      LapAfterTick(w.cars[n - 1], w.track, inputs[n - 1]);
      var moved := MoveAll(w.cars, w.track, inputs);
      assert moved[n - 1] == CarTick(w.cars[n - 1], w.track, inputs[n - 1]);
    }
  }

  lemma TickFlagsOk(w: World, inputs: seq<Input>)
    requires RaceOk(w) && Legal(w, inputs)
    ensures FlagsOk(Tick(w, inputs))
  {
    hide CarTick, CrossesLine, UpdatePositions, CarsOk, PositionsOk, FramesOk;
    var n := |w.cars|;
    var moved := MoveAll(w.cars, w.track, inputs);
    var w' := Tick(w, inputs);
    RaceLapIsMax(w, inputs, n);
    forall i | 0 <= i < n ensures w'.cars[i].frame.lap == moved[i].frame.lap {
      PlacementKeeps(moved, w.track, i);
    }
    var i :| 0 <= i < n && w.cars[i].frame.lap == w.raceLap;
    LapAfterTick(w.cars[i], w.track, inputs[i]);
    if w'.raceLap == w.raceLap {
      assert w'.cars[i].frame.lap == w'.raceLap;
    } else {
      var j :| 0 <= j < n && moved[j].frame.lap == w'.raceLap;
      assert w'.cars[j].frame.lap == w'.raceLap;
    }
  }

  lemma LapTimesSnoc(frames: seq<Frame>, f: Frame, driver: int)
    ensures LapTimesOf(frames + [f], driver)
         == LapTimesOf(frames, driver) + (if f.driver == driver && f.lapTime > 0.0 then [f.lapTime] else [])
  {
    assert (frames + [f])[..|frames|] == frames;
  }

  /** Among the frames of one tick, driver i's is the i-th. */
  lemma {:induction false} LapTimesAppend(frames: seq<Frame>, more: seq<Frame>, driver: nat)
    requires forall k :: 0 <= k < |more| ==> more[k].driver == k
    ensures LapTimesOf(frames + more, driver) == LapTimesOf(frames, driver)
         + (if driver < |more| && more[driver].lapTime > 0.0 then [more[driver].lapTime] else [])
  {
    if more == [] {
      assert frames + more == frames;
    } else {
      var n := |more| - 1;
      LapTimesAppend(frames, more[..n], driver);
      LapTimesSnoc(frames + more[..n], more[n], driver);
      assert frames + more == frames + more[..n] + [more[n]];
    }
  }

  lemma TickFramesOk(w: World, inputs: seq<Input>)
    requires RaceOk(w) && Legal(w, inputs)
    ensures FramesOk(Tick(w, inputs))
  {
    hide CarsOk, PositionsOk, FlagsOk, UpdatePositions;
    var moved := MoveAll(w.cars, w.track, inputs);
    var w' := Tick(w, inputs);
    forall i | 0 <= i < |w.cars| ensures moved[i].frame.driver == i && w'.cars[i].frame.driver == i {
      LapAfterTick(w.cars[i], w.track, inputs[i]);
      PlacementKeeps(moved, w.track, i);
    }
    forall i | 0 <= i < |w.cars| ensures LapTimesOf(w'.frames, i) == w'.accts[i].laps {
      LapTimesAppend(w.frames, FramesOf(moved), i);
    }
  }

  lemma TickOk(w: World, inputs: seq<Input>)
    requires RaceOk(w) && Legal(w, inputs)
    ensures RaceOk(Tick(w, inputs))
  {
    TickCarsOk(w, inputs);
    TickPositionsOk(w, inputs);
    TickFlagsOk(w, inputs);
    TickFramesOk(w, inputs);
  }

  lemma {:induction false} RunOk(w: World, run: seq<seq<Input>>)
    requires RaceOk(w) && LegalRun(w, run)
    ensures RaceOk(Run(w, run))
    decreases |run|
  {
    if run != [] {
      TickOk(w, run[0]);
      RunOk(Tick(w, run[0]), run[1..]);
    }
  }

  /** The grid is a race in order, if it fits on the track. */
  lemma InitOk(track: Track, profiles: seq<Profile>, engines: seq<Car>, now: real)
    requires |profiles| == |engines| > 0 && GoodTrack(track)
    requires (|profiles| - 1) as real * 0.010 < track.length
    requires forall i :: 0 <= i < |profiles| ==> profiles[i].aggression >= 0.0
    ensures RaceOk(Init(track, profiles, engines, now))
  {
    var w := Init(track, profiles, engines, now);
    InitCarsOk(track, profiles, engines, now);
    InitFlagsOk(track, profiles, engines, now);
    forall i | 0 <= i < |profiles| ensures w.cars[i].position == 1 + |AheadOf(Totals(w.cars, track), i)| {
      GridAhead(w, |profiles|, i);
    }
    hide CarsOk, FlagsOk, FramesOk, AheadOf;
  }

  lemma InitCarsOk(track: Track, profiles: seq<Profile>, engines: seq<Car>, now: real)
    requires |profiles| == |engines| > 0 && GoodTrack(track)
    requires (|profiles| - 1) as real * 0.010 < track.length
    requires forall i :: 0 <= i < |profiles| ==> profiles[i].aggression >= 0.0
    ensures var w := Init(track, profiles, engines, now); WellFormed(w) && w.track == track && CarsOk(w)
  {
    var w := Init(track, profiles, engines, now);
    forall i | 0 <= i < |profiles|
      ensures CarOk(w.cars[i], w.accts[i], w.track, w.starts[i]) && w.starts[i] >= w.track.length
    {
      assert w.starts[i] == Total(w.cars[i], track);
    }
  }

  lemma InitFlagsOk(track: Track, profiles: seq<Profile>, engines: seq<Car>, now: real)
    requires |profiles| == |engines| > 0
    ensures FlagsOk(Init(track, profiles, engines, now)) && FramesOk(Init(track, profiles, engines, now))
  {
    var w := Init(track, profiles, engines, now);
    assert w.cars[0].frame.lap == w.raceLap;
  }

  lemma GridAhead(w: World, n: nat, i: nat)
    requires i < n == |w.cars|
    requires forall k :: 0 <= k < n ==> w.cars[k].distance == (n - k - 1) as real * 0.010 && w.cars[k].frame.lap == 1
    ensures |AheadOf(Totals(w.cars, w.track), i)| == i
  {
    var order := seq(n, k requires 0 <= k < n => k as nat);
    var totals := Totals(w.cars, w.track);
    forall p, q | 0 <= p < q < |order| ensures Before(totals, order[p], order[q]) {
      assert totals[p] == 1.0 * w.track.length + (n - p - 1) as real * 0.010;
      assert totals[q] == 1.0 * w.track.length + (n - q - 1) as real * 0.010;
    }
    forall k | 0 <= k < n ensures k in order {
      assert order[k] == k;
    }
    PlaceIsCarsAhead(totals, order, i);
  }
}
