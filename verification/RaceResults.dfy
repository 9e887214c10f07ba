/**
 What every race guarantees, from the grid on, after any number of ticks.
 */
module RaceResults {
  import opened RaceTypes
  import opened Ranking
  import opened Telemetry
  import opened Race

  datatype Setup = Setup(track: Track, profiles: seq<Profile>, engines: seq<Car>, now: real)

  /** A field of cars whose grid fits on the track. */
  predicate GridFits(s: Setup) {
    && |s.profiles| == |s.engines| > 0
    && s.track.length > 0.0
    && (|s.profiles| - 1) as real * 0.010 < s.track.length
  }

  /** The track is long enough for one subtraction per tick, too. */
  predicate GoodSetup(s: Setup) {
    && GridFits(s)
    && GoodTrack(s.track)
    && forall i :: 0 <= i < |s.profiles| ==> s.profiles[i].aggression >= 0.0
  }

  function Grid(s: Setup): (w: World)
    requires GridFits(s)
    ensures WellFormed(w)
  {
    Init(s.track, s.profiles, s.engines, s.now)
  }

  ghost function After(s: Setup, run: seq<seq<Input>>): World
    requires GoodSetup(s) && LegalRun(Grid(s), run)
  {
    Run(Grid(s), run)
  }

  lemma Reached(s: Setup, run: seq<seq<Input>>)
    requires GoodSetup(s) && LegalRun(Grid(s), run)
    ensures var w := After(s, run);
      RaceOk(w) && |w.cars| == |s.profiles| == |w.accts| && w.track == s.track && w.starts == Grid(s).starts
  {
    InitOk(s.track, s.profiles, s.engines, s.now);
    RunOk(Grid(s), run);
    RunKeeps(Grid(s), run, 0);
  }

  lemma TicksCounted(s: Setup, run: seq<seq<Input>>, i: nat)
    requires GoodSetup(s) && LegalRun(Grid(s), run) && i < |s.profiles|
    ensures var w := After(s, run); i < |w.accts| && w.accts[i].ticks == |run|
  {
    InitOk(s.track, s.profiles, s.engines, s.now);
    RunKeeps(Grid(s), run, i);
    hide RaceOk, Run;
  }

  lemma RaceFacts(w: World)
    requires RaceOk(w)
    ensures WellFormed(w) && CarsOk(w) && PositionsOk(w) && FlagsOk(w) && FramesOk(w) && GoodTrack(w.track)
  {
  }

  lemma TickKeeps(w: World, inputs: seq<Input>, i: nat)
    requires WellFormed(w) && Legal(w, inputs) && i < |w.cars|
    ensures var v := Tick(w, inputs);
      && |v.cars| == |w.cars| && |v.accts| == |w.cars| && v.track == w.track && v.starts == w.starts
      && v.accts[i].ticks == w.accts[i].ticks + 1
  {
    hide CarTick, UpdatePositions, RaceLapAfter, FinishedAfter;
  }

  lemma {:induction false} RunKeeps(w: World, run: seq<seq<Input>>, i: nat)
    requires RaceOk(w) && LegalRun(w, run) && i < |w.cars|
    ensures i < |w.accts|
    ensures var v := Run(w, run);
      && |v.cars| == |w.cars| && |v.accts| == |w.cars| && v.track == w.track && v.starts == w.starts
      && v.accts[i].ticks == w.accts[i].ticks + |run|
    decreases |run|
  {
    RaceFacts(w);
    hide RaceOk, Tick;
    if run != [] {
      TickOk(w, run[0]);
      RaceFacts(Tick(w, run[0]));
      TickKeeps(w, run[0], i);
      RunKeeps(Tick(w, run[0]), run[1..], i);
    }
  }

  // ---------------------------------------------------------------- distance and laps

  /** Distance is conserved: a car's total, laps times length plus distance in the lap, is its total on the grid plus
      everything it has driven; and distance, tires, fuel and sector stay in range. */
  lemma DistanceConserved(s: Setup, run: seq<seq<Input>>, i: nat)
    requires GoodSetup(s) && LegalRun(Grid(s), run) && i < |s.profiles|
    ensures var w := After(s, run);
      && i < |w.cars| && i < |w.accts| && i < |Grid(s).cars|
      && Total(w.cars[i], s.track) == Total(Grid(s).cars[i], s.track) + w.accts[i].moved
      && 0.0 <= w.cars[i].distance < s.track.length
      && 0.0 <= w.cars[i].frame.tireWear <= 1.0
      && 0.0 <= w.cars[i].frame.fuel <= 100.0
      && 1 <= w.cars[i].frame.sector <= 3
  {
    Reached(s, run);
    GridStart(s, i);
    CarFacts(After(s, run), i);
    hide RaceOk, After, Total, Grid;
  }

  lemma GridStart(s: Setup, i: nat)
    requires GoodSetup(s) && i < |s.profiles|
    ensures i < |Grid(s).cars| && i < |Grid(s).starts| && Grid(s).starts[i] == Total(Grid(s).cars[i], s.track)
  {
  }

  /** At the slowest speed, n ticks are enough for k laps. */
  predicate Enough(n: nat, k: nat, track: Track) {
    n as real * SLOWEST_TICK >= k as real * track.length
  }

  /** Every car has completed k laps after as many ticks as the slowest speed needs for them, and eleven more. */
  lemma LapsWithin(s: Setup, run: seq<seq<Input>>, i: nat, k: nat, n: nat)
    requires GoodSetup(s) && LegalRun(Grid(s), run) && i < |s.profiles|
    requires Enough(n, k, s.track) && |run| >= n + PIT_STOP_TICKS
    ensures i < |After(s, run).cars| && After(s, run).cars[i].frame.lap >= k + 1
  {
    hide Enough;
    Reached(s, run);
    TicksCounted(s, run, i);
    var w := After(s, run);
    CarFacts(w, i);
    hide RaceOk, DistanceOk, GoodSetup, LegalRun;
    LapsFromDistance(w.cars[i], w.accts[i], w.track, w.starts[i], k, n);
  }

  lemma LapsFromDistance(d: Driver, a: Acct, track: Track, start: real, k: nat, n: nat)
    requires RangesOk(d, track) && DistanceOk(d, a, track, start) && track.length > 0.0
    requires start >= track.length && a.ticks >= n + a.pitTicks && Enough(n, k, track)
    ensures d.frame.lap >= k + 1
  {
    MulMonotone(n, a.ticks - a.pitTicks, SLOWEST_TICK);
    LapsCounted(d.frame.lap, k, d.distance, track.length);
  }

  lemma LapsCounted(lap: int, k: nat, distance: real, length: real)
    requires 0.0 <= distance < length && lap as real * length + distance >= length + k as real * length
    ensures lap >= k + 1
  {
    if lap <= k {
      LapsMonotone(lap, k, length);
    }
  }

  lemma MulMonotone(a: int, b: int, x: real)
    requires a <= b && x >= 0.0
    ensures a as real * x <= b as real * x
  {
  }

  lemma LapsMonotone(a: int, b: int, x: real)
    requires a <= b && x > 0.0
    ensures a as real * x <= b as real * x
    ensures (b + 1) as real * x == b as real * x + x
  {
  }

  /** On the default track, whatever the noise, every car has completed all fifty laps after 5074 ticks. */
  lemma FiftyLapsOnDefaultTrack(s: Setup, run: seq<seq<Input>>, i: nat)
    requires s.track == DEFAULT_TRACK && GoodSetup(s) && LegalRun(Grid(s), run) && i < |s.profiles| && |run| >= 5074
    ensures i < |After(s, run).cars| && After(s, run).cars[i].frame.lap > TOTAL_LAPS
  {
    assert Enough(5063, 50, s.track);
    LapsWithin(s, run, i, 50, 5063);
  }

  /** Every car is within its lap. */
  ghost predicate AllInside(w: World) {
    forall i :: 0 <= i < |w.cars| ==> 0.0 <= w.cars[i].distance < w.track.length
  }

  /** One subtraction per tick keeps every car of every field within its lap, in every race and for all noise,
      exactly on tracks at least as long as the fastest tick. */
  lemma OneSubtractionSuffices(track: Track)
    requires track.length > 0.0
    ensures (forall s: Setup, run ::
               s.track == track && GridFits(s) && LegalRun(Grid(s), run) ==> AllInside(Run(Grid(s), run)))
       <==> track.length >= FASTEST_TICK
  {
    if track.length < FASTEST_TICK {
      var s := LoneSetup(track);
      LoneGrid(track);
      var n := LapsCatchUp(track.length, FASTEST_TICK - track.length);
      var run := FlatOutRun(Grid(s), n);
      hide GridFits, Grid, LegalRun, Run, LoneSetup, Gained;
      assert !AllInside(Run(Grid(s), run));
    } else {
      forall s: Setup, run | s.track == track && GridFits(s) && LegalRun(Grid(s), run)
        ensures AllInside(Run(Grid(s), run))
      {
        GridInside(s);
        InsideKept(Grid(s), run);
      }
    }
  }

  lemma GridInside(s: Setup)
    requires GridFits(s)
    ensures AllInside(Grid(s)) && Grid(s).track == s.track
  {
  }

  /** What n ticks gain on the line at the given gain each. */
  function Gained(n: nat, gain: real): real {
    n as real * gain
  }

  lemma LapsCatchUp(length: real, gain: real) returns (n: nat)
    requires length > 0.0 && gain > 0.0
    ensures Gained(n, gain) >= length
  {
    QuotientNonNegative(length, gain);
    n := (length / gain).Floor + 1;
    assert n as real >= length / gain;
    ProductMonotone(length / gain, n as real, gain, gain);
    assert (length / gain) * gain == length;
  }

  lemma CarStaysInside(d: Driver, track: Track, i: Input)
    requires track.length >= FASTEST_TICK > 0.0 && 0.0 <= d.distance < track.length
    ensures 0.0 <= CarTick(d, track, i).distance < track.length
  {
    TickDistanceBounds(SpeedOf(d, i.noise));
  }

  lemma {:induction false} InsideKept(w: World, run: seq<seq<Input>>)
    requires WellFormed(w) && LegalRun(w, run) && AllInside(w) && w.track.length >= FASTEST_TICK
    ensures AllInside(Run(w, run))
    decreases |run|
  {
    if run != [] {
      var v := Tick(w, run[0]);
      var moved := MoveAll(w.cars, w.track, run[0]);
      forall i | 0 <= i < |v.cars| ensures 0.0 <= v.cars[i].distance < v.track.length {
        CarStaysInside(w.cars[i], w.track, run[0][i]);
        PlacementKeeps(moved, w.track, i);
      }
      InsideKept(v, run[1..]);
    }
  }

  // ---------------------------------------------------------------- one car, flat out

  /** A field of one, on the line, whose tires do not wear. */
  function LoneSetup(track: Track): Setup {
    Setup(track, [Profile(0.0, 0.5, 0.0)], [Car(0.95)], 0.0)
  }

  /** The noise sample that takes such a car to top speed. */
  function FlatOut(d: Driver): real {
    var fuelFactor := 1.0 - (d.frame.fuel / 100.0) * 0.08;
    var tireFactor := 1.0 - d.frame.tireWear * 0.25;
    (370.0 - MaxSpeed(d.car) * fuelFactor * tireFactor - (if d.frame.drs then 12.0 else 0.0)) / 4.0
  }

  predicate Lone(w: World) {
    && WellFormed(w) && |w.cars| == 1
    && var d := w.cars[0];
    && d.profile == Profile(0.0, 0.5, 0.0) && d.frame.tireWear == 0.0 && !d.inPit && d.distance >= 0.0
  }

  lemma FlatOutSpeed(d: Driver)
    requires d.profile.consistency == 0.5
    ensures SpeedOf(d, FlatOut(d)) == 370.0
  {
    assert FlatOut(d) * (1.0 - 0.5) * 8.0 == FlatOut(d) * 4.0;
  }

  lemma NoWear(d: Driver, track: Track)
    requires d.profile.aggression == 0.0
    ensures TIRE_WEAR_BASE * d.profile.aggression * track.tireDeg * (SpeedOf(d, FlatOut(d)) / 280.0) == 0.0
  {
    assert TIRE_WEAR_BASE * d.profile.aggression == 0.0;
  }

  /** What a tick at top speed does to a lone car. */
  lemma FlatOutTick(w: World, now: real)
    requires Lone(w) && now > w.cars[0].lapStart
    ensures var d := w.cars[0]; var inputs := [Input(FlatOut(d), now)]; var v := Tick(w, inputs);
      && Legal(w, inputs) && WellFormed(v) && Lone(v) && v.track == w.track
      && |v.cars| == |v.accts| == |w.accts| == 1
      && var e := v.cars[0];
      if d.distance + FASTEST_TICK >= w.track.length
      then e.distance == d.distance + FASTEST_TICK - w.track.length && e.lapStart == now
           && e.bestLap == (if d.bestLap < 1.0 || now - d.lapStart < d.bestLap then now - d.lapStart else d.bestLap)
           && v.accts[0].laps == w.accts[0].laps + [now - d.lapStart]
      else e.distance == d.distance + FASTEST_TICK && e.lapStart == d.lapStart && e.bestLap == d.bestLap
           && v.accts[0].laps == w.accts[0].laps
  {
    var d := w.cars[0];
    var inputs := [Input(FlatOut(d), now)];
    FlatOutSpeed(d);
    NoWear(d, w.track);
    PlacementKeeps(MoveAll(w.cars, w.track, inputs), w.track, 0);
    hide UpdatePositions, SpeedOf, FlatOut;
  }

  lemma RunCons(w: World, inputs: seq<Input>, rest: seq<seq<Input>>)
    requires WellFormed(w) && Legal(w, inputs) && LegalRun(Tick(w, inputs), rest)
    ensures LegalRun(w, [inputs] + rest)
    ensures Run(w, [inputs] + rest) == Run(Tick(w, inputs), rest)
  {
    var run := [inputs] + rest;
    assert run[0] == inputs && run[1..] == rest;
    hide Tick, Legal;
  }

  /** Flat out, a car crosses the line of a short track every tick and gains the rest. */
  lemma {:induction false} FlatOutRun(w: World, n: nat) returns (run: seq<seq<Input>>)
    requires WellFormed(w) && |w.cars| == 1 && Lone(w) && w.track.length <= FASTEST_TICK
    ensures LegalRun(w, run)
    ensures var v := Run(w, run);
      && v.track == w.track && |v.cars| == 1
      && v.cars[0].distance == w.cars[0].distance + Gained(n, FASTEST_TICK - w.track.length)
    decreases n
  {
    if n == 0 {
      hide *;
      GainedNone(FASTEST_TICK - w.track.length);
      NoTicks(w);
      return [];
    }
    var now := w.cars[0].lapStart + 1.0;
    var inputs := [Input(FlatOut(w.cars[0]), now)];
    FlatOutTick(w, now);
    assert w.cars[0].distance >= 0.0;
    hide *;
    var v := Tick(w, inputs);
    var rest := FlatOutRun(v, n - 1);
    run := [inputs] + rest;
    RunCons(w, inputs, rest);
    OneMore(n, FASTEST_TICK - w.track.length);
  }

  lemma NoTicks(w: World)
    requires WellFormed(w)
    ensures LegalRun(w, []) && Run(w, []) == w
  {
  }

  lemma GainedNone(gain: real)
    ensures Gained(0, gain) == 0.0
  {
  }

  lemma OneMore(n: nat, gain: real)
    requires n > 0
    ensures Gained(n, gain) == gain + Gained(n - 1, gain)
  {
  }

  // ---------------------------------------------------------------- positions

  /** Further along: on a later lap, or further round the same one; level cars by index. */
  predicate FurtherAlong(a: Driver, i: nat, b: Driver, j: nat) {
    || a.frame.lap > b.frame.lap
    || (a.frame.lap == b.frame.lap && a.distance > b.distance)
    || (a.frame.lap == b.frame.lap && a.distance == b.distance && i < j)
  }

  /** Distances within a lap never outweigh a lap. */
  lemma LapOutweighs(lapA: int, lapB: int, x: real, y: real, len: real)
    requires lapA > lapB && 0.0 <= x < len && 0.0 <= y < len
    ensures lapA as real * len + x > lapB as real * len + y
  {
    LapsMonotone(lapB + 1, lapA, len);
    LapsMonotone(lapB, lapB, len);
  }

  lemma LexicographicPair(a: Driver, i: nat, b: Driver, j: nat, track: Track)
    requires 0.0 <= a.distance < track.length && 0.0 <= b.distance < track.length
    ensures (Total(a, track) > Total(b, track) || (Total(a, track) == Total(b, track) && i < j))
       <==> FurtherAlong(a, i, b, j)
  {
    if a.frame.lap > b.frame.lap {
      LapOutweighs(a.frame.lap, b.frame.lap, a.distance, b.distance, track.length);
    } else if b.frame.lap > a.frame.lap {
      LapOutweighs(b.frame.lap, a.frame.lap, b.distance, a.distance, track.length);
    }
  }

  lemma LexicographicTotals(w: World, i: nat, j: nat)
    requires RaceOk(w) && i < |w.cars| && j < |w.cars|
    ensures Before(Totals(w.cars, w.track), i, j) <==> FurtherAlong(w.cars[i], i, w.cars[j], j)
  {
    CarFacts(w, i);
    CarFacts(w, j);
    LexicographicPair(w.cars[i], i, w.cars[j], j, w.track);
    hide RaceOk, FurtherAlong, Total, DistanceOk;
  }

  lemma PositionInOrder(w: World, i: nat) returns (p: nat)
    requires WellFormed(w) && PositionsOk(w) && i < |w.cars|
    ensures var order := OrderOf(w.cars, w.track);
      p < |order| && order[p] == i && w.cars[i].position == p + 1
  {
    var totals, order := Totals(w.cars, w.track), OrderOf(w.cars, w.track);
    StableOrderRanks(totals);
    assert i in order;
    p := PlaceOf(order, i);
    PlaceIsCarsAhead(totals, order, p);
  }

  /** After every tick, smaller positions are exactly the cars further along the road: by lap, then by distance in the
      lap, then by index. */
  lemma PositionsFollowTheRoad(s: Setup, run: seq<seq<Input>>, i: nat, j: nat)
    requires GoodSetup(s) && LegalRun(Grid(s), run) && i < |s.profiles| && j < |s.profiles|
    ensures var w := After(s, run);
      && |w.cars| == |s.profiles|
      && (w.cars[i].position < w.cars[j].position <==> FurtherAlong(w.cars[i], i, w.cars[j], j))
      && (w.cars[i].position == w.cars[j].position <==> i == j)
  {
    Reached(s, run);
    var w := After(s, run);
    var p := PositionInOrder(w, i);
    var q := PositionInOrder(w, j);
    StableOrderRanks(Totals(w.cars, w.track));
    PlacesDecide(Totals(w.cars, w.track), OrderOf(w.cars, w.track), p, q);
    LexicographicTotals(w, i, j);
  }

  /** After every tick, positions are 1 to n, each taken: car by car, and position by position. */
  lemma PositionsArePermutation(s: Setup, run: seq<seq<Input>>, k: nat)
    requires GoodSetup(s) && LegalRun(Grid(s), run) && k < |s.profiles|
    ensures var w := After(s, run);
      && k < |w.cars|
      && 1 <= w.cars[k].position <= |w.cars|
      && (exists i :: 0 <= i < |w.cars| && w.cars[i].position == k + 1)
  {
    Reached(s, run);
    var w := After(s, run);
    var p := PositionInOrder(w, k);
    var order := OrderOf(w.cars, w.track);
    StableOrderRanks(Totals(w.cars, w.track));
    var q := PositionInOrder(w, order[k]);
    PlacesDecide(Totals(w.cars, w.track), order, q, k);
    assert w.cars[order[k]].position == k + 1;
  }

  /** The race lap is the leader's lap, and the leader's is the highest; the race is only over once it exceeds fifty. */
  lemma LeaderIsOnRaceLap(s: Setup, run: seq<seq<Input>>, i: nat)
    requires GoodSetup(s) && LegalRun(Grid(s), run) && i < |s.profiles|
    ensures var w := After(s, run);
      && i < |w.cars|
      && w.cars[i].frame.lap <= w.raceLap
      && (w.cars[i].position == 1 ==> w.cars[i].frame.lap == w.raceLap)
      && (w.finished ==> exists j :: 0 <= j < |w.cars| && w.cars[j].frame.lap > TOTAL_LAPS)
  {
    Reached(s, run);
    var w := After(s, run);
    var j :| 0 <= j < |w.cars| && w.cars[j].frame.lap == w.raceLap;
    PositionsFollowTheRoad(s, run, j, i);
    var p := PositionInOrder(w, j);
  }

  /** After any tick no gap to the leader is negative, and the leader's own is zero. */
  lemma GapsNonNegative(s: Setup, run: seq<seq<Input>>, inputs: seq<Input>, i: nat)
    requires GoodSetup(s) && LegalRun(Grid(s), run) && Legal(After(s, run), inputs) && i < |s.profiles|
    requires WellFormed(After(s, run))
    ensures var w := Tick(After(s, run), inputs);
      && i < |w.cars|
      && w.cars[i].frame.gap >= 0.0
      && (w.cars[i].position == 1 ==> w.cars[i].frame.gap == 0.0 && !w.cars[i].frame.drs)
  {
    Reached(s, run);
    var w := After(s, run);
    var moved := MoveAll(w.cars, w.track, inputs);
    var totals, order := Totals(moved, w.track), OrderOf(moved, w.track);
    UpdateIsPlacement(moved, w.track);
    assert i in order;
    var p := PlaceOf(order, i);
    assert UpdatePositions(moved, w.track)[order[p]] == Placed(moved, order, w.track, p);
    if p > 0 {
      assert Before(totals, order[0], order[p]);
      GapNonNegative(moved[order[0]], moved[order[p]], w.track);
    }
  }

  lemma GapNonNegative(leader: Driver, d: Driver, track: Track)
    requires Total(leader, track) >= Total(d, track)
    ensures GapTo(leader, d, track) >= 0.0
  {
    var gapKm := Total(leader, track) - Total(d, track);
    var avg := Max((leader.frame.speed + d.frame.speed) / 2.0, 1.0);
    QuotientNonNegative(gapKm, avg);
  }

  lemma QuotientNonNegative(a: real, b: real)
    requires a >= 0.0 && b > 0.0
    ensures a / b >= 0.0
  {
  }

  // ---------------------------------------------------------------- pit stops and lap frames

  /** Over any race a car stops at most once and stands still for at most eleven ticks: exactly eleven once the stop is
      over, and as many as the timer has counted off while it lasts; car and frame agree on it. */
  lemma OneStopOfElevenTicks(s: Setup, run: seq<seq<Input>>, i: nat)
    requires GoodSetup(s) && LegalRun(Grid(s), run) && i < |s.profiles|
    ensures var w := After(s, run);
      && i < |w.cars| && i < |w.accts|
      && var d, a := w.cars[i], w.accts[i];
      && d.frame.inPit == d.inPit
      && d.pitStops + (if d.inPit then 1 else 0) == (if d.hasPitted then 1 else 0)
      && a.pitTicks <= PIT_STOP_TICKS
      && (d.pitStops == 1 ==> a.pitTicks == PIT_STOP_TICKS)
      && (d.inPit ==> a.pitTicks == PIT_STOP_TICKS - d.pitTimer < PIT_STOP_TICKS)
  {
    Reached(s, run);
    var w := After(s, run);
    CarFacts(w, i);
  }

  /** Over any race the frames of a car that carry a lap time are one per completed lap, all positive, pit stops
      included; and its best lap is the running best over them. */
  lemma OneFramePerLap(s: Setup, run: seq<seq<Input>>, i: nat)
    requires GoodSetup(s) && LegalRun(Grid(s), run) && i < |s.profiles|
    ensures var w := After(s, run);
      && i < |w.cars|
      && var laps := LapTimesOf(w.frames, i);
      && |laps| == w.cars[i].frame.lap - 1
      && (forall k :: 0 <= k < |laps| ==> laps[k] > 0.0)
      && w.cars[i].bestLap == BestOf(laps)
  {
    Reached(s, run);
    var w := After(s, run);
    CarFacts(w, i);
  }

  /** The least element of a sequence. */
  ghost predicate LeastOf(x: real, laps: seq<real>) {
    x in laps && forall k :: 0 <= k < |laps| ==> x <= laps[k]
  }

  lemma {:induction false} BestOfCases(laps: seq<real>)
    requires laps != [] && forall k :: 0 <= k < |laps| ==> laps[k] > 0.0
    ensures BestOf(laps) in laps
    ensures BestOf(laps) < 1.0 ==> BestOf(laps) == laps[|laps| - 1]
    ensures (forall k :: 0 <= k < |laps| ==> laps[k] >= 1.0) ==> LeastOf(BestOf(laps), laps)
  {
    var n := |laps| - 1;
    assert laps == laps[..n] + [laps[n]];
    if n > 0 {
      BestOfCases(laps[..n]);
    }
  }

  /** The best-lap update treats a best below 1 ms as "none yet", so it yields the least lap exactly when all laps take
      at least 1 ms or the last one happens to be the least. */
  lemma BestOfIsLeast(laps: seq<real>)
    requires laps != [] && forall k :: 0 <= k < |laps| ==> laps[k] > 0.0
    ensures LeastOf(BestOf(laps), laps) <==>
      (forall k :: 0 <= k < |laps| ==> laps[k] >= 1.0) || LeastOf(laps[|laps| - 1], laps)
  {
    BestOfCases(laps);
    var n := |laps| - 1;
    if LeastOf(laps[n], laps) {
      assert laps == laps[..n] + [laps[n]];
      if n > 0 {
        BestOfCases(laps[..n]);
        var k :| 0 <= k < n && laps[k] == BestOf(laps[..n]);
        assert laps[n] <= laps[k];
      }
    }
  }

  /** A race whose car takes half a millisecond for its first lap and two for its second, and records two. */
  lemma BestOfCanMiss() returns (s: Setup, run: seq<seq<Input>>)
    ensures GoodSetup(s) && LegalRun(Grid(s), run)
    ensures var w := After(s, run);
      |w.cars| == 1 && LapTimesOf(w.frames, 0) == [0.5, 2.0] && w.cars[0].bestLap == 2.0
  {
    var track := Track(FASTEST_TICK, 1.0, 2.3);
    s := LoneSetup(track);
    LoneGrid(track);
    assert GoodSetup(s) && |s.profiles| == 1;
    var w0 := Grid(s);
    hide *;
    FlatOutTick(w0, 0.5);
    var in1 := [Input(FlatOut(w0.cars[0]), 0.5)];
    var w1 := Tick(w0, in1);
    FlatOutTick(w1, 2.5);
    var in2 := [Input(FlatOut(w1.cars[0]), 2.5)];
    var w2 := Tick(w1, in2);
    run := [in1] + [in2];
    NoTicks(w2);
    RunCons(w1, in2, []);
    assert [in2] + [] == [in2];
    RunCons(w0, in1, [in2]);
    LapFrames(s, run, 0);
    assert [] + [0.5 - 0.0] + [2.5 - 0.5] == [0.5, 2.0];
  }

  lemma LoneGrid(track: Track)
    requires track.length > 0.0
    ensures GridFits(LoneSetup(track))
    ensures var w := Grid(LoneSetup(track));
      && WellFormed(w) && Lone(w) && w.track == track && |w.cars| == |w.accts| == 1
      && w.accts[0].laps == []
      && w.cars[0].distance == 0.0 && w.cars[0].lapStart == 0.0 && w.cars[0].bestLap == 0.0
  {
  }

  // ---------------------------------------------------------------- at the program's tick rate

  /** Later ticks read later clocks, at least a millisecond apart. */
  predicate Paced(run: seq<seq<Input>>, i: nat) {
    forall j, k :: 0 <= j < k < |run| && i < |run[j]| && i < |run[k]| ==> run[k][i].now >= run[j][i].now + 1.0
  }

  predicate AllAtLeastOne(laps: seq<real>) {
    forall k :: 0 <= k < |laps| ==> laps[k] >= 1.0
  }

  /** A car's laps all take a millisecond as long as its lap began a millisecond before each clock reading. */
  lemma {:induction false} PacedLaps(w: World, run: seq<seq<Input>>, i: nat)
    requires WellFormed(w) && LegalRun(w, run) && Paced(run, i) && i < |w.cars| && AllAtLeastOne(w.accts[i].laps)
    requires run != [] ==> i < |run[0]| && run[0][i].now >= w.cars[i].lapStart + 1.0
    ensures i < |Run(w, run).accts| && AllAtLeastOne(Run(w, run).accts[i].laps)
    decreases |run|
  {
    if run != [] {
      ClockAfterTick(w, run[0], i);
      PacedTail(run, i);
      NextTickLegal(w, run);
      hide Tick, CrossesLine, Paced, Legal, LegalRun;
      PacedLaps(Tick(w, run[0]), run[1..], i);
    }
  }

  lemma PacedTail(run: seq<seq<Input>>, i: nat)
    requires Paced(run, i) && run != [] && i < |run[0]|
    ensures Paced(run[1..], i)
    ensures run[1..] != [] && i < |run[1..][0]| ==> run[1..][0][i].now >= run[0][i].now + 1.0
  {
  }

  lemma NextTickLegal(w: World, run: seq<seq<Input>>)
    requires WellFormed(w) && LegalRun(w, run) && run != []
    ensures Legal(w, run[0]) && WellFormed(Tick(w, run[0])) && LegalRun(Tick(w, run[0]), run[1..])
    ensures Run(w, run) == Run(Tick(w, run[0]), run[1..])
    ensures |run[0]| == |w.cars| && (run[1..] != [] ==> |run[1..][0]| == |w.cars|)
    ensures forall i :: 0 <= i < |w.cars| ==> run[0][i].now > w.cars[i].lapStart
  {
    hide CarTick, UpdatePositions, RaceLapAfter, FinishedAfter;
  }

  lemma CarClock(d: Driver, a: Acct, track: Track, i: Input)
    requires track.length > 0.0 && ClockOk(d, i)
    ensures CarTick(d, track, i).lapStart == if CrossesLine(d, track, i.noise) then i.now else d.lapStart
    ensures CarAcct(a, d, track, i).laps
         == a.laps + (if CrossesLine(d, track, i.noise) then [i.now - d.lapStart] else [])
  {
    hide SpeedOf;
  }

  lemma ClockAfterTick(w: World, inputs: seq<Input>, i: nat)
    requires WellFormed(w) && Legal(w, inputs) && i < |w.cars|
    ensures var v := Tick(w, inputs);
      && |v.cars| == |w.cars| == |v.accts|
      && v.cars[i].lapStart == (if CrossesLine(w.cars[i], w.track, inputs[i].noise) then inputs[i].now
                                else w.cars[i].lapStart)
      && v.accts[i].laps == w.accts[i].laps + (if CrossesLine(w.cars[i], w.track, inputs[i].noise)
                                               then [inputs[i].now - w.cars[i].lapStart] else [])
  {
    CarClock(w.cars[i], w.accts[i], w.track, inputs[i]);
    PlacementKeeps(MoveAll(w.cars, w.track, inputs), w.track, i);
    hide UpdatePositions, CarTick, CarAcct, CrossesLine, RaceLapAfter, FinishedAfter;
  }

  lemma PacedFromGrid(s: Setup, run: seq<seq<Input>>, i: nat)
    requires GridFits(s) && LegalRun(Grid(s), run) && i < |s.profiles| && Paced(run, i)
    requires (|s.profiles| - 1) as real * 0.010 + FASTEST_TICK < s.track.length
    ensures i < |Run(Grid(s), run).accts| && AllAtLeastOne(Run(Grid(s), run).accts[i].laps)
  {
    GridLaps(s, i);
    if run != [] {
      var g := Grid(s);
      NextTickLegal(g, run);
      FirstTickStaysShort(s, i, run[0][i]);
      ClockAfterTick(g, run[0], i);
      PacedTail(run, i);
      hide GridFits, Grid, Tick, CrossesLine, Paced, Legal, LegalRun;
      PacedLaps(Tick(g, run[0]), run[1..], i);
    }
  }

  lemma GridLaps(s: Setup, i: nat)
    requires GridFits(s) && i < |s.profiles|
    ensures |Grid(s).cars| == |Grid(s).accts| == |s.profiles| && Grid(s).accts[i].laps == []
    ensures Grid(s).track == s.track
  {
  }

  /** At the program's pace, with ticks at least a millisecond apart and nobody within one tick of the line on the grid,
      every lap takes at least a millisecond, and every car's best lap is the least of its lap times. */
  lemma BestIsLeastAtTickRate(s: Setup, run: seq<seq<Input>>, i: nat)
    requires GoodSetup(s) && LegalRun(Grid(s), run) && i < |s.profiles| && Paced(run, i)
    requires (|s.profiles| - 1) as real * 0.010 + FASTEST_TICK < s.track.length
    ensures var w := After(s, run); var laps := LapTimesOf(w.frames, i);
      && i < |w.cars|
      && AllAtLeastOne(laps)
      && (laps != [] ==> LeastOf(w.cars[i].bestLap, laps))
  {
    PacedFromGrid(s, run, i);
    OneFramePerLap(s, run, i);
    LapFrames(s, run, i);
    hide GoodSetup, GridFits, Grid, LegalRun, Run, Paced;
    var laps := LapTimesOf(After(s, run).frames, i);
    if laps != [] {
      BestOfCases(laps);
    }
  }

  lemma LapFrames(s: Setup, run: seq<seq<Input>>, i: nat)
    requires GoodSetup(s) && LegalRun(Grid(s), run) && i < |s.profiles|
    ensures var w := After(s, run); i < |w.accts| && LapTimesOf(w.frames, i) == w.accts[i].laps
    ensures After(s, run) == Run(Grid(s), run)
  {
    Reached(s, run);
    RaceFacts(After(s, run));
  }

  lemma FirstTickStaysShort(s: Setup, i: nat, input: Input)
    requires GridFits(s) && i < |s.profiles| && (|s.profiles| - 1) as real * 0.010 + FASTEST_TICK < s.track.length
    ensures !CrossesLine(Grid(s).cars[i], s.track, input.noise)
  {
    TickDistanceBounds(SpeedOf(Grid(s).cars[i], input.noise));
  }
}
