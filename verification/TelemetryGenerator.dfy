/**
 The telemetry generator as the object it is: a vector of driver states that every tick updates in place.
 */
module TelemetryGeneratorClass {
  import opened RaceTypes
  import opened Ranking
  import opened Telemetry
  import R = Race

  class TelemetryGenerator {
    const track: Track
    var states: seq<Driver>
    var raceLap: int
    var raceFinished: bool
    ghost var frames: seq<Frame>
    ghost var accts: seq<Acct>
    ghost const starts: seq<real>

    ghost function View(): R.World
      reads this
    {
      R.World(track, states, raceLap, raceFinished, frames, accts, starts)
    }

    ghost predicate Valid()
      reads this
    {
      R.RaceOk(View())
    }

    constructor (track: Track, profiles: seq<Profile>, engines: seq<Car>, now: real)
      requires |profiles| == |engines| > 0 && GoodTrack(track)
      requires (|profiles| - 1) as real * 0.010 < track.length
      requires forall i :: 0 <= i < |profiles| ==> profiles[i].aggression >= 0.0
      ensures Valid() && View() == R.Init(track, profiles, engines, now)
    {
      this.track := track;
      raceLap, raceFinished := 1, false;
      var grid: seq<Driver> := [];
      for i := 0 to |profiles|
        invariant |grid| == i
        invariant forall k :: 0 <= k < i ==> grid[k] == R.GridCar(profiles[k], engines[k], k, |profiles|, now)
      {
        grid := grid + [R.GridCar(profiles[i], engines[i], i, |profiles|, now)];
      }
      states := grid;
      frames := [];
      accts := R.Init(track, profiles, engines, now).accts;
      starts := R.Init(track, profiles, engines, now).starts;
      new;
      assert states == R.Init(track, profiles, engines, now).cars;
      R.InitOk(track, profiles, engines, now);
    }

    /** One pit tick of a car. */
    method HandlePit(d: Driver) returns (state: Driver)
      ensures state == Telemetry.HandlePit(d)
    {
      state := d;
      var frame := state.frame;
      state := state.(pitTimer := state.pitTimer - 1);
      frame := frame.(inPit := true, speed := 60.0, throttle := 0.2, brake := 0.1);
      frame := frame.(lapTime := 0.0);
      if state.pitTimer <= 0 {
        state := state.(inPit := false);
        frame := frame.(inPit := false, tireWear := 0.02, fuel := 100.0);
        state := state.(pitStops := state.pitStops + 1);
      }
      state := state.(frame := frame);
    }

    /** One tick of a car on the track, up to the push of its frame; `crossed` says that it completed a lap. */
    method Drive(d: Driver, input: Input) returns (state: Driver, crossed: bool)
      requires track.length > 0.0 && !d.inPit
      ensures state == CarTick(d, track, input)
      ensures crossed <==> CrossesLine(d, track, input.noise)
    {
      state := d;
      var frame := state.frame;
      frame := frame.(lapTime := 0.0);
      var speed := SpeedOf(d, input.noise);
      frame := frame.(speed := speed);
      frame := frame.(throttle := Min(1.0, frame.speed / 310.0));
      frame := frame.(brake := if frame.speed < 150.0 then Clamp((150.0 - frame.speed) / 150.0, 0.0, 1.0) else 0.0);
      var km := TickDistance(frame.speed);
      state := state.(distance := state.distance + km);
      frame := frame.(sector := SectorAt(state.distance, track));
      var wear := TIRE_WEAR_BASE * state.profile.aggression * track.tireDeg * (frame.speed / 280.0);
      frame := frame.(tireWear := Min(1.0, frame.tireWear + wear));
      frame := frame.(fuel := Max(0.0, frame.fuel - track.fuelUse * km));
      crossed := state.distance >= track.length;
      state := state.(frame := frame);
      assert state == Move(d, track, input.noise);
      if crossed {
        state := state.(distance := state.distance - track.length);
        frame := frame.(lap := frame.lap + 1);
        var lapMs := input.now - state.lapStart;
        state := state.(lapStart := input.now);
        frame := frame.(lapTime := lapMs);
        if state.bestLap < 1.0 || lapMs < state.bestLap {
          state := state.(bestLap := lapMs);
        }
        state := state.(frame := frame);
        if ShouldPit(state) {
          state := state.(inPit := true, pitTimer := PIT_STOP_TICKS, hasPitted := true);
          frame := frame.(inPit := true);
          state := state.(frame := frame);
        }
      }
    }

    /** The body of the per-car loop: `w` is the world before the tick, cars before i are done. */
    method TickCar(ghost w: R.World, inputs: seq<Input>, i: nat) returns (frame: Frame)
      requires R.WellFormed(w) && |inputs| == |w.cars| == |states| && i < |states| && track == w.track
      requires states[i] == w.cars[i]
      requires raceLap == R.RaceLapAfter(w, inputs, i) && raceFinished == R.FinishedAfter(w, inputs, i)
      modifies `states, `raceLap, `raceFinished
      ensures states == old(states)[i := CarTick(w.cars[i], track, inputs[i])] && frame == states[i].frame
      ensures raceLap == R.RaceLapAfter(w, inputs, i + 1) && raceFinished == R.FinishedAfter(w, inputs, i + 1)
    {
      hide CarTick, CrossesLine;
      var state := states[i];
      if state.inPit {
        state := HandlePit(state);
        InPits(w.cars[i], track, inputs[i]);
      } else {
        var crossed;
        state, crossed := Drive(state, inputs[i]);
        R.LapAfterTick(w.cars[i], track, inputs[i]);
        PositionKept(w.cars[i], track, inputs[i]);
        if crossed {
          if state.frame.lap > raceLap {
            raceLap := state.frame.lap;
          }
          if state.frame.lap > TOTAL_LAPS && state.position == 1 {
            raceFinished := true;
          }
        }
      }
      states := states[i := state];
      frame := state.frame;
    }

    method Tick(inputs: seq<Input>) returns (pushed: seq<Frame>)
      requires Valid() && R.Legal(View(), inputs)
      modifies this
      ensures Valid() && View() == R.Tick(old(View()), inputs)
      ensures frames == old(frames) + pushed
    {
      hide R.RaceOk, CarTick, CrossesLine, R.RaceLapAfter, R.FinishedAfter;
      ghost var w := View();
      R.TickOk(w, inputs);
      WellFormedNow();
      RaceFlagsStart(w, inputs);
      pushed := [];
      var i := 0;
      while i < |states|
        invariant i <= |states| == |w.cars| == |inputs| && track == w.track
        invariant frames == w.frames && accts == w.accts
        invariant |pushed| == i
        invariant forall k :: 0 <= k < i ==>
          states[k] == CarTick(w.cars[k], track, inputs[k]) && pushed[k] == states[k].frame
        invariant forall k :: i <= k < |states| ==> states[k] == w.cars[k]
        invariant raceLap == R.RaceLapAfter(w, inputs, i) && raceFinished == R.FinishedAfter(w, inputs, i)
      {
        var frame := TickCar(w, inputs, i);
        pushed := pushed + [frame];
        i := i + 1;
      }
      assert states == R.MoveAll(w.cars, track, inputs);
      assert pushed == R.FramesOf(states);
      UpdatePositionsAndDrs();
      frames := frames + pushed;
      accts := R.AcctsOf(w, inputs);
    }

    lemma RaceFlagsStart(w: R.World, inputs: seq<Input>)
      requires R.WellFormed(w) && |inputs| == |w.cars|
      ensures R.RaceLapAfter(w, inputs, 0) == w.raceLap && R.FinishedAfter(w, inputs, 0) == w.finished
    {
    }

    lemma WellFormedNow()
      requires Valid()
      ensures R.WellFormed(View()) && |states| > 0 && track.length > 0.0
    {
    }

    lemma InPits(d: Driver, track: Track, i: Input)
      requires d.inPit && track.length > 0.0
      ensures CarTick(d, track, i) == Telemetry.HandlePit(d) && !CrossesLine(d, track, i.noise)
    {
    }

    lemma PositionKept(d: Driver, track: Track, i: Input)
      requires track.length > 0.0
      ensures CarTick(d, track, i).position == d.position
    {
    }

    /** The car in place q once positions and gaps are written, DRS still to come. */
    ghost function Gapped(cars: seq<Driver>, order: seq<nat>, q: nat): Driver
      requires InRange(order, |cars|) && q < |order|
    {
      var d := cars[order[q]];
      d.(position := q + 1, frame := d.frame.(gap := GapAt(cars, order, track, q)))
    }

    ghost predicate NoRepeats(order: seq<nat>) {
      forall p, q :: 0 <= p < |order| && 0 <= q < |order| && p != q ==> order[p] != order[q]
    }

    /** First pass over the ranking: positions and gaps to the leader. */
    method AssignPositions(order: seq<nat>)
      requires |order| == |states| > 0 && InRange(order, |states|) && NoRepeats(order)
      modifies `states
      ensures |states| == |order|
      ensures forall q :: 0 <= q < |order| ==> states[order[q]] == Gapped(old(states), order, q)
    {
      hide GapTo;
      ghost var cars := states;
      var p := 0;
      while p < |order|
        invariant p <= |order| == |cars| == |states|
        invariant forall q :: 0 <= q < p ==> states[order[q]] == Gapped(cars, order, q)
        invariant forall q :: p <= q < |order| ==> states[order[q]] == cars[order[q]]
      {
        var s := states[order[p]].(position := p + 1);
        if p == 0 {
          s := s.(frame := s.frame.(gap := 0.0));
        } else {
          GapIgnoresRank(cars[order[0]], states[order[0]], cars[order[p]], s, track);
          s := s.(frame := s.frame.(gap := GapTo(states[order[0]], s, track)));
        }
        states := states[order[p] := s];
        p := p + 1;
      }
    }

    /** Second pass: DRS from neighbouring gaps; the leader has none. */
    method AssignDrs(ghost cars: seq<Driver>, order: seq<nat>)
      requires |order| == |states| == |cars| > 0 && InRange(order, |cars|) && NoRepeats(order)
      requires forall q :: 0 <= q < |order| ==> states[order[q]] == Gapped(cars, order, q)
      modifies `states
      ensures IsPlacement(cars, order, track, states)
    {
      hide GapTo;
      var leader := states[order[0]];
      states := states[order[0] := leader.(frame := leader.frame.(drs := false))];
      var p := 1;
      while p < |order|
        invariant 1 <= p <= |order| == |cars| == |states|
        invariant forall q :: 0 <= q < p ==> states[order[q]] == Placed(cars, order, track, q)
        invariant forall q :: p <= q < |order| ==> states[order[q]] == Gapped(cars, order, q)
      {
        var gap := states[order[p]].frame.gap - states[order[p - 1]].frame.gap;
        var s := states[order[p]];
        states := states[order[p] := s.(frame := s.frame.(drs := gap < 1.0))];
        p := p + 1;
      }
    }

    method UpdatePositionsAndDrs()
      requires |states| > 0
      modifies `states
      ensures states == UpdatePositions(old(states), track)
    {
      hide StableOrder, UpdatePositions, Gapped;
      ghost var cars := states;
      var order := OrderOf(states, track);
      UpdateIsPlacement(cars, track);
      forall p, q | 0 <= p < |order| && 0 <= q < |order| && p != q ensures order[p] != order[q] {
        PlacesDecide(Totals(cars, track), order, p, q);
      }
      AssignPositions(order);
      AssignDrs(cars, order);
      PlacementUnique(cars, order, track, states, UpdatePositions(cars, track));
    }

    /** A gap depends on laps, distances and speeds only. */
    lemma GapIgnoresRank(l: Driver, l': Driver, d: Driver, d': Driver, track: Track)
      requires l'.frame.lap == l.frame.lap && l'.distance == l.distance && l'.frame.speed == l.frame.speed
      requires d'.frame.lap == d.frame.lap && d'.distance == d.distance && d'.frame.speed == d.frame.speed
      ensures GapTo(l', d', track) == GapTo(l, d, track)
    {
    }

    lemma PlacementUnique(cars: seq<Driver>, order: seq<nat>, track: Track, a: seq<Driver>, b: seq<Driver>)
      requires IsPlacement(cars, order, track, a) && IsPlacement(cars, order, track, b)
      requires forall i :: 0 <= i < |cars| ==> i in order
      ensures a == b
    {
      forall i | 0 <= i < |cars| ensures a[i] == b[i] {
        assert i in order;
        var p := PlaceOf(order, i);
        assert a[order[p]] == b[order[p]];
      }
    }
  }
}
