/**
 From the tick to the fastest-lap flag: a race, the ring its frames go through, and the claims made of what comes out.
 */
module EndToEnd {
  import opened RaceTypes
  import opened Telemetry
  import opened RaceResults
  import opened LapClaims
  import opened LeaderboardClass
  import Race
  import F = FastestLap
  import P = PipelineSteps

  // ---------------------------------------------------------------- offers are lap times

  lemma {:induction false} OffersAreLaps(frames: seq<Frame>, n: nat, o: F.Offer)
    ensures o in OffersOf(frames, n) <==> 0 <= o.driver < n && o.lap in Race.LapTimesOf(frames, o.driver)
  {
    if frames != [] {
      OffersAreLaps(frames[..|frames| - 1], n, o);
    }
  }

  lemma {:induction false} BoardOffers(board: seq<Driver>, o: F.Offer)
    ensures o in BestLaps(board) <==>
      exists k :: 0 <= k < |board| && board[k].bestLap > 0.0 && o == F.Offer(board[k].frame.driver, board[k].bestLap)
  {
    if board != [] {
      var n := |board| - 1;
      BoardOffers(board[..n], o);
      if o in BestLaps(board[..n]) {
        var k :| 0 <= k < n && board[..n][k].bestLap > 0.0
              && o == F.Offer(board[..n][k].frame.driver, board[..n][k].bestLap);
        assert board[k] == board[..n][k];
      }
    }
  }

  // ---------------------------------------------------------------- the least best lap of a field

  /** Nobody has a lap, or car i's best lap is the least anybody has. */
  ghost predicate IsFastest(cars: seq<Driver>, i: nat) {
    && i < |cars|
    && cars[i].bestLap > 0.0
    && forall j :: 0 <= j < |cars| && cars[j].bestLap > 0.0 ==> cars[i].bestLap <= cars[j].bestLap
  }

  /** The pair says: the least best lap and a driver who has it, or nothing if nobody has completed a lap. */
  ghost predicate Names(c: F.Claim, cars: seq<Driver>) {
    if c == F.NO_CLAIM then forall j :: 0 <= j < |cars| ==> cars[j].bestLap == 0.0
    else 0 <= c.holder < |cars| && IsFastest(cars, c.holder) && cars[c.holder].bestLap == c.best
  }

  /** Lap times a claim can see: at least a millisecond, below the initial value. */
  ghost predicate SaneLaps(frames: seq<Frame>, n: nat) {
    forall i :: 0 <= i < n ==> SaneLapsOf(Race.LapTimesOf(frames, i))
  }

  ghost predicate SaneLapsOf(laps: seq<real>) {
    forall k :: 0 <= k < |laps| ==> 1.0 <= laps[k] < F.FLOAT_MAX
  }

  /** What the accounts of a race say about best laps. */
  ghost predicate BestLapsOk(cars: seq<Driver>, frames: seq<Frame>) {
    forall i :: 0 <= i < |cars| ==>
      && cars[i].frame.driver == i
      && cars[i].bestLap == BestOf(Race.LapTimesOf(frames, i))
      && forall k :: 0 <= k < |Race.LapTimesOf(frames, i)| ==> Race.LapTimesOf(frames, i)[k] > 0.0
  }

  lemma BestLapCases(cars: seq<Driver>, frames: seq<Frame>, i: nat)
    requires BestLapsOk(cars, frames) && SaneLaps(frames, |cars|) && i < |cars|
    ensures var laps := Race.LapTimesOf(frames, i);
      if laps == [] then cars[i].bestLap == 0.0
      else LeastOf(cars[i].bestLap, laps) && 1.0 <= cars[i].bestLap < F.FLOAT_MAX
  {
    var laps := Race.LapTimesOf(frames, i);
    assert SaneLapsOf(laps);
    if laps != [] {
      BestOfCases(laps);
    }
  }

  /** Claiming all frames of a race names its fastest driver. */
  lemma ClaimsNameFastest(cars: seq<Driver>, frames: seq<Frame>)
    requires BestLapsOk(cars, frames) && SaneLaps(frames, |cars|)
    ensures Names(F.ClaimAll(OffersOf(frames, |cars|)), cars)
  {
    var offers := OffersOf(frames, |cars|);
    var c := F.ClaimAll(offers);
    F.ClaimAllIsFirstLeast(offers);
    forall j | 0 <= j < |cars| && cars[j].bestLap > 0.0 ensures c.best <= cars[j].bestLap < F.FLOAT_MAX {
      BestLapCases(cars, frames, j);
      var o := F.Offer(j, cars[j].bestLap);
      OffersAreLaps(frames, |cars|, o);
      var k :| 0 <= k < |offers| && offers[k] == o;
    }
    forall j | 0 <= j < |cars| ensures cars[j].bestLap >= 0.0 {
      BestLapCases(cars, frames, j);
    }
    if c != F.NO_CLAIM {
      var k: nat :| F.FirstAttains(offers, k, c.best) && offers[k].driver == c.holder;
      assert offers[k] in offers;
      OffersAreLaps(frames, |cars|, offers[k]);
      BestLapCases(cars, frames, c.holder);
    }
  }

  /** The board lists exactly the cars of the field, in any order. */
  ghost predicate SameCars(board: seq<Driver>, cars: seq<Driver>) {
    && (forall k :: 0 <= k < |board| ==> board[k] in cars)
    && (forall i :: 0 <= i < |cars| ==> cars[i] in board)
  }

  /** Scanning the board names a fastest driver, too. */
  lemma ScanNamesFastest(board: seq<Driver>, cars: seq<Driver>, frames: seq<Frame>)
    requires BestLapsOk(cars, frames) && SaneLaps(frames, |cars|) && SameCars(board, cars)
    ensures Names(F.ClaimAll(BestLaps(board)), cars)
  {
    var offers := BestLaps(board);
    var c := F.ClaimAll(offers);
    F.ClaimAllIsFirstLeast(offers);
    forall j | 0 <= j < |cars| && cars[j].bestLap > 0.0 ensures c.best <= cars[j].bestLap < F.FLOAT_MAX {
      BestLapCases(cars, frames, j);
      assert cars[j] in board;
      var b :| 0 <= b < |board| && board[b] == cars[j];
      var o := F.Offer(board[b].frame.driver, board[b].bestLap);
      BoardOffers(board, o);
      var k :| 0 <= k < |offers| && offers[k] == o;
    }
    forall j | 0 <= j < |cars| ensures cars[j].bestLap >= 0.0 {
      BestLapCases(cars, frames, j);
    }
    if c != F.NO_CLAIM {
      var k: nat :| F.FirstAttains(offers, k, c.best) && offers[k].driver == c.holder;
      assert offers[k] in offers;
      BoardOffers(board, offers[k]);
      var b :| 0 <= b < |board| && board[b].bestLap > 0.0
            && offers[k] == F.Offer(board[b].frame.driver, board[b].bestLap);
      assert board[b] in cars;
    }
  }

  // ---------------------------------------------------------------- the theorem

  /** The pipeline of a race: the ring and claim loop fed with the frames of the race's ticks. */
  ghost function PipelineOf(s: Setup, run: seq<seq<Input>>, log: nat, zero: Frame, claimer: nat,
                            actions: seq<P.Action>): P.World
    requires GoodSetup(s) && Race.LegalRun(Grid(s), run)
  {
    P.After(log, zero, After(s, run).frames, |s.profiles|, claimer, actions)
  }

  /** For every race, and every interleaving of the generator's pushes, the consumer's pops and claims and the main
      thread's request to stop, with any stale index loads and any spurious failures: if lap times are sane and the ring
      refused no frame, then once the consumer thread has ended the shared pair is the least of all drivers' best laps
      and a driver who has it; and if only one driver has it, the scan of the standings names the same driver. */
  lemma FastestLapEndToEnd(
    s: Setup, run: seq<seq<Input>>,
    log: nat, zero: Frame, claimer: nat, actions: seq<P.Action>,
    board: seq<Driver>)
    requires GoodSetup(s) && Race.LegalRun(Grid(s), run) && log >= 1
    requires var w, p := After(s, run), PipelineOf(s, run, log, zero, claimer, actions);
      && p.place.Done? && p.refused == 0
      && SaneLaps(w.frames, |w.cars|)
      && SameCars(board, w.cars)
    ensures var cars, end := After(s, run).cars, PipelineOf(s, run, log, zero, claimer, actions).claims.s;
      && Names(F.Claim(end.best, end.holder), cars)
      && ((forall i, j :: IsFastest(cars, i) && IsFastest(cars, j) ==> i == j) ==>
            end.holder == F.ClaimAll(BestLaps(board)).holder)
  {
    hide P.Run, GoodSetup, Race.LegalRun, Race.Run, SaneLaps, SameCars;
    var w := After(s, run);
    Reached(s, run);
    RaceBestLaps(s, run);
    P.ConsumerClaimsAll(log, zero, w.frames, |s.profiles|, claimer, actions);
    ClaimsNameFastest(w.cars, w.frames);
    ScanNamesFastest(board, w.cars, w.frames);
  }

  /** The theorem applies to every race and every ring: in some run nothing is refused and the consumer thread ends. */
  lemma SomeRunsFinish(s: Setup, run: seq<seq<Input>>, log: nat, zero: Frame, claimer: nat)
    returns (actions: seq<P.Action>)
    requires GoodSetup(s) && Race.LegalRun(Grid(s), run) && log >= 1
    ensures var p := PipelineOf(s, run, log, zero, claimer, actions); p.place.Done? && p.refused == 0
  {
    actions := P.SomeRunEnds(log, zero, After(s, run).frames, |s.profiles|, claimer);
  }

  lemma RaceBestLaps(s: Setup, run: seq<seq<Input>>)
    requires GoodSetup(s) && Race.LegalRun(Grid(s), run)
    ensures BestLapsOk(After(s, run).cars, After(s, run).frames)
  {
    Reached(s, run);
    var w := After(s, run);
    RaceFacts(w);
    forall i | 0 <= i < |w.cars|
      ensures w.cars[i].frame.driver == i
      ensures w.cars[i].bestLap == BestOf(Race.LapTimesOf(w.frames, i))
      ensures forall k :: 0 <= k < |Race.LapTimesOf(w.frames, i)| ==> Race.LapTimesOf(w.frames, i)[k] > 0.0
    {
      OneFramePerLap(s, run, i);
    }
  }
}
