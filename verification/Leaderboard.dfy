/** The standings: one writer, any number of readers, every operation under the lock. */
module LeaderboardClass {
  import opened Options
  import opened RaceTypes
  import opened FastestLap

  /** The best laps on the board, as offers in board order; a board entry without one offers nothing. */
  function BestLaps(standings: seq<Driver>): seq<Offer> {
    if standings == [] then []
    else
      var front, s := BestLaps(standings[..|standings| - 1]), standings[|standings| - 1];
      if s.bestLap > 0.0 then front + [Offer(s.frame.driver, s.bestLap)] else front
  }

  class Leaderboard {
    var standings: seq<Driver>
    var writer: Option<nat>

    constructor ()
      ensures standings == [] && writer == None
    {
      standings, writer := [], None;
    }

    /** Called by thread `tid`; false stands for the exception a second writer gets. */
    method Update(tid: nat, sorted: seq<Driver>) returns (ok: bool)
      modifies this
      ensures ok <==> old(writer) == None || old(writer) == Some(tid)
      ensures ok ==> standings == sorted && writer == Some(tid)
      ensures !ok ==> standings == old(standings) && writer == old(writer)
    {
      if writer == None {
        writer := Some(tid);
      } else if writer != Some(tid) {
        return false;
      }
      standings := sorted;
      return true;
    }

    /** The first entry with the given position, or a default-constructed one. */
    method AtPosition(pos: int) returns (d: Driver)
      ensures (exists k :: 0 <= k < |standings| && standings[k].position == pos) ==>
        exists k :: 0 <= k < |standings| && standings[k].position == pos && d == standings[k]
                 && forall j :: 0 <= j < k ==> standings[j].position != pos
      ensures (forall k :: 0 <= k < |standings| ==> standings[k].position != pos) ==> d == NO_DRIVER
    {
      for i := 0 to |standings|
        invariant forall j :: 0 <= j < i ==> standings[j].position != pos
      {
        if standings[i].position == pos {
          return standings[i];
        }
      }
      return NO_DRIVER;
    }

    /** The scan for the fastest lap: the holder `ClaimAll` yields for the best laps in board order. */
    method FastestLapHolder() returns (holder: int)
      ensures holder == ClaimAll(BestLaps(standings)).holder
    {
      var best := FLOAT_MAX;
      holder := NO_HOLDER;
      for i := 0 to |standings|
        invariant Claim(best, holder) == ClaimAll(BestLaps(standings[..i]))
      {
        assert standings[..i + 1][..i] == standings[..i];
        var s := standings[i];
        if s.bestLap > 0.0 {
          ClaimAllSnoc(BestLaps(standings[..i]), Offer(s.frame.driver, s.bestLap));
        }
        if s.bestLap > 0.0 && s.bestLap < best {
          best := s.bestLap;
          holder := s.frame.driver;
        }
      }
      assert standings[..|standings|] == standings;
    }
  }
}
