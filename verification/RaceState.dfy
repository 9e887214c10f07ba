/** The shared fastest-lap pair, with one thread claiming at a time. */
module RaceStateClass {
  import opened FastestLap

  class RaceState {
    var fastestLapHolder: int
    var fastestLapMs: real

    function View(): Claim
      reads this
    {
      Claim(fastestLapMs, fastestLapHolder)
    }

    constructor ()
      ensures View() == NO_CLAIM
    {
      fastestLapHolder, fastestLapMs := NO_HOLDER, FLOAT_MAX;
    }

    /** The retry loop; the weak compare-exchange fails spuriously `spurious` times before it goes through. */
    method TryClaimFastestLap(driver: int, lap: real, spurious: nat) returns (won: bool)
      modifies this
      ensures View() == Improve(old(View()), Offer(driver, lap))
      ensures won <==> lap < old(fastestLapMs)
    {
      var currentBest := fastestLapMs;
      var left := spurious;
      while lap < currentBest
        invariant View() == old(View()) && currentBest == fastestLapMs
        decreases left
      {
        if left == 0 {
          fastestLapMs := lap;
          fastestLapHolder := driver;
          return true;
        }
        left := left - 1;
        currentBest := fastestLapMs;
      }
      return false;
    }
  }
}
