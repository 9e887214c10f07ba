/**
 The fastest-lap claim: what a single claimer computes, and the retry loop with any number of concurrent claimers.
 */
module FastestLap {

  /** numeric_limits<float>::max(): the value before any lap is claimed. */
  const FLOAT_MAX: real := 340282346638528859811704183484516925440.0

  const NO_HOLDER: int := -1

  // ---------------------------------------------------------------- one claimer

  datatype Offer = Offer(driver: int, lap: real)

  /** The published pair: fastest time and who holds it. */
  datatype Claim = Claim(best: real, holder: int)

  const NO_CLAIM: Claim := Claim(FLOAT_MAX, NO_HOLDER)

  function Improve(c: Claim, o: Offer): Claim {
    if o.lap < c.best then Claim(o.lap, o.driver) else c
  }

  function ClaimAll(offers: seq<Offer>): Claim {
    if offers == [] then NO_CLAIM else Improve(ClaimAll(offers[..|offers| - 1]), offers[|offers| - 1])
  }

  lemma ClaimAllSnoc(offers: seq<Offer>, o: Offer)
    ensures ClaimAll(offers + [o]) == Improve(ClaimAll(offers), o)
  {
    assert (offers + [o])[..|offers|] == offers;
  }

  /** `best` is the least of the initial value and all the laps. */
  ghost predicate IsLeast(best: real, offers: seq<Offer>) {
    && best <= FLOAT_MAX
    && (forall k :: 0 <= k < |offers| ==> best <= offers[k].lap)
    && (best == FLOAT_MAX || exists k :: 0 <= k < |offers| && offers[k].lap == best)
  }

  /** The k-th offer is the first to attain the least lap. */
  ghost predicate FirstAttains(offers: seq<Offer>, k: nat, best: real) {
    k < |offers| && offers[k].lap == best && forall j :: 0 <= j < k ==> offers[j].lap > best
  }

  /** A single claimer ends with the least lap offered, held by the driver of the first offer that attains it. */
  lemma {:induction false} ClaimAllIsFirstLeast(offers: seq<Offer>)
    ensures var c := ClaimAll(offers);
      && IsLeast(c.best, offers)
      && (c.best == FLOAT_MAX <==> c == NO_CLAIM)
      && (c != NO_CLAIM ==> exists k: nat :: FirstAttains(offers, k, c.best) && offers[k].driver == c.holder)
  {
    if offers != [] {
      var n := |offers| - 1;
      var front := offers[..n];
      ClaimAllIsFirstLeast(front);
      var c, c' := ClaimAll(front), ClaimAll(offers);
      if offers[n].lap < c.best {
        assert FirstAttains(offers, n, c'.best);
      } else if c != NO_CLAIM {
        var k: nat :| FirstAttains(front, k, c.best) && front[k].driver == c.holder;
        assert FirstAttains(offers, k, c'.best) && offers[k].driver == c'.holder;
      }
    }
  }

  // ---------------------------------------------------------------- any number of claimers

  /** Deciding: `current_best` is loaded.  Storing: the time has been exchanged in, the holder not yet stored. */
  datatype Caller = Outside | Deciding(driver: int, lap: real, seen: real) | Storing(driver: int, lap: real)

  datatype State = State(best: real, holder: int, callers: map<nat, Caller>)

  datatype Win = Win(caller: nat, driver: int, lap: real)

  datatype Aux = Aux(
    offers: seq<Offer>,
    offeredBy: seq<nat>,        // the caller of each offer
    current: map<nat, nat>,     // which offer a caller is busy with
    wins: seq<Win>,             // successful exchanges, in order
    loadedAt: map<nat, nat>,    // how many wins there were when a caller last loaded the time
    winIndex: map<nat, nat>,    // which win a caller is about to store the holder of
    stores: seq<nat>)           // wins whose holder has been stored (and whose call has returned true), in store order

  datatype Config = Config(s: State, x: Aux)

  datatype Action =
    | Begin(p: nat, driver: int, lap: real)
    | Attempt(p: nat, spurious: bool)       // loop test and compare_exchange_weak
    | StoreHolder(p: nat)

  function Pc(s: State, p: nat): Caller {
    if p in s.callers then s.callers[p] else Outside
  }

  function StepState(s: State, a: Action): State {
    match a
    case Begin(p, driver, lap) =>
      if Pc(s, p).Outside? then s.(callers := s.callers[p := Deciding(driver, lap, s.best)]) else s
    case Attempt(p, spurious) =>
      (match Pc(s, p)
       case Deciding(driver, lap, seen) =>
         if !(lap < seen) then s.(callers := s.callers[p := Outside])
         else if seen == s.best && !spurious then s.(best := lap, callers := s.callers[p := Storing(driver, lap)])
         else s.(callers := s.callers[p := Deciding(driver, lap, s.best)])
       case _ => s)
    case StoreHolder(p) =>
      (match Pc(s, p)
       case Storing(driver, lap) => s.(holder := driver, callers := s.callers[p := Outside])
       case _ => s)
  }

  function StepAux(s: State, x: Aux, a: Action): Aux {
    match a
    case Begin(p, driver, lap) =>
      if Pc(s, p).Outside?
      then x.(offers := x.offers + [Offer(driver, lap)], offeredBy := x.offeredBy + [p],
              current := x.current[p := |x.offers|], loadedAt := x.loadedAt[p := |x.wins|])
      else x
    case Attempt(p, spurious) =>
      (match Pc(s, p)
       case Deciding(driver, lap, seen) =>
         if !(lap < seen) then x
         else if seen == s.best && !spurious
         then x.(wins := x.wins + [Win(p, driver, lap)], winIndex := x.winIndex[p := |x.wins|])
         else x.(loadedAt := x.loadedAt[p := |x.wins|])
       case _ => x)
    case StoreHolder(p) =>
      if Pc(s, p).Storing? && p in x.winIndex then x.(stores := x.stores + [x.winIndex[p]]) else x
  }

  function Step(c: Config, a: Action): Config {
    Config(StepState(c.s, a), StepAux(c.s, c.x, a))
  }

  function Run(c: Config, actions: seq<Action>): Config
    decreases |actions|
  {
    if actions == [] then c else Run(Step(c, actions[0]), actions[1..])
  }

  const INIT: Config := Config(State(FLOAT_MAX, NO_HOLDER, map[]), Aux([], [], map[], [], map[], map[], []))

  // ---------------------------------------------------------------- the inductive invariant

  /** The published time after the first n wins. */
  function BestAfter(wins: seq<Win>, n: nat): real
    requires n <= |wins|
  {
    if n == 0 then FLOAT_MAX else wins[n - 1].lap
  }

  ghost predicate WinsOk(s: State, x: Aux) {
    && s.best == BestAfter(x.wins, |x.wins|)
    && (forall i, j :: 0 <= i < j <= |x.wins| ==> BestAfter(x.wins, j) < BestAfter(x.wins, i))
    && (forall i :: 0 <= i < |x.wins| ==> Offer(x.wins[i].driver, x.wins[i].lap) in x.offers)
  }

  /** An offer has been beaten or equalled, or its caller is still in the loop with it. */
  ghost predicate Settled(s: State, x: Aux, k: nat)
    requires k < |x.offers| == |x.offeredBy|
  {
    var p := x.offeredBy[k];
    x.offers[k].lap >= s.best || (Pc(s, p).Deciding? && p in x.current && x.current[p] == k)
  }

  ghost predicate OffersOk(s: State, x: Aux) {
    && |x.offers| == |x.offeredBy|
    && (forall k {:trigger Settled(s, x, k)} :: 0 <= k < |x.offers| ==> Settled(s, x, k))
  }

  ghost predicate CallerOk(s: State, x: Aux, p: nat)
    requires |x.offers| == |x.offeredBy|
  {
    match Pc(s, p)
    case Outside => true
    case Deciding(driver, lap, seen) =>
      && p in x.current && x.current[p] < |x.offers| && x.offers[x.current[p]] == Offer(driver, lap)
      && x.offeredBy[x.current[p]] == p
      && p in x.loadedAt && x.loadedAt[p] <= |x.wins|
      && seen == BestAfter(x.wins, x.loadedAt[p])
      && (forall j :: x.loadedAt[p] <= j < |x.wins| ==> x.wins[j].caller != p)
    case Storing(driver, lap) =>
      && p in x.winIndex && x.winIndex[p] < |x.wins| && x.wins[x.winIndex[p]] == Win(p, driver, lap)
      && x.winIndex[p] !in x.stores
  }

  ghost predicate CallersOk(s: State, x: Aux)
    requires |x.offers| == |x.offeredBy|
  {
    forall p: nat {:trigger CallerOk(s, x, p)} :: CallerOk(s, x, p)
  }

  /** The holder is the driver of the win stored last; each win is stored once, by its caller. */
  ghost predicate HolderOk(s: State, x: Aux) {
    && (forall i :: 0 <= i < |x.stores| ==> x.stores[i] < |x.wins|)
    && (forall i, j :: 0 <= i < j < |x.stores| ==> x.stores[i] != x.stores[j])
    && s.holder == (if x.stores == [] then NO_HOLDER else x.wins[x.stores[|x.stores| - 1]].driver)
    && (forall w :: 0 <= w < |x.wins| ==>
          w in x.stores || (Pc(s, x.wins[w].caller).Storing? && x.wins[w].caller in x.winIndex
                            && x.winIndex[x.wins[w].caller] == w))
  }

  ghost predicate Inv(c: Config) {
    WinsOk(c.s, c.x) && OffersOk(c.s, c.x) && CallersOk(c.s, c.x) && HolderOk(c.s, c.x)
  }

  lemma BeginInv(c: Config, p: nat, driver: int, lap: real)
    requires Inv(c) && Pc(c.s, p).Outside?
    ensures Inv(Step(c, Begin(p, driver, lap)))
  {
    var c' := Step(c, Begin(p, driver, lap));
    forall k | 0 <= k < |c'.x.offers| ensures Settled(c'.s, c'.x, k) {
      assert k < |c.x.offers| ==> Settled(c.s, c.x, k);
    }
    forall q: nat ensures CallerOk(c'.s, c'.x, q) {
      assert CallerOk(c.s, c.x, q);
    }
    forall i | 0 <= i < |c.x.wins| ensures Offer(c.x.wins[i].driver, c.x.wins[i].lap) in c'.x.offers {
    }
  }

  lemma WinWins(c: Config, p: nat)
    requires Inv(c) && Pc(c.s, p).Deciding? && Pc(c.s, p).lap < Pc(c.s, p).seen == c.s.best
    ensures var c' := Step(c, Attempt(p, false)); WinsOk(c'.s, c'.x)
    ensures var c' := Step(c, Attempt(p, false));
      forall n: nat :: n <= |c.x.wins| ==> BestAfter(c'.x.wins, n) == BestAfter(c.x.wins, n)
  {
    hide HolderOk;
    var c' := Step(c, Attempt(p, false));
    assert CallerOk(c.s, c.x, p);
    var n := |c.x.wins|;
    forall i, j | 0 <= i < j <= n + 1 ensures BestAfter(c'.x.wins, j) < BestAfter(c'.x.wins, i) {
      assert BestAfter(c'.x.wins, i) == BestAfter(c.x.wins, i);
      if j <= n {
        assert BestAfter(c'.x.wins, j) == BestAfter(c.x.wins, j);
      } else if i < n {
        assert BestAfter(c.x.wins, n) < BestAfter(c.x.wins, i);
      }
    }
  }

  lemma WinCaller(c: Config, p: nat, q: nat)
    requires Inv(c) && Pc(c.s, p).Deciding? && Pc(c.s, p).lap < Pc(c.s, p).seen == c.s.best
    ensures var c' := Step(c, Attempt(p, false)); |c'.x.offers| == |c'.x.offeredBy| && CallerOk(c'.s, c'.x, q)
  {
    WinWins(c, p);
    assert CallerOk(c.s, c.x, q);
  }

  /** The exchange succeeds. */
  lemma WinInv(c: Config, p: nat)
    requires Inv(c) && Pc(c.s, p).Deciding? && Pc(c.s, p).lap < Pc(c.s, p).seen == c.s.best
    ensures Inv(Step(c, Attempt(p, false)))
  {
    var c' := Step(c, Attempt(p, false));
    WinWins(c, p);
    assert CallerOk(c.s, c.x, p);
    hide WinsOk, BestAfter;
    forall k | 0 <= k < |c'.x.offers| ensures Settled(c'.s, c'.x, k) {
      assert Settled(c.s, c.x, k);
    }
    forall q: nat ensures CallerOk(c'.s, c'.x, q) {
      WinCaller(c, p, q);
    }
  }

  lemma WinsKept(s: State, s': State, x: Aux, x': Aux)
    requires WinsOk(s, x) && s'.best == s.best && x'.wins == x.wins && x'.offers == x.offers
    ensures WinsOk(s', x')
  {
  }

  /** With the time seen already as good as the lap, so is the published one. */
  lemma SeenIsNoBetter(c: Config, p: nat)
    requires Inv(c) && Pc(c.s, p).Deciding? && !(Pc(c.s, p).lap < Pc(c.s, p).seen)
    ensures c.s.best <= Pc(c.s, p).lap
  {
    assert CallerOk(c.s, c.x, p);
    assert c.x.loadedAt[p] < |c.x.wins| ==>
      BestAfter(c.x.wins, |c.x.wins|) < BestAfter(c.x.wins, c.x.loadedAt[p]);
  }

  /** The loop ends: the time seen is already as good, and the published one is no worse. */
  lemma LoopEndsInv(c: Config, p: nat, spurious: bool)
    requires Inv(c) && Pc(c.s, p).Deciding?
    requires !(Pc(c.s, p).lap < Pc(c.s, p).seen)
    ensures Inv(Step(c, Attempt(p, spurious)))
  {
    var c' := Step(c, Attempt(p, spurious));
    SeenIsNoBetter(c, p);
    WinsKept(c.s, c'.s, c.x, c'.x);
    assert CallerOk(c.s, c.x, p);
    hide WinsOk, BestAfter;
    forall k | 0 <= k < |c'.x.offers| ensures Settled(c'.s, c'.x, k) {
      assert Settled(c.s, c.x, k);
    }
    forall q: nat ensures CallerOk(c'.s, c'.x, q) {
      assert CallerOk(c.s, c.x, q);
    }
  }

  /** The exchange fails, spuriously or not, and reloads. */
  lemma ReloadInv(c: Config, p: nat, spurious: bool)
    requires Inv(c) && Pc(c.s, p).Deciding?
    requires Pc(c.s, p).lap < Pc(c.s, p).seen && (Pc(c.s, p).seen != c.s.best || spurious)
    ensures Inv(Step(c, Attempt(p, spurious)))
  {
    var c' := Step(c, Attempt(p, spurious));
    assert CallerOk(c.s, c.x, p);
    forall k | 0 <= k < |c'.x.offers| ensures Settled(c'.s, c'.x, k) {
      assert Settled(c.s, c.x, k);
    }
    forall q: nat ensures CallerOk(c'.s, c'.x, q) {
      assert CallerOk(c.s, c.x, q);
    }
  }

  lemma StoreInv(c: Config, p: nat)
    requires Inv(c) && Pc(c.s, p).Storing?
    ensures Inv(Step(c, StoreHolder(p)))
  {
    var c' := Step(c, StoreHolder(p));
    WinsKept(c.s, c'.s, c.x, c'.x);
    assert CallerOk(c.s, c.x, p);
    hide WinsOk, BestAfter;
    forall k | 0 <= k < |c'.x.offers| ensures Settled(c'.s, c'.x, k) {
      assert Settled(c.s, c.x, k);
    }
    forall q: nat ensures CallerOk(c'.s, c'.x, q) {
      assert CallerOk(c.s, c.x, q);
    }
  }

  lemma StepInv(c: Config, a: Action)
    requires Inv(c)
    ensures Inv(Step(c, a))
  {
    match a
    case Begin(p, driver, lap) => if Pc(c.s, p).Outside? { BeginInv(c, p, driver, lap); }
    case Attempt(p, spurious) =>
      if Pc(c.s, p).Deciding? {
        if !(Pc(c.s, p).lap < Pc(c.s, p).seen) {
          LoopEndsInv(c, p, spurious);
        } else if Pc(c.s, p).seen == c.s.best && !spurious {
          WinInv(c, p);
        } else {
          ReloadInv(c, p, spurious);
        }
      }
    case StoreHolder(p) => if Pc(c.s, p).Storing? { StoreInv(c, p); }
  }

  lemma {:induction false} RunInv(c: Config, actions: seq<Action>)
    requires Inv(c)
    ensures Inv(Run(c, actions))
    decreases |actions|
  {
    if actions != [] {
      StepInv(c, actions[0]);
      RunInv(Step(c, actions[0]), actions[1..]);
    }
  }

  function After(actions: seq<Action>): Config {
    Run(INIT, actions)
  }

  lemma Reachable(actions: seq<Action>)
    ensures Inv(After(actions))
  {
    RunInv(INIT, actions);
  }

  // ---------------------------------------------------------------- what every run guarantees

  ghost predicate NobodyInFlight(s: State) {
    forall p: nat :: Pc(s, p).Outside?
  }

  /** Each success lowers the published time; and once no call is in flight it is the least of the initial value and all
      laps ever offered. */
  lemma BestIsLeastOffered(actions: seq<Action>)
    ensures var c := After(actions);
      && (forall i, j :: 0 <= i < j <= |c.x.wins| ==> BestAfter(c.x.wins, j) < BestAfter(c.x.wins, i))
      && (NobodyInFlight(c.s) ==> IsLeast(c.s.best, c.x.offers))
  {
    Reachable(actions);
    var c := After(actions);
    if NobodyInFlight(c.s) {
      forall k | 0 <= k < |c.x.offers| ensures c.s.best <= c.x.offers[k].lap {
        assert Settled(c.s, c.x, k);
        assert Pc(c.s, c.x.offeredBy[k]).Outside?;
      }
      var n := |c.x.wins|;
      if n > 0 {
        assert BestAfter(c.x.wins, n) < BestAfter(c.x.wins, 0);
        var o := Offer(c.x.wins[n - 1].driver, c.x.wins[n - 1].lap);
        var k :| 0 <= k < |c.x.offers| && c.x.offers[k] == o;
      }
    }
  }

  /** A compare-exchange that fails, and not spuriously, means that since this caller's load another caller has
      strictly lowered the time. */
  lemma FailureMeansLowered(actions: seq<Action>, p: nat)
    requires var c := After(actions);
      Pc(c.s, p).Deciding? && Pc(c.s, p).lap < Pc(c.s, p).seen && Pc(Step(c, Attempt(p, false)).s, p).Deciding?
    ensures var c := After(actions); var n := |c.x.wins|;
      && c.s.best < Pc(c.s, p).seen
      && n > 0 && c.x.wins[n - 1].lap == c.s.best && c.x.wins[n - 1].caller != p
  {
    Reachable(actions);
    var c := After(actions);
    assert CallerOk(c.s, c.x, p);
    assert c.x.loadedAt[p] < |c.x.wins|;
  }

  /** Nothing is taken back: the logs of a run only grow. */
  lemma {:induction false} RunGrows(c: Config, actions: seq<Action>)
    ensures var c' := Run(c, actions); c.x.offers <= c'.x.offers && c.x.wins <= c'.x.wins && c.x.stores <= c'.x.stores
    decreases |actions|
  {
    if actions != [] {
      RunGrows(Step(c, actions[0]), actions[1..]);
    }
  }

  /** A duplicate-free list of all numbers below n has length n. */
  lemma {:induction false} ListsAll(log: seq<nat>, n: nat)
    requires forall i :: 0 <= i < |log| ==> log[i] < n
    requires forall i, j :: 0 <= i < j < |log| ==> log[i] != log[j]
    requires forall w :: 0 <= w < n ==> w in log
    ensures |log| == n
  {
    assert log != [] ==> log[0] < n;
    if n > 0 {
      assert n - 1 in log;
      var k :| 0 <= k < |log| && log[k] == n - 1;
      var rest := log[..k] + log[k + 1..];
      forall w | 0 <= w < n - 1 ensures w in rest {
        assert w in log;
        var i :| 0 <= i < |log| && log[i] == w;
        assert rest[if i < k then i else i - 1] == w;
      }
      ListsAll(rest, n - 1);
    }
  }

  /** With nobody in flight, every win has had its holder stored and its call has returned true, once. */
  lemma WinsAreStored(c: Config)
    requires Inv(c) && NobodyInFlight(c.s)
    ensures |c.x.stores| == |c.x.wins|
  {
    forall w | 0 <= w < |c.x.wins| ensures w in c.x.stores {
      assert Pc(c.s, c.x.wins[w].caller).Outside?;
    }
    ListsAll(c.x.stores, |c.x.wins|);
  }

  /** From any point where no call is in flight, whatever happened before: if the calls that follow all offer the same
      lap, it beats the published time, and they have all returned, then exactly one of them has returned true, and the
      lap is the published time. */
  lemma OneWinner(before: seq<Action>, later: seq<Action>, lap: real)
    requires NobodyInFlight(After(before).s) && lap < After(before).s.best
    requires NobodyInFlight(Run(After(before), later).s)
    requires var m, offers := |After(before).x.offers|, Run(After(before), later).x.offers;
      |offers| > m && forall k :: m <= k < |offers| ==> offers[k].lap == lap
    ensures var c, c' := After(before), Run(After(before), later);
      |c'.x.stores| == |c.x.stores| + 1 && |c'.x.wins| == |c.x.wins| + 1 && c'.s.best == lap
  {
    var c, c' := After(before), Run(After(before), later);
    Reachable(before);
    RunInv(c, later);
    RunGrows(c, later);
    WinsAreStored(c);
    WinsAreStored(c');
    hide Inv, Run, NobodyInFlight;
    OneNewWin(c, c', lap);
  }

  lemma OneNewWin(c: Config, c': Config, lap: real)
    requires Inv(c) && Inv(c') && NobodyInFlight(c.s) && NobodyInFlight(c'.s) && lap < c.s.best
    requires c.x.offers <= c'.x.offers && c.x.wins <= c'.x.wins && |c.x.offers| < |c'.x.offers|
    requires forall k :: |c.x.offers| <= k < |c'.x.offers| ==> c'.x.offers[k].lap == lap
    ensures |c'.x.wins| == |c.x.wins| + 1 && c'.s.best == lap
  {
    var n, n' := |c.x.wins|, |c'.x.wins|;
    QuietBest(c', |c'.x.offers|);
    assert c'.s.best <= c'.x.offers[|c.x.offers|].lap;
    assert BestAfter(c'.x.wins, n) == BestAfter(c.x.wins, n);
    forall i | n <= i < n' ensures c'.x.wins[i].lap == lap {
      NewWinIsNewOffer(c, c', i);
    }
    if n' > n + 1 {
      LaterWinLower(c', n, n + 1);
    }
  }

  lemma LaterWinLower(c: Config, i: nat, j: nat)
    requires Inv(c) && i < j < |c.x.wins|
    ensures c.x.wins[j].lap < c.x.wins[i].lap
  {
    assert BestAfter(c.x.wins, j + 1) < BestAfter(c.x.wins, i + 1);
  }

  /** With nobody in flight, no offer is below the published time. */
  lemma QuietBest(c: Config, n: nat)
    requires Inv(c) && NobodyInFlight(c.s) && n <= |c.x.offers|
    ensures forall k :: 0 <= k < n ==> c.s.best <= c.x.offers[k].lap
  {
    forall k | 0 <= k < n ensures c.s.best <= c.x.offers[k].lap {
      assert Settled(c.s, c.x, k);
      assert Pc(c.s, c.x.offeredBy[k]).Outside?;
    }
  }

  /** A win after a quiet point is won with an offer made after it. */
  lemma NewWinIsNewOffer(c: Config, c': Config, i: nat)
    requires Inv(c) && Inv(c') && NobodyInFlight(c.s) && c.x.offers <= c'.x.offers && c.x.wins <= c'.x.wins
    requires |c.x.wins| <= i < |c'.x.wins|
    ensures exists k :: |c.x.offers| <= k < |c'.x.offers| && c'.x.offers[k].lap == c'.x.wins[i].lap
  {
    var n := |c.x.wins|;
    QuietBest(c, |c.x.offers|);
    assert BestAfter(c'.x.wins, i + 1) < BestAfter(c'.x.wins, n) == BestAfter(c.x.wins, n);
    assert forall k :: 0 <= k < |c.x.offers| ==> c'.x.offers[k] == c.x.offers[k];
    var k :| 0 <= k < |c'.x.offers| && c'.x.offers[k] == Offer(c'.x.wins[i].driver, c'.x.wins[i].lap);
  }

  // ---------------------------------------------------------------- the holder

  /** Once some call has succeeded and none is in flight, the holder is always a successful claimer: the one that stored
      its name last, which need not be the one with the published time. */
  lemma HolderIsLastStored(actions: seq<Action>)
    requires NobodyInFlight(After(actions).s) && After(actions).x.wins != []
    ensures var c := After(actions); var n := |c.x.wins|;
      && |c.x.stores| == n
      && c.x.stores[n - 1] < n
      && c.s.holder == c.x.wins[c.x.stores[n - 1]].driver
      && (c.x.stores[n - 1] == n - 1 ==> Offer(c.s.holder, c.s.best) in c.x.offers)
      && ((forall i, j :: 0 <= i < j < n ==> c.x.wins[i].driver != c.x.wins[j].driver) ==>
            (c.s.holder == c.x.wins[n - 1].driver <==> c.x.stores[n - 1] == n - 1))
  {
    Reachable(actions);
    var c := After(actions);
    WinsAreStored(c);
  }

  /** Caller p exchanges lap a in for driver d and stalls; caller q exchanges a faster lap b in for driver e and stores
      its holder; then p stores its own. */
  function OvertakenStore(p: nat, d: int, a: real, q: nat, e: int, b: real): seq<Action> {
    [Begin(p, d, a), Attempt(p, false), Begin(q, e, b), Attempt(q, false), StoreHolder(q), StoreHolder(p)]
  }

  /** Any two claimers can leave the holder of one with the time of the other. */
  lemma HolderCanBeWrong(p: nat, d: int, a: real, q: nat, e: int, b: real)
    requires p != q && d != e && b < a < FLOAT_MAX
    ensures var c := After(OvertakenStore(p, d, a, q, e, b));
      && NobodyInFlight(c.s) && c.x.wins != []
      && c.x.offers == [Offer(d, a), Offer(e, b)]
      && c.s.best == b && c.s.holder == d
      && Offer(c.s.holder, c.s.best) !in c.x.offers
  {
    var l := OvertakenStore(p, d, a, q, e, b);
    var c2 := Step(Step(INIT, l[0]), l[1]);
    var c4 := Step(Step(c2, l[2]), l[3]);
    var c6 := Step(Step(c4, l[4]), l[5]);
    assert c2.s == State(a, NO_HOLDER, map[p := Storing(d, a)]);
    assert c4.s == State(b, NO_HOLDER, map[p := Storing(d, a), q := Storing(e, b)]);
    assert c6.s == State(b, d, map[p := Outside, q := Outside]);
    hide Step;
    assert l[2..][2..] == l[4..] && l[4..][2..] == [];
    RunTwo(INIT, l);
    RunTwo(c2, l[2..]);
    RunTwo(c4, l[4..]);
  }

  lemma RunTwo(c: Config, actions: seq<Action>)
    requires |actions| >= 2
    ensures Run(c, actions) == Run(Step(Step(c, actions[0]), actions[1]), actions[2..])
  {
    assert actions[1..][1..] == actions[2..];
    assert Run(c, actions) == Run(Step(c, actions[0]), actions[1..]);
  }

  // ---------------------------------------------------------------- a call nobody interferes with

  /** One call of the retry loop by caller p whose compare-exchange fails spuriously the given number of times. */
  function CallActions(p: nat, driver: int, lap: real, spurious: nat): seq<Action> {
    [Begin(p, driver, lap)] + seq(spurious, _ => Attempt(p, true)) + [Attempt(p, false), StoreHolder(p)]
  }

  lemma {:induction false} RunConcat(c: Config, a: seq<Action>, b: seq<Action>)
    ensures Run(c, a + b) == Run(Run(c, a), b)
    decreases |a|
  {
    if a == [] {
      assert a + b == b;
    } else {
      assert (a + b)[1..] == a[1..] + b;
      RunConcat(Step(c, a[0]), a[1..], b);
    }
  }

  /** Spurious failures change neither the pair nor what the caller goes on to do. */
  lemma {:induction false} SpuriousRun(c: Config, p: nat, k: nat)
    requires Pc(c.s, p).Outside? || (Pc(c.s, p).Deciding? && Pc(c.s, p).seen == c.s.best)
    ensures var c' := Run(c, seq(k, _ => Attempt(p, true)));
      && c'.s.best == c.s.best && c'.s.holder == c.s.holder && c'.x.offers == c.x.offers
      && (Pc(c'.s, p) == Pc(c.s, p)
          || (Pc(c'.s, p).Outside? && Pc(c.s, p).Deciding? && !(Pc(c.s, p).lap < c.s.best)))
    decreases k
  {
    if k > 0 {
      var again := seq(k, _ => Attempt(p, true));
      assert again[1..] == seq(k - 1, _ => Attempt(p, true));
      SpuriousRun(Step(c, Attempt(p, true)), p, k - 1);
    }
  }

  /** Such a call improves the published pair by its offer, whatever calls preceded it. */
  lemma CallIsImprove(c: Config, p: nat, driver: int, lap: real, spurious: nat)
    requires Pc(c.s, p).Outside?
    ensures var c' := Run(c, CallActions(p, driver, lap, spurious));
      && Pc(c'.s, p).Outside?
      && c'.x.offers == c.x.offers + [Offer(driver, lap)]
      && Claim(c'.s.best, c'.s.holder) == Improve(Claim(c.s.best, c.s.holder), Offer(driver, lap))
  {
    var begin, retries := [Begin(p, driver, lap)], seq(spurious, _ => Attempt(p, true));
    var last := [Attempt(p, false), StoreHolder(p)];
    RunConcat(c, begin + retries, last);
    RunConcat(c, begin, retries);
    var c1 := Step(c, begin[0]);
    assert Run(c, begin) == c1 by { assert begin[1..] == []; }
    SpuriousRun(c1, p, spurious);
    var c2 := Run(c1, retries);
    var c3 := Step(c2, last[0]);
    assert last[1..] == [last[1]] && last[1..][1..] == [];
    assert Run(c2, last) == Run(c3, last[1..]) == Step(c3, last[1]);
  }

  // ---------------------------------------------------------------- a single claimer cannot be overtaken

  ghost predicate OnlyCaller(p: nat, actions: seq<Action>) {
    forall i :: 0 <= i < |actions| ==> actions[i].p == p
  }

  /** With one caller, the published pair follows `ClaimAll`, one offer behind while a call is undecided. */
  ghost predicate SoleOk(c: Config, p: nat) {
    && (forall q: nat :: q != p ==> Pc(c.s, q).Outside?)
    && match Pc(c.s, p)
       case Outside => Claim(c.s.best, c.s.holder) == ClaimAll(c.x.offers)
       case Deciding(driver, lap, seen) =>
         && seen == c.s.best
         && c.x.offers != []
         && c.x.offers[|c.x.offers| - 1] == Offer(driver, lap)
         && Claim(c.s.best, c.s.holder) == ClaimAll(c.x.offers[..|c.x.offers| - 1])
       case Storing(driver, lap) => Claim(c.s.best, driver) == ClaimAll(c.x.offers)
  }

  lemma SoleStep(c: Config, p: nat, a: Action)
    requires SoleOk(c, p) && a.p == p
    ensures SoleOk(Step(c, a), p)
  {
    var c' := Step(c, a);
    forall q: nat | q != p ensures Pc(c'.s, q).Outside? {
      assert Pc(c'.s, q) == Pc(c.s, q);
    }
    if a.Begin? && Pc(c.s, p).Outside? {
      assert c'.x.offers[..|c.x.offers|] == c.x.offers;
    }
  }

  lemma {:induction false} SoleRun(c: Config, p: nat, actions: seq<Action>)
    requires SoleOk(c, p) && OnlyCaller(p, actions)
    ensures SoleOk(Run(c, actions), p)
    decreases |actions|
  {
    if actions != [] {
      SoleStep(c, p, actions[0]);
      assert OnlyCaller(p, actions[1..]);
      SoleRun(Step(c, actions[0]), p, actions[1..]);
    }
  }

  /** Every action is by one of the callers in P. */
  ghost predicate CallersIn(P: iset<nat>, actions: seq<Action>) {
    forall i :: 0 <= i < |actions| ==> actions[i].p in P
  }

  /** Once some call has succeeded and none is in flight, the published pair is one of the offers: the holder did drive
      the published time. */
  ghost predicate PairIsOffer(actions: seq<Action>) {
    var c := After(actions);
    NobodyInFlight(c.s) && c.x.wins != [] ==> Offer(c.s.holder, c.s.best) in c.x.offers
  }

  /** The published pair is right after every run of a set of callers if and only if the set has at most one member. */
  lemma PairRightIffSoleCaller(P: iset<nat>)
    ensures (forall actions: seq<Action> :: CallersIn(P, actions) ==> PairIsOffer(actions)) <==>
            (forall p, q :: p in P && q in P ==> p == q)
  {
    if p, q :| p in P && q in P && p != q {
      var bad := OvertakenStore(p, 7, 80000.0, q, 9, 70000.0);
      HolderCanBeWrong(p, 7, 80000.0, q, 9, 70000.0);
      assert CallersIn(P, bad) && !PairIsOffer(bad);
    } else {
      forall actions: seq<Action> | CallersIn(P, actions) ensures PairIsOffer(actions) {
        if actions != [] {
          var p := actions[0].p;
          assert forall i :: 0 <= i < |actions| ==> actions[i].p == p;
          if NobodyInFlight(After(actions).s) {
            SolePairIsOffer(p, actions);
          }
        }
      }
    }
  }

  lemma SolePairIsOffer(p: nat, actions: seq<Action>)
    requires OnlyCaller(p, actions) && NobodyInFlight(After(actions).s)
    ensures PairIsOffer(actions)
  {
    var c := After(actions);
    if c.x.wins != [] {
      Reachable(actions);
      assert BestAfter(c.x.wins, |c.x.wins|) < BestAfter(c.x.wins, 0);
      SoleClaimerHolderRight(p, actions);
      var k: nat :| FirstAttains(c.x.offers, k, c.s.best) && c.x.offers[k].driver == c.s.holder;
      assert c.x.offers[k] == Offer(c.s.holder, c.s.best);
    }
  }

  /** With a single claiming thread and any spurious failures, between calls the holder is the driver of the first lap
      that attains the least lap offered so far, and nobody if no lap was below the initial value. */
  lemma SoleClaimerHolderRight(p: nat, actions: seq<Action>)
    requires OnlyCaller(p, actions) && Pc(After(actions).s, p).Outside?
    ensures var c := After(actions);
      && IsLeast(c.s.best, c.x.offers)
      && if c.s.best == FLOAT_MAX then c.s.holder == NO_HOLDER
         else exists k: nat :: FirstAttains(c.x.offers, k, c.s.best) && c.x.offers[k].driver == c.s.holder
  {
    SoleRun(INIT, p, actions);
    ClaimAllIsFirstLeast(After(actions).x.offers);
  }
}
