/**
 Penalties with several threads processing events at once, cut at every atomic access.

 A thread counts a track-limits warning; if that made three it tries to move the driver from NONE to PENDING; if that
 succeeded it pushes the announcement.  Pit entries and exits may come from any thread at any time.
 */
module PenaltySteps {
  import opened RaceTypes

  datatype PenaltyState = NONE | PENDING | SERVING | SERVED

  const WARNINGS_FOR_PENALTY: nat := 3

  /** AtCas: its fetch_add yielded three.  Pushing: its compare-exchange succeeded. */
  datatype Thread = Idle | AtCas(driver: nat) | Pushing(driver: nat)

  datatype State = State(
    warnings: seq<nat>,
    states: seq<PenaltyState>,
    threads: map<nat, Thread>,
    issued: seq<nat>)               // drivers of the announcements, in the order they are pushed

  datatype Aux = Aux(
    claimant: map<nat, nat>,        // the thread whose fetch_add took a driver to three
    thirds: seq<nat>,               // drivers for whom a fetch_add yielded three, in order
    casFailed: bool)                // some compare-exchange from NONE found something else

  datatype Config = Config(s: State, x: Aux)

  datatype Action =
    | Count(t: nat, driver: int)    // a TRACK_LIMITS event, up to and including fetch_add
    | Cas(t: nat)
    | Push(t: nat)
    | EnterPits(driver: int)
    | ExitPits(driver: int)

  function Pc(s: State, t: nat): Thread {
    if t in s.threads then s.threads[t] else Idle
  }

  /** `driver_entered_pits`, `driver_exited_pits`: a compare-exchange that does nothing unless it finds `from`. */
  function Shift(states: seq<PenaltyState>, driver: int, from: PenaltyState, to: PenaltyState): seq<PenaltyState> {
    var d := DriverIndexOf(driver, |states|);
    if d >= 0 && states[d] == from then states[d := to] else states
  }

  function StepState(s: State, a: Action): State {
    match a
    case Count(t, driver) =>
      var d := DriverIndexOf(driver, |s.warnings|);
      if Pc(s, t) != Idle || d < 0 then s
      else
        var count := s.warnings[d] + 1;
        s.(warnings := s.warnings[d := count],
           threads := if count == WARNINGS_FOR_PENALTY then s.threads[t := AtCas(d)] else s.threads)
    case Cas(t) =>
      (match Pc(s, t)
       case AtCas(d) =>
         if d < |s.states| && s.states[d] == NONE
         then s.(states := s.states[d := PENDING], threads := s.threads[t := Pushing(d)])
         else s.(threads := s.threads[t := Idle])
       case _ => s)
    case Push(t) =>
      (match Pc(s, t)
       case Pushing(d) => s.(issued := s.issued + [d], threads := s.threads[t := Idle])
       case _ => s)
    case EnterPits(driver) => s.(states := Shift(s.states, driver, PENDING, SERVING))
    case ExitPits(driver) => s.(states := Shift(s.states, driver, SERVING, SERVED))
  }

  function StepAux(s: State, x: Aux, a: Action): Aux {
    match a
    case Count(t, driver) =>
      var d := DriverIndexOf(driver, |s.warnings|);
      if Pc(s, t) == Idle && d >= 0 && s.warnings[d] + 1 == WARNINGS_FOR_PENALTY
      then x.(claimant := x.claimant[d := t], thirds := x.thirds + [d]) else x
    case Cas(t) =>
      if Pc(s, t).AtCas? && !(Pc(s, t).driver < |s.states| && s.states[Pc(s, t).driver] == NONE)
      then x.(casFailed := true) else x
    case _ => x
  }

  function Step(c: Config, a: Action): Config {
    Config(StepState(c.s, a), StepAux(c.s, c.x, a))
  }

  function Run(c: Config, actions: seq<Action>): Config
    decreases |actions|
  {
    if actions == [] then c else Run(Step(c, actions[0]), actions[1..])
  }

  function Init(n: nat): Config {
    Config(State(seq(n, _ => 0), seq(n, _ => NONE), map[], []), Aux(map[], [], false))
  }

  // ---------------------------------------------------------------- the invariant

  /** How often a driver occurs in a log. */
  function Times(log: seq<nat>, d: nat): nat {
    if log == [] then 0 else Times(log[..|log| - 1], d) + (if log[|log| - 1] == d then 1 else 0)
  }

  lemma TimesSnoc(log: seq<nat>, e: nat, d: nat)
    ensures Times(log + [e], d) == Times(log, d) + (if e == d then 1 else 0)
  {
    assert (log + [e])[..|log|] == log;
  }

  /** Below three warnings nothing has happened; from the third on, the one thread that counted it is about to exchange,
      or about to push, or has pushed. */
  ghost predicate DriverOk(s: State, x: Aux, d: nat)
    requires d < |s.warnings| == |s.states|
  {
    if s.warnings[d] < WARNINGS_FOR_PENALTY
    then s.states[d] == NONE && Times(s.issued, d) == 0 && Times(x.thirds, d) == 0 && d !in x.claimant
    else
      && Times(x.thirds, d) == 1
      && d in x.claimant
      && match Pc(s, x.claimant[d])
         case AtCas(e) =>
           if e == d then s.states[d] == NONE && Times(s.issued, d) == 0
           else s.states[d] != NONE && Times(s.issued, d) == 1
         case Pushing(e) => s.states[d] != NONE && Times(s.issued, d) == (if e == d then 0 else 1)
         case Idle => s.states[d] != NONE && Times(s.issued, d) == 1
  }

  ghost predicate ThreadOk(s: State, x: Aux, t: nat) {
    match Pc(s, t)
    case Idle => true
    case AtCas(d) =>
      d < |s.warnings| && s.warnings[d] >= WARNINGS_FOR_PENALTY && d in x.claimant && x.claimant[d] == t
    case Pushing(d) =>
      d < |s.warnings| && s.warnings[d] >= WARNINGS_FOR_PENALTY && d in x.claimant && x.claimant[d] == t
  }

  ghost predicate Inv(c: Config) {
    && |c.s.warnings| == |c.s.states|
    && !c.x.casFailed
    && (forall d {:trigger DriverOk(c.s, c.x, d)} :: 0 <= d < |c.s.warnings| ==> DriverOk(c.s, c.x, d))
    && (forall t: nat {:trigger ThreadOk(c.s, c.x, t)} :: ThreadOk(c.s, c.x, t))
  }

  lemma InitInv(n: nat)
    ensures Inv(Init(n))
  {
    var c := Init(n);
    forall d | 0 <= d < n ensures DriverOk(c.s, c.x, d) {
    }
  }

  lemma CountDriver(c: Config, t: nat, driver: int, d: nat)
    requires Inv(c) && d < |c.s.warnings|
    ensures |Step(c, Count(t, driver)).s.warnings| == |c.s.warnings| == |c.s.states|
    ensures DriverOk(Step(c, Count(t, driver)).s, Step(c, Count(t, driver)).x, d)
  {
    assert DriverOk(c.s, c.x, d);
    var e := DriverIndexOf(driver, |c.s.warnings|);
    if e >= 0 {
      TimesSnoc(c.x.thirds, e, d);
    }
    hide Times, ThreadOk;
  }

  lemma CasDriver(c: Config, t: nat, d: nat)
    requires Inv(c) && d < |c.s.warnings|
    ensures |Step(c, Cas(t)).s.warnings| == |Step(c, Cas(t)).s.states| == |c.s.warnings|
    ensures DriverOk(Step(c, Cas(t)).s, Step(c, Cas(t)).x, d)
  {
    assert DriverOk(c.s, c.x, d);
    assert ThreadOk(c.s, c.x, t);
    hide Times;
  }

  lemma PushDriver(c: Config, t: nat, d: nat)
    requires Inv(c) && d < |c.s.warnings|
    ensures |Step(c, Push(t)).s.warnings| == |Step(c, Push(t)).s.states| == |c.s.warnings|
    ensures DriverOk(Step(c, Push(t)).s, Step(c, Push(t)).x, d)
  {
    assert DriverOk(c.s, c.x, d);
    assert ThreadOk(c.s, c.x, t);
    if Pc(c.s, t).Pushing? {
      TimesSnoc(c.s.issued, Pc(c.s, t).driver, d);
      hide Times;
    }
  }

  lemma StepDriver(c: Config, a: Action, d: nat)
    requires Inv(c) && d < |c.s.warnings|
    ensures |Step(c, a).s.warnings| == |Step(c, a).s.states| == |c.s.warnings|
    ensures DriverOk(Step(c, a).s, Step(c, a).x, d)
  {
    match a
    case Count(t, driver) => CountDriver(c, t, driver, d);
    case Cas(t) => CasDriver(c, t, d);
    case Push(t) => PushDriver(c, t, d);
    case _ => assert DriverOk(c.s, c.x, d);
  }

  lemma StepThread(c: Config, a: Action, t: nat)
    requires Inv(c)
    ensures ThreadOk(Step(c, a).s, Step(c, a).x, t)
  {
    assert ThreadOk(c.s, c.x, t);
    assert Pc(c.s, t) != Idle ==> DriverOk(c.s, c.x, Pc(c.s, t).driver);
  }

  lemma StepInv(c: Config, a: Action)
    requires Inv(c)
    ensures Inv(Step(c, a))
  {
    var c' := Step(c, a);
    assert c'.x.casFailed == false by {
      if a.Cas? {
        assert ThreadOk(c.s, c.x, a.t);
        assert Pc(c.s, a.t) != Idle ==> DriverOk(c.s, c.x, Pc(c.s, a.t).driver);
      }
    }
    hide DriverOk, ThreadOk;
    forall d | 0 <= d < |c'.s.warnings| ensures DriverOk(c'.s, c'.x, d) {
      StepDriver(c, a, d);
    }
    forall t: nat ensures ThreadOk(c'.s, c'.x, t) {
      StepThread(c, a, t);
    }
  }

  lemma {:induction false} RunInv(c: Config, actions: seq<Action>)
    requires Inv(c)
    ensures Inv(Run(c, actions)) && |Run(c, actions).s.warnings| == |c.s.warnings|
    decreases |actions|
  {
    if actions != [] {
      StepInv(c, actions[0]);
      RunInv(Step(c, actions[0]), actions[1..]);
    }
  }

  function After(n: nat, actions: seq<Action>): Config {
    Run(Init(n), actions)
  }

  // ---------------------------------------------------------------- what every run guarantees

  /** However many threads process events, a driver is announced at most once; an announcement comes from the one
      fetch_add that yielded three, which happens at most once; a compare-exchange from NONE never fails; and a driver
      has a penalty only from the third warning on. */
  lemma AtMostOnePenalty(n: nat, actions: seq<Action>, d: nat)
    requires d < n
    ensures var c := After(n, actions);
      && |c.s.warnings| == |c.s.states| == n
      && !c.x.casFailed
      && Times(c.s.issued, d) <= Times(c.x.thirds, d) <= 1
      && (Times(c.x.thirds, d) == 1 <==> c.s.warnings[d] >= WARNINGS_FOR_PENALTY)
      && (c.s.states[d] != NONE ==> c.s.warnings[d] >= WARNINGS_FOR_PENALTY)
  {
    InitInv(n);
    RunInv(Init(n), actions);
    assert DriverOk(After(n, actions).s, After(n, actions).x, d);
  }

  /** Once no thread is in the middle of an event, exactly the drivers with three warnings have been announced, once,
      and have a penalty. */
  lemma QuietPenalties(n: nat, actions: seq<Action>, d: nat)
    requires d < n && forall t: nat :: Pc(After(n, actions).s, t) == Idle
    ensures var s := After(n, actions).s;
      && |s.warnings| == |s.states| == n
      && Times(s.issued, d) == (if s.warnings[d] >= WARNINGS_FOR_PENALTY then 1 else 0)
      && (s.states[d] != NONE <==> s.warnings[d] >= WARNINGS_FOR_PENALTY)
  {
    InitInv(n);
    RunInv(Init(n), actions);
    var c := After(n, actions);
    assert DriverOk(c.s, c.x, d);
    assert d in c.x.claimant ==> Pc(c.s, c.x.claimant[d]) == Idle;
  }

  function Rank(p: PenaltyState): nat {
    match p
    case NONE => 0
    case PENDING => 1
    case SERVING => 2
    case SERVED => 3
  }

  /** A driver's state only ever moves one place along NONE, PENDING, SERVING, SERVED. */
  lemma StatesMoveForward(n: nat, actions: seq<Action>, a: Action, d: nat)
    requires d < n
    ensures var c := After(n, actions); var c' := Step(c, a);
      && |c.s.states| == |c'.s.states| == n
      && Rank(c.s.states[d]) <= Rank(c'.s.states[d]) <= Rank(c.s.states[d]) + 1
  {
    InitInv(n);
    RunInv(Init(n), actions);
  }

  // ---------------------------------------------------------------- counts and stages, from the actions alone

  lemma {:induction false} RunSnoc(c: Config, actions: seq<Action>, a: Action)
    ensures Run(c, actions + [a]) == Step(Run(c, actions), a)
    decreases |actions|
  {
    if actions == [] {
      assert [a][1..] == [];
    } else {
      assert (actions + [a])[1..] == actions[1..] + [a];
      RunSnoc(Step(c, actions[0]), actions[1..], a);
    }
  }

  /** How many warnings of driver d threads have taken on. */
  function TimesCounted(n: nat, actions: seq<Action>, d: nat): nat {
    if actions == [] then 0
    else
      var front, a := actions[..|actions| - 1], actions[|actions| - 1];
      TimesCounted(n, front, d)
      + (if a.Count? && a.driver == d && Pc(After(n, front).s, a.t) == Idle then 1 else 0)
  }

  /** The next action is the compare-exchange of the thread that counted driver d's third warning. */
  predicate Exchanges(n: nat, before: seq<Action>, a: Action, d: nat) {
    a.Cas? && Pc(After(n, before).s, a.t) == AtCas(d)
  }

  ghost predicate Penalised(n: nat, actions: seq<Action>, d: nat) {
    exists i :: 0 <= i < |actions| && Exchanges(n, actions[..i], actions[i], d)
  }

  /** A pit entry with that compare-exchange before it. */
  ghost predicate EnteredAfter(n: nat, actions: seq<Action>, d: nat) {
    exists j :: 0 <= j < |actions| && actions[j] == EnterPits(d) && Penalised(n, actions[..j], d)
  }

  /** A pit exit with such a pit entry before it. */
  ghost predicate ExitedAfter(n: nat, actions: seq<Action>, d: nat) {
    exists k :: 0 <= k < |actions| && actions[k] == ExitPits(d) && EnteredAfter(n, actions[..k], d)
  }

  ghost function Stage(n: nat, actions: seq<Action>, d: nat): PenaltyState {
    if ExitedAfter(n, actions, d) then SERVED
    else if EnteredAfter(n, actions, d) then SERVING
    else if Penalised(n, actions, d) then PENDING
    else NONE
  }

  lemma PrefixesSnoc(actions: seq<Action>, a: Action)
    ensures forall i :: 0 <= i < |actions| ==> (actions + [a])[..i] == actions[..i]
    ensures (actions + [a])[..|actions|] == actions
  {
  }

  lemma PenalisedSnoc(n: nat, actions: seq<Action>, a: Action, d: nat)
    ensures Penalised(n, actions + [a], d) <==> Penalised(n, actions, d) || Exchanges(n, actions, a, d)
  {
    var all, k := actions + [a], |actions|;
    PrefixesSnoc(actions, a);
    hide Exchanges;
    if Exchanges(n, actions, a, d) {
      assert Exchanges(n, all[..k], all[k], d);
    }
    if i :| 0 <= i < k && Exchanges(n, actions[..i], actions[i], d) {
      assert Exchanges(n, all[..i], all[i], d);
    }
  }

  lemma EnteredSnoc(n: nat, actions: seq<Action>, a: Action, d: nat)
    ensures EnteredAfter(n, actions + [a], d) <==>
      EnteredAfter(n, actions, d) || (Penalised(n, actions, d) && a == EnterPits(d))
  {
    var all := actions + [a];
    PrefixesSnoc(actions, a);
    hide Penalised;
    assert all[|actions|] == a;
    forall j | 0 <= j < |actions| ensures all[j] == actions[j] {
    }
  }

  lemma ExitedSnoc(n: nat, actions: seq<Action>, a: Action, d: nat)
    ensures ExitedAfter(n, actions + [a], d) <==>
      ExitedAfter(n, actions, d) || (EnteredAfter(n, actions, d) && a == ExitPits(d))
  {
    var all := actions + [a];
    PrefixesSnoc(actions, a);
    hide EnteredAfter;
    assert all[|actions|] == a;
    forall j | 0 <= j < |actions| ensures all[j] == actions[j] {
    }
  }

  /** What one action does to driver d: a pit entry takes it from PENDING to SERVING, a pit exit from SERVING to SERVED,
      the exchange for its third warning from NONE to PENDING, and a count of its own adds a warning; nothing else
      touches it. */
  lemma OneDriverMoves(c: Config, a: Action, d: nat)
    requires Inv(c) && d < |c.s.warnings|
    ensures var s, s' := c.s, Step(c, a).s;
      && |s'.states| == |s'.warnings| == |s.states| == |s.warnings|
      && (a.Cas? && Pc(s, a.t) == AtCas(d) ==> s.states[d] == NONE)
      && s'.states[d] == (if a == EnterPits(d) && s.states[d] == PENDING then SERVING
                          else if a == ExitPits(d) && s.states[d] == SERVING then SERVED
                          else if a.Cas? && Pc(s, a.t) == AtCas(d) then PENDING
                          else s.states[d])
      && s'.warnings[d] == s.warnings[d] + (if a.Count? && a.driver == d && Pc(s, a.t) == Idle then 1 else 0)
      && (a.EnterPits? || a.ExitPits? ==> s'.issued == s.issued && s'.threads == s.threads)
  {
    assert DriverOk(c.s, c.x, d);
    if a.Cas? {
      assert ThreadOk(c.s, c.x, a.t);
    }
    hide Times;
  }

  /** One action moves a driver's stage as the action says. */
  lemma StageStep(n: nat, actions: seq<Action>, a: Action, d: nat)
    requires d < n && |After(n, actions).s.states| == |After(n, actions).s.warnings| == n
    requires After(n, actions).s.states[d] == Stage(n, actions, d)
    requires After(n, actions).s.warnings[d] == TimesCounted(n, actions, d)
    requires Inv(After(n, actions))
    requires ExitedAfter(n, actions, d) ==> EnteredAfter(n, actions, d)
    requires EnteredAfter(n, actions, d) ==> Penalised(n, actions, d)
    ensures var c := After(n, actions + [a]);
      && |c.s.states| == |c.s.warnings| == n
      && c.s.states[d] == Stage(n, actions + [a], d)
      && c.s.warnings[d] == TimesCounted(n, actions + [a], d)
  {
    var c := After(n, actions);
    RunSnoc(Init(n), actions, a);
    PrefixesSnoc(actions, a);
    PenalisedSnoc(n, actions, a, d);
    EnteredSnoc(n, actions, a, d);
    ExitedSnoc(n, actions, a, d);
    hide Run, Step, Penalised, EnteredAfter, ExitedAfter, Inv;
    OneDriverMoves(c, a, d);
  }

  lemma {:induction false} StageRun(n: nat, actions: seq<Action>, d: nat)
    requires d < n
    ensures var c := After(n, actions);
      && |c.s.states| == |c.s.warnings| == n
      && c.s.states[d] == Stage(n, actions, d)
      && c.s.warnings[d] == TimesCounted(n, actions, d)
    ensures ExitedAfter(n, actions, d) ==> EnteredAfter(n, actions, d)
    ensures EnteredAfter(n, actions, d) ==> Penalised(n, actions, d)
    decreases |actions|
  {
    if actions != [] {
      var front, a := actions[..|actions| - 1], actions[|actions| - 1];
      assert actions == front + [a];
      StageRun(n, front, d);
      InitInv(n);
      RunInv(Init(n), front);
      hide Inv, Run, Step, Stage, TimesCounted;
      StageStep(n, front, a, d);
      PenalisedSnoc(n, front, a, d);
      EnteredSnoc(n, front, a, d);
      ExitedSnoc(n, front, a, d);
      hide Penalised, EnteredAfter, ExitedAfter;
    }
  }

  /** In every run of any number of threads, a driver has as many warnings as threads have counted for it; it has served
      its penalty exactly if the exchange for its third warning, a later pit entry and a still later pit exit have
      happened; it is serving exactly if the first two have, but not all three; and it has one pending exactly if only
      the first has. */
  lemma StagesFollowActions(n: nat, actions: seq<Action>, d: nat)
    requires d < n
    ensures var s := After(n, actions).s;
      && |s.states| == |s.warnings| == n
      && s.warnings[d] == TimesCounted(n, actions, d)
      && (s.states[d] == SERVED <==> ExitedAfter(n, actions, d))
      && (s.states[d] == SERVING <==> EnteredAfter(n, actions, d) && !ExitedAfter(n, actions, d))
      && (s.states[d] == PENDING <==> Penalised(n, actions, d) && !EnteredAfter(n, actions, d))
  {
    StageRun(n, actions, d);
    hide Penalised, EnteredAfter, ExitedAfter, Run;
  }
}
