/**
 What the enforcer ends up with, in terms of the events it has handled and the pit calls made, and of nothing else: who
 is warned how often, who is announced with which event, and who stands where with a penalty.
 */
module PenaltyLaws {
  import opened RaceTypes
  import opened PenaltySteps
  import opened PenaltyBatches
  import Q = PenaltyQueueSteps

  // ---------------------------------------------------------------- warnings and announcements

  /** How many of the events are track-limits warnings of driver d. */
  function CountOf(events: seq<Event>, d: int): nat {
    if events == [] then 0
    else
      var front, e := CountOf(events[..|events| - 1], d), events[|events| - 1];
      if e.kind == TRACK_LIMITS && e.driver == d then front + 1 else front
  }

  /** The k-th event is the third warning of a driver in the table of n. */
  predicate IsThird(events: seq<Event>, k: nat, n: nat)
    requires k < |events|
  {
    events[k].kind == TRACK_LIMITS && 0 <= events[k].driver < n && CountOf(events[..k], events[k].driver) == 2
  }

  /** Where the third warnings are, in order. */
  ghost predicate ListsThirds(thirds: seq<nat>, events: seq<Event>, n: nat) {
    && (forall i :: 0 <= i < |thirds| ==> thirds[i] < |events| && IsThird(events, thirds[i], n))
    && (forall i, j :: 0 <= i < j < |thirds| ==> thirds[i] < thirds[j])
    && (forall k :: 0 <= k < |events| && IsThird(events, k, n) ==> k in thirds)
  }

  /** The i-th announcement names the driver and the lap of the event at the i-th place. */
  predicate Names(issued: seq<Event>, events: seq<Event>, places: seq<nat>) {
    && |issued| == |places|
    && forall i :: 0 <= i < |issued| ==>
         && places[i] < |events|
         && issued[i] == Event(PENALTY_ISSUED, events[places[i]].driver, events[places[i]].lap)
  }

  /** One announcement for each third warning, in order, naming its driver and lap. */
  ghost predicate AnnouncesThirds(issued: seq<Event>, events: seq<Event>, n: nat) {
    exists thirds: seq<nat> :: ListsThirds(thirds, events, n) && Names(issued, events, thirds)
  }

  /** Driver d's counter and pit penalty are what its warnings say, and it has no penalty before the third. */
  predicate CountsOk(f: Enforcer, events: seq<Event>, d: nat)
    requires SameSizes(f, |f.warnings|) && d < |f.warnings|
  {
    && f.warnings[d] == CountOf(events, d)
    && f.extra[d] == (if CountOf(events, d) >= 3 then 3 else 0)
    && (f.states[d] != NONE ==> CountOf(events, d) >= 3)
  }

  ghost predicate Lawful(f: Enforcer, issued: seq<Event>, handled: seq<Event>, n: nat) {
    && SameSizes(f, n)
    && AnnouncesThirds(issued, handled, n)
    && (forall d {:trigger CountsOk(f, handled, d)} :: 0 <= d < n ==> CountsOk(f, handled, d))
  }

  lemma CountSnoc(events: seq<Event>, e: Event, d: int)
    ensures CountOf(events + [e], d) == CountOf(events, d) + (if e.kind == TRACK_LIMITS && e.driver == d then 1 else 0)
  {
    assert (events + [e])[..|events|] == events;
  }

  lemma IsThirdPrefix(events: seq<Event>, e: Event, j: nat, n: nat)
    requires j < |events|
    ensures IsThird(events + [e], j, n) <==> IsThird(events, j, n)
  {
    assert (events + [e])[..j] == events[..j];
  }

  lemma ListsSnoc(thirds: seq<nat>, events: seq<Event>, e: Event, n: nat)
    requires ListsThirds(thirds, events, n)
    ensures ListsThirds(thirds + (if IsThird(events + [e], |events|, n) then [|events|] else []), events + [e], n)
  {
    var all, k := events + [e], |events|;
    var more := thirds + (if IsThird(all, k, n) then [k] else []);
    forall j | 0 <= j < k ensures IsThird(all, j, n) <==> IsThird(events, j, n) {
      IsThirdPrefix(events, e, j, n);
    }
    hide IsThird;
    forall j | 0 <= j < |all| && IsThird(all, j, n) ensures j in more {
      if j < k {
        assert j in thirds;
      } else {
        assert more[|thirds|] == k;
      }
    }
  }

  lemma ThirdsSnoc(issued: seq<Event>, events: seq<Event>, e: Event, n: nat)
    requires AnnouncesThirds(issued, events, n)
    ensures AnnouncesThirds(
              issued + (if e.kind == TRACK_LIMITS && 0 <= e.driver < n && CountOf(events, e.driver) == 2
                        then [Event(PENALTY_ISSUED, e.driver, e.lap)] else []),
              events + [e], n)
  {
    var thirds: seq<nat> :| ListsThirds(thirds, events, n) && Names(issued, events, thirds);
    var all, k := events + [e], |events|;
    assert all[..k] == events;
    ListsSnoc(thirds, events, e, n);
    assert IsThird(all, k, n) <==> e.kind == TRACK_LIMITS && 0 <= e.driver < n && CountOf(events, e.driver) == 2;
    NamesSnoc(issued, events, thirds, e);
    hide CountOf, ListsThirds, IsThird, Names;
    if !IsThird(all, k, n) {
      assert issued + [] == issued && thirds + [] == thirds;
    }
  }

  lemma NamesSnoc(issued: seq<Event>, events: seq<Event>, places: seq<nat>, e: Event)
    requires Names(issued, events, places)
    ensures Names(issued, events + [e], places)
    ensures Names(issued + [Event(PENALTY_ISSUED, e.driver, e.lap)], events + [e], places + [|events|])
  {
  }

  /** Processing an event is lawful. */
  lemma LawfulOne(f: Enforcer, issued: seq<Event>, handled: seq<Event>, n: nat, e: Event)
    requires Lawful(f, issued, handled, n)
    ensures var r := ProcessOne(f, e); Lawful(r.0, issued + r.1, handled + [e], n)
  {
    var r := ProcessOne(f, e);
    var d := DriverIndexOf(e.driver, n);
    if d >= 0 {
      assert CountsOk(f, handled, d);
    }
    ThirdsSnoc(issued, handled, e, n);
    hide AnnouncesThirds, CountOf;
    forall c | 0 <= c < n ensures CountsOk(r.0, handled + [e], c) {
      assert CountsOk(f, handled, c);
      CountSnoc(handled, e, c);
    }
  }

  lemma {:induction false} LawfulAll(f: Enforcer, issued: seq<Event>, handled: seq<Event>, n: nat, batch: seq<Event>)
    requires Lawful(f, issued, handled, n)
    ensures var r := ProcessAll(f, batch); Lawful(r.0, issued + r.1, handled + batch, n)
  {
    assert SameSizes(f, n);
    if batch == [] {
      assert issued + [] == issued && handled + batch == handled;
    } else {
      var front, e := batch[..|batch| - 1], batch[|batch| - 1];
      ProcessAllSnoc(f, front, e);
      assert batch == front + [e];
      hide Lawful, ProcessOne, ProcessAll;
      LawfulAll(f, issued, handled, n, front);
      var mid := ProcessAll(f, front);
      var last := ProcessOne(mid.0, e);
      LawfulOne(mid.0, issued + mid.1, handled + front, n, e);
      assert handled + batch == (handled + front) + [e];
      assert issued + (mid.1 + last.1) == (issued + mid.1) + last.1;
    }
  }

  /** Pit calls change neither counters nor announcements, and give no penalty to anybody without one. */
  lemma LawfulPits(f: Enforcer, issued: seq<Event>, handled: seq<Event>, n: nat, driver: int, enter: bool)
    requires Lawful(f, issued, handled, n)
    ensures var states := if enter then Shift(f.states, driver, PENDING, SERVING)
                          else Shift(f.states, driver, SERVING, SERVED);
      Lawful(f.(states := states), issued, handled, n)
  {
    hide AnnouncesThirds, CountOf;
    var states := if enter then Shift(f.states, driver, PENDING, SERVING) else Shift(f.states, driver, SERVING, SERVED);
    forall d | 0 <= d < n ensures CountsOk(f.(states := states), handled, d) {
      assert CountsOk(f, handled, d);
    }
  }

  lemma LawfulInit(n: nat)
    ensures Lawful(PenaltyBatches.Init(n).f, [], [], n)
  {
    assert ListsThirds([], [], n);
  }

  lemma {:induction false} LawfulBatches(n: nat, ops: seq<Op>)
    ensures var w := PenaltyBatches.Run(PenaltyBatches.Init(n), ops); Lawful(w.f, w.issued, w.handled, n)
    decreases |ops|
  {
    if ops == [] {
      LawfulInit(n);
    } else {
      LawfulBatches(n, ops[..|ops| - 1]);
      var w := PenaltyBatches.Run(PenaltyBatches.Init(n), ops[..|ops| - 1]);
      hide Lawful, ProcessAll, TrackOnly;
      match ops[|ops| - 1]
      case Arrive(e) =>
      case Process(visible) =>
        LawfulAll(w.f, w.issued, w.handled, n, w.queue[..if visible < |w.queue| then visible else |w.queue|]);
      case EnterPits(driver) => LawfulPits(w.f, w.issued, w.handled, n, driver, true);
      case ExitPits(driver) => LawfulPits(w.f, w.issued, w.handled, n, driver, false);
    }
  }

  lemma LawfulQueueStep<A>(w: Q.System<A>, a: Q.Action<A>, n: nat)
    requires Lawful(w.f, w.issued, w.handled, n)
    ensures var v := Q.Step(w, a); Lawful(v.f, v.issued, v.handled, n)
  {
    assert SameSizes(w.f, n);
    hide Lawful, ProcessOne;
    match a
    case Process =>
      if w.place.Processing? && w.place.todo != [] {
        LawfulOne(w.f, w.issued, w.handled, n, w.place.todo[0]);
      }
    case EnterPits(driver) => LawfulPits(w.f, w.issued, w.handled, n, driver, true);
    case ExitPits(driver) => LawfulPits(w.f, w.issued, w.handled, n, driver, false);
    case _ =>
  }

  lemma {:induction false} LawfulQueue<A>(w: Q.System<A>, actions: seq<Q.Action<A>>, n: nat)
    requires SameSizes(w.f, n) && Lawful(w.f, w.issued, w.handled, n)
    ensures var v := Q.Run(w, actions); Lawful(v.f, v.issued, v.handled, n)
    decreases |actions|
  {
    hide Lawful, Q.Step;
    if actions != [] {
      LawfulQueueStep(w, actions[0], n);
      LawfulQueue(Q.Step(w, actions[0]), actions[1..], n);
    }
  }

  // ---------------------------------------------------------------- one announcement per driver

  lemma {:induction false} CountGrows(events: seq<Event>, k: nat, d: int)
    requires k <= |events|
    ensures CountOf(events[..k], d) <= CountOf(events, d)
    decreases |events|
  {
    if k == |events| {
      assert events[..k] == events;
    } else {
      CountGrows(events[..|events| - 1], k, d);
      assert events[..|events| - 1][..k] == events[..k];
    }
  }

  /** A third warning counts towards any longer prefix. */
  lemma ThirdCounts(events: seq<Event>, k: nat, m: nat, n: nat)
    requires k < m <= |events| && IsThird(events, k, n)
    ensures CountOf(events[..m], events[k].driver) >= 3
  {
    assert events[..k + 1] == events[..k] + [events[k]];
    CountSnoc(events[..k], events[k], events[k].driver);
    CountGrows(events[..m], k + 1, events[k].driver);
    assert events[..m][..k + 1] == events[..k + 1];
  }

  lemma {:induction false} ThirdExists(events: seq<Event>, d: nat, n: nat) returns (k: nat)
    requires d < n && CountOf(events, d) >= 3
    ensures k < |events| && events[k].driver == d && IsThird(events, k, n)
  {
    var last := |events| - 1;
    var front := events[..last];
    if CountOf(front, d) >= 3 {
      k := ThirdExists(front, d, n);
      assert front[..k] == events[..k];
    } else {
      k := last;
    }
  }

  lemma ThirdOnce(events: seq<Event>, k: nat, m: nat, n: nat)
    requires k < m < |events| && IsThird(events, k, n) && IsThird(events, m, n)
    ensures events[k].driver != events[m].driver
  {
    ThirdCounts(events, k, m, n);
  }

  lemma NobodyTwice(issued: seq<Event>, events: seq<Event>, n: nat)
    requires AnnouncesThirds(issued, events, n)
    ensures forall i, j :: 0 <= i < j < |issued| ==> issued[i].driver != issued[j].driver
  {
    var thirds: seq<nat> :| ListsThirds(thirds, events, n) && Names(issued, events, thirds);
    hide CountOf, IsThird;
    forall i, j | 0 <= i < j < |issued| ensures issued[i].driver != issued[j].driver {
      ThirdOnce(events, thirds[i], thirds[j], n);
    }
  }

  /** Every driver in the table with three warnings is announced, and nobody else is. */
  lemma WarnedAnnounced(issued: seq<Event>, events: seq<Event>, n: nat, d: nat)
    requires AnnouncesThirds(issued, events, n) && d < n
    ensures CountOf(events, d) >= 3 <==> exists i :: 0 <= i < |issued| && issued[i].driver == d
  {
    var thirds: seq<nat> :| ListsThirds(thirds, events, n) && Names(issued, events, thirds);
    assert events[..|events|] == events;
    hide CountOf, IsThird;
    if CountOf(events, d) >= 3 {
      var k := ThirdExists(events, d, n);
      assert k in thirds;
      var i :| 0 <= i < |thirds| && thirds[i] == k;
      assert issued[i].driver == d;
    } else if i :| 0 <= i < |issued| && issued[i].driver == d {
      ThirdCounts(events, thirds[i], |events|, n);
    }
  }

  /** In every schedule of batches: the announcements are, in order, one per third warning handled, with its driver
      and lap; a driver is announced once if it has three warnings and otherwise not at all; its counter is the number
      of its warnings, and from the third on it owes three pit ticks. */
  lemma BatchesAnnounceThirds(n: nat, ops: seq<Op>, d: nat)
    requires d < n
    ensures var w := PenaltyBatches.Run(PenaltyBatches.Init(n), ops);
      && AnnouncesThirds(w.issued, w.handled, n)
      && (CountOf(w.handled, d) >= 3 <==> exists i :: 0 <= i < |w.issued| && w.issued[i].driver == d)
      && (forall i, j :: 0 <= i < j < |w.issued| ==> w.issued[i].driver != w.issued[j].driver)
      && |w.f.warnings| == |w.f.extra| == n
      && w.f.warnings[d] == CountOf(w.handled, d)
      && w.f.extra[d] == (if CountOf(w.handled, d) >= 3 then 3 else 0)
  {
    LawfulBatches(n, ops);
    var w := PenaltyBatches.Run(PenaltyBatches.Init(n), ops);
    NobodyTwice(w.issued, w.handled, n);
    WarnedAnnounced(w.issued, w.handled, n, d);
    assert CountsOk(w.f, w.handled, d);
    hide AnnouncesThirds, CountOf, PenaltyBatches.Run;
  }

  /** The same with any number of other threads pushing at any time, in terms of the events processed so far. */
  lemma QueueAnnouncesThirds<A>(n: nat, sentinel: A, me: nat, actions: seq<Q.Action<A>>, d: nat)
    requires d < n
    ensures var w := Q.After(n, sentinel, me, actions);
      && AnnouncesThirds(w.issued, w.handled, n)
      && (CountOf(w.handled, d) >= 3 <==> exists i :: 0 <= i < |w.issued| && w.issued[i].driver == d)
      && (forall i, j :: 0 <= i < j < |w.issued| ==> w.issued[i].driver != w.issued[j].driver)
      && |w.f.warnings| == |w.f.extra| == n
      && w.f.warnings[d] == CountOf(w.handled, d)
      && w.f.extra[d] == (if CountOf(w.handled, d) >= 3 then 3 else 0)
  {
    LawfulInit(n);
    LawfulQueue(Q.Start(n, sentinel, me), actions, n);
    var w := Q.After(n, sentinel, me, actions);
    NobodyTwice(w.issued, w.handled, n);
    WarnedAnnounced(w.issued, w.handled, n, d);
    assert CountsOk(w.f, w.handled, d);
    hide AnnouncesThirds, CountOf, Q.Run;
  }

  // ---------------------------------------------------------------- where a driver stands

  /** The k-th entry of an enforcer's log is driver d's third warning. */
  predicate ThirdAt(fed: seq<Fed>, k: nat, d: nat)
    requires k < |fed|
  {
    fed[k].Warned? && fed[k].e.driver == d && CountOf(Warnings(fed[..k]), d) == 2
  }

  ghost predicate Penalised(fed: seq<Fed>, d: nat) {
    exists i :: 0 <= i < |fed| && ThirdAt(fed, i, d)
  }

  /** A pit entry with the third warning before it. */
  ghost predicate EnteredAfter(fed: seq<Fed>, d: nat) {
    exists j :: 0 <= j < |fed| && fed[j] == Entered(d) && Penalised(fed[..j], d)
  }

  /** A pit exit with such a pit entry before it. */
  ghost predicate ExitedAfter(fed: seq<Fed>, d: nat) {
    exists k :: 0 <= k < |fed| && fed[k] == Exited(d) && EnteredAfter(fed[..k], d)
  }

  ghost function Stage(fed: seq<Fed>, d: nat): PenaltyState {
    if ExitedAfter(fed, d) then SERVED
    else if EnteredAfter(fed, d) then SERVING
    else if Penalised(fed, d) then PENDING
    else NONE
  }

  predicate TrackLimitsOnly(fed: seq<Fed>) {
    forall k :: 0 <= k < |fed| && fed[k].Warned? ==> fed[k].e.kind == TRACK_LIMITS
  }

  lemma ThirdAtSnoc(fed: seq<Fed>, x: Fed, i: nat, d: nat)
    requires i < |fed|
    ensures ThirdAt(fed + [x], i, d) <==> ThirdAt(fed, i, d)
  {
    assert (fed + [x])[..i] == fed[..i];
  }

  lemma PenalisedSnoc(fed: seq<Fed>, x: Fed, d: nat)
    ensures Penalised(fed + [x], d) <==>
      Penalised(fed, d) || (x.Warned? && x.e.driver == d && CountOf(Warnings(fed), d) == 2)
  {
    var all, k := fed + [x], |fed|;
    assert all[..k] == fed;
    forall i | 0 <= i < k ensures ThirdAt(all, i, d) <==> ThirdAt(fed, i, d) {
      ThirdAtSnoc(fed, x, i, d);
    }
    assert ThirdAt(all, k, d) <==> x.Warned? && x.e.driver == d && CountOf(Warnings(fed), d) == 2;
    hide ThirdAt;
  }

  lemma EnteredSnoc(fed: seq<Fed>, x: Fed, d: nat)
    ensures EnteredAfter(fed + [x], d) <==> EnteredAfter(fed, d) || (Penalised(fed, d) && x == Entered(d))
  {
    var all, n := fed + [x], |fed|;
    hide Penalised;
    assert all[..n] == fed;
    forall j | 0 <= j < n ensures all[j] == fed[j] && all[..j] == fed[..j] {
    }
    if x == Entered(d) && Penalised(fed, d) {
      assert all[n] == Entered(d);
    }
  }

  lemma ExitedSnoc(fed: seq<Fed>, x: Fed, d: nat)
    ensures ExitedAfter(fed + [x], d) <==> ExitedAfter(fed, d) || (EnteredAfter(fed, d) && x == Exited(d))
  {
    var all, n := fed + [x], |fed|;
    hide EnteredAfter;
    assert all[..n] == fed;
    forall j | 0 <= j < n ensures all[j] == fed[j] && all[..j] == fed[..j] {
    }
    if x == Exited(d) && EnteredAfter(fed, d) {
      assert all[n] == Exited(d);
    }
  }

  /** Without three warnings there is no third one. */
  lemma {:induction false} PenalisedCount(fed: seq<Fed>, d: nat)
    requires TrackLimitsOnly(fed)
    ensures Penalised(fed, d) <==> CountOf(Warnings(fed), d) >= 3
  {
    if fed != [] {
      var front, x := fed[..|fed| - 1], fed[|fed| - 1];
      assert fed == front + [x];
      PenalisedCount(front, d);
      PenalisedSnoc(front, x, d);
      if x.Warned? {
        WarningsSnoc(front, x.e);
        CountSnoc(Warnings(front), x.e, d);
      } else {
        assert Warnings(fed) == Warnings(front);
      }
      hide Penalised, CountOf;
    }
  }

  lemma {:induction false} PenalisedGrows(fed: seq<Fed>, k: nat, d: nat)
    requires k <= |fed| && Penalised(fed[..k], d)
    ensures Penalised(fed, d)
  {
    var i :| 0 <= i < k && ThirdAt(fed[..k], i, d);
    assert fed[..k][..i] == fed[..i];
    assert ThirdAt(fed, i, d);
  }

  lemma {:induction false} EnteredGrows(fed: seq<Fed>, k: nat, d: nat)
    requires k <= |fed| && EnteredAfter(fed[..k], d)
    ensures EnteredAfter(fed, d)
  {
    hide Penalised;
    var j :| 0 <= j < k && fed[..k][j] == Entered(d) && Penalised(fed[..k][..j], d);
    assert fed[..k][..j] == fed[..j];
    assert fed[j] == Entered(d);
  }

  /** Entry follows a third warning, and exit an entry. */
  lemma StagesNest(fed: seq<Fed>, d: nat)
    ensures ExitedAfter(fed, d) ==> EnteredAfter(fed, d)
    ensures EnteredAfter(fed, d) ==> Penalised(fed, d)
  {
    hide Penalised;
    if EnteredAfter(fed, d) {
      var j :| 0 <= j < |fed| && fed[j] == Entered(d) && Penalised(fed[..j], d);
      PenalisedGrows(fed, j, d);
    }
    hide EnteredAfter;
    if ExitedAfter(fed, d) {
      var k :| 0 <= k < |fed| && fed[k] == Exited(d) && EnteredAfter(fed[..k], d);
      EnteredGrows(fed, k, d);
    }
  }

  lemma StageWarned(f: Enforcer, fed: seq<Fed>, e: Event, d: nat)
    requires SameSizes(f, |f.warnings|) && d < |f.warnings| && TrackLimitsOnly(fed) && e.kind == TRACK_LIMITS
    requires f.warnings[d] == CountOf(Warnings(fed), d) && f.states[d] == Stage(fed, d)
    ensures var g, more := ProcessOne(f, e).0, fed + [Warned(e)];
      g.warnings[d] == CountOf(Warnings(more), d) && g.states[d] == Stage(more, d)
  {
    hide Penalised, EnteredAfter, ExitedAfter, CountOf, Warnings, TrackLimitsOnly;
    var x := Warned(e);
    PenalisedCount(fed, d);
    PenalisedSnoc(fed, x, d);
    EnteredSnoc(fed, x, d);
    ExitedSnoc(fed, x, d);
    StagesNest(fed, d);
    WarningsSnoc(fed, e);
    CountSnoc(Warnings(fed), e, d);
  }

  lemma StagePits(f: Enforcer, fed: seq<Fed>, driver: int, enter: bool, d: nat)
    requires SameSizes(f, |f.warnings|) && d < |f.warnings| && f.states[d] == Stage(fed, d)
    ensures enter ==> Shift(f.states, driver, PENDING, SERVING)[d] == Stage(fed + [Entered(driver)], d)
    ensures !enter ==> Shift(f.states, driver, SERVING, SERVED)[d] == Stage(fed + [Exited(driver)], d)
  {
    hide Penalised, EnteredAfter, ExitedAfter;
    var x := if enter then Entered(driver) else Exited(driver);
    PenalisedSnoc(fed, x, d);
    EnteredSnoc(fed, x, d);
    ExitedSnoc(fed, x, d);
    StagesNest(fed, d);
  }

  /** Feeding an enforcer takes every driver to the stage its log says. */
  lemma {:induction false} FeedStage(n: nat, fed: seq<Fed>, d: nat)
    requires d < n && TrackLimitsOnly(fed)
    ensures var f := Feed(n, fed).0;
      f.warnings[d] == CountOf(Warnings(fed), d) && f.states[d] == Stage(fed, d)
  {
    if fed == [] {
      assert !Penalised(fed, d) && !EnteredAfter(fed, d) && !ExitedAfter(fed, d);
    } else {
      var front, x := fed[..|fed| - 1], fed[|fed| - 1];
      assert fed == front + [x];
      FeedStage(n, front, d);
      var f := Feed(n, front).0;
      match x
      case Warned(e) =>
        StageWarned(f, front, e, d);
        hide Stage, CountOf, ProcessOne, Warnings;
      case Entered(driver) =>
        StagePits(f, front, driver, true, d);
        hide Stage, CountOf, Shift;
      case Exited(driver) =>
        StagePits(f, front, driver, false, d);
        hide Stage, CountOf, Shift;
    }
  }

  lemma {:induction false} TrackOnlyKind(events: seq<Event>)
    ensures forall k :: 0 <= k < |TrackOnly(events)| ==> TrackOnly(events)[k].kind == TRACK_LIMITS
  {
    if events != [] {
      TrackOnlyKind(events[..|events| - 1]);
    }
  }

  lemma {:induction false} BatchLog(n: nat, ops: seq<Op>)
    ensures var w := PenaltyBatches.Run(PenaltyBatches.Init(n), ops);
      TrackLimitsOnly(w.fed) && Warnings(w.fed) == TrackOnly(w.handled)
    decreases |ops|
  {
    if ops != [] {
      BatchLog(n, ops[..|ops| - 1]);
      var w := PenaltyBatches.Run(PenaltyBatches.Init(n), ops[..|ops| - 1]);
      hide ProcessAll, TrackOnly, Warnings;
      match ops[|ops| - 1]
      case Arrive(e) =>
      case Process(visible) =>
        var batch := w.queue[..if visible < |w.queue| then visible else |w.queue|];
        TrackOnlyKind(batch);
        TrackOnlyConcat(w.handled, batch);
        WarningsOfEvents(w.fed, TrackOnly(batch));
      case EnterPits(driver) => NoWarning(w.fed, Entered(driver));
      case ExitPits(driver) => NoWarning(w.fed, Exited(driver));
    }
  }

  lemma NoWarning(fed: seq<Fed>, x: Fed)
    ensures !x.Warned? ==> Warnings(fed + [x]) == Warnings(fed)
  {
    assert (fed + [x])[..|fed|] == fed;
  }

  lemma {:induction false} QueueLog<A>(w: Q.System<A>, actions: seq<Q.Action<A>>)
    requires SameSizes(w.f, |w.f.warnings|) && TrackLimitsOnly(w.fed)
    ensures TrackLimitsOnly(Q.Run(w, actions).fed)
    decreases |actions|
  {
    if actions != [] {
      QueueLogStep(w, actions[0]);
      hide Q.Step, TrackLimitsOnly;
      QueueLog(Q.Step(w, actions[0]), actions[1..]);
    }
  }

  lemma QueueLogStep<A>(w: Q.System<A>, a: Q.Action<A>)
    requires SameSizes(w.f, |w.f.warnings|) && TrackLimitsOnly(w.fed)
    ensures TrackLimitsOnly(Q.Step(w, a).fed)
  {
    hide ProcessOne, Shift;
  }

  /** In every schedule of batches and pit calls, a driver has served its penalty exactly if its third warning, a later
      pit entry and a still later pit exit have been processed; it is serving it exactly if the first two have, but not
      all three; and it has one pending exactly if only the first has. */
  lemma BatchesStage(n: nat, ops: seq<Op>, d: nat)
    requires d < n
    ensures var w := PenaltyBatches.Run(PenaltyBatches.Init(n), ops);
      && |w.f.states| == n
      && Warnings(w.fed) == TrackOnly(w.handled)
      && (w.f.states[d] == SERVED <==> ExitedAfter(w.fed, d))
      && (w.f.states[d] == SERVING <==> EnteredAfter(w.fed, d) && !ExitedAfter(w.fed, d))
      && (w.f.states[d] == PENDING <==> Penalised(w.fed, d) && !EnteredAfter(w.fed, d))
  {
    var w := PenaltyBatches.Run(PenaltyBatches.Init(n), ops);
    RunInStep(PenaltyBatches.Init(n), ops, n);
    BatchLog(n, ops);
    FeedStage(n, w.fed, d);
    StagesNest(w.fed, d);
    hide Penalised, EnteredAfter, ExitedAfter, PenaltyBatches.Run, Feed;
  }

  /** The same with any number of other threads pushing at any time. */
  lemma QueueStage<A>(n: nat, sentinel: A, me: nat, actions: seq<Q.Action<A>>, d: nat)
    requires d < n
    ensures var w := Q.After(n, sentinel, me, actions);
      && |w.f.states| == n
      && Warnings(w.fed) == TrackOnly(w.handled)
      && (w.f.states[d] == SERVED <==> ExitedAfter(w.fed, d))
      && (w.f.states[d] == SERVING <==> EnteredAfter(w.fed, d) && !ExitedAfter(w.fed, d))
      && (w.f.states[d] == PENDING <==> Penalised(w.fed, d) && !EnteredAfter(w.fed, d))
  {
    var w := Q.After(n, sentinel, me, actions);
    Q.ProcessedInExchangeOrder(n, sentinel, me, actions);
    QueueLog(Q.Start(n, sentinel, me), actions);
    FeedStage(n, w.fed, d);
    StagesNest(w.fed, d);
    hide Penalised, EnteredAfter, ExitedAfter, Q.Run, Feed, Warnings, TrackOnly;
  }
}
