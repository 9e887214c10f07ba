/**
 Penalty processing in batches drained from the shared queue, into which the processing itself pushes.
 */
module PenaltyBatches {
  import opened RaceTypes
  import opened PenaltySteps

  datatype Kind =
    | TRACK_LIMITS | PENALTY_ISSUED | PIT_ENTRY | PIT_EXIT | WEATHER_CHANGE | SAFETY_CAR | FASTEST_LAP | RADIO_MESSAGE

  datatype Event = Event(kind: Kind, driver: int, lap: int)

  const EXTRA_PIT_TICKS: int := 3

  datatype Enforcer = Enforcer(warnings: seq<nat>, states: seq<PenaltyState>, extra: seq<int>)

  predicate SameSizes(f: Enforcer, n: nat) {
    |f.warnings| == |f.states| == |f.extra| == n
  }

  /** The body of the loop over a batch: the new state and the announcements pushed. */
  function ProcessOne(f: Enforcer, e: Event): (r: (Enforcer, seq<Event>))
    requires SameSizes(f, |f.warnings|)
    ensures SameSizes(r.0, |f.warnings|)
  {
    var d := DriverIndexOf(e.driver, |f.warnings|);
    if e.kind != TRACK_LIMITS || d < 0 then (f, [])
    else
      var count := f.warnings[d] + 1;
      var g := f.(warnings := f.warnings[d := count]);
      if count == WARNINGS_FOR_PENALTY && f.states[d] == NONE
      then (g.(states := g.states[d := PENDING], extra := g.extra[d := EXTRA_PIT_TICKS]),
            [Event(PENALTY_ISSUED, e.driver, e.lap)])
      else (g, [])
  }

  function ProcessAll(f: Enforcer, batch: seq<Event>): (r: (Enforcer, seq<Event>))
    requires SameSizes(f, |f.warnings|)
    ensures SameSizes(r.0, |f.warnings|)
  {
    if batch == [] then (f, [])
    else
      var front := ProcessAll(f, batch[..|batch| - 1]);
      var last := ProcessOne(front.0, batch[|batch| - 1]);
      (last.0, front.1 + last.1)
  }

  lemma ProcessAllSnoc(f: Enforcer, batch: seq<Event>, e: Event)
    requires SameSizes(f, |f.warnings|)
    ensures var front := ProcessAll(f, batch); var last := ProcessOne(front.0, e);
      ProcessAll(f, batch + [e]) == (last.0, front.1 + last.1)
  {
    assert (batch + [e])[..|batch|] == batch;
  }

  /** Processing an event alone is what a thread of `PenaltySteps` does when nobody else moves. */
  lemma ProcessOneIsThreadSteps(s: State, x: Aux, extra: seq<int>, e: Event, t: nat)
    requires |s.warnings| == |s.states| == |extra| && Pc(s, t) == Idle && e.kind == TRACK_LIMITS
    ensures var c1 := PenaltySteps.Step(Config(s, x), Count(t, e.driver));
      var c2 := PenaltySteps.Step(c1, Cas(t));
      var c3 := PenaltySteps.Step(c2, Push(t));
      var r := ProcessOne(Enforcer(s.warnings, s.states, extra), e);
      && c3.s.warnings == r.0.warnings && c3.s.states == r.0.states && Pc(c3.s, t) == Idle
      && (r.1 == [] || r.1 == [Event(PENALTY_ISSUED, e.driver, e.lap)])
      && c3.s.issued == s.issued + (if r.1 == [] then [] else [e.driver as nat])
  {
  }

  // ---------------------------------------------------------------- schedules

  /** What can happen to the enforcer and its queue.  `Process(visible)` is a call of `process_events` whose drain finds
      the first `visible` queued events linked: fewer than all of them if a push is in the middle. */
  datatype Op =
    | Arrive(e: Event)
    | Process(visible: nat)
    | EnterPits(driver: int)
    | ExitPits(driver: int)

  /** What an enforcer has been fed, in order, whatever the batches. */
  datatype Fed = Warned(e: Event) | Entered(driver: int) | Exited(driver: int)

  datatype World = World(
    f: Enforcer,
    queue: seq<Event>,
    handled: seq<Event>,            // every event processed so far, in order
    issued: seq<Event>,             // announcements pushed so far, in order
    fed: seq<Fed>)                  // track-limits events processed and pit calls made so far, in order

  function TrackOnly(events: seq<Event>): seq<Event> {
    if events == [] then []
    else
      var front, e := TrackOnly(events[..|events| - 1]), events[|events| - 1];
      if e.kind == TRACK_LIMITS then front + [e] else front
  }

  function AsFed(events: seq<Event>): (r: seq<Fed>)
    ensures |r| == |events| && forall k :: 0 <= k < |r| ==> r[k] == Warned(events[k])
  {
    seq(|events|, k requires 0 <= k < |events| => Warned(events[k]))
  }

  function Step(w: World, op: Op): (v: World)
    requires SameSizes(w.f, |w.f.warnings|)
    ensures SameSizes(v.f, |w.f.warnings|) && |v.f.warnings| == |w.f.warnings|
  {
    match op
    case Arrive(e) => w.(queue := w.queue + [e])
    case Process(visible) =>
      var n := if visible < |w.queue| then visible else |w.queue|;
      var batch := w.queue[..n];
      var r := ProcessAll(w.f, batch);
      w.(f := r.0, queue := w.queue[n..] + r.1, handled := w.handled + batch, issued := w.issued + r.1,
         fed := w.fed + AsFed(TrackOnly(batch)))
    case EnterPits(driver) =>
      w.(f := w.f.(states := Shift(w.f.states, driver, PENDING, SERVING)), fed := w.fed + [Entered(driver)])
    case ExitPits(driver) =>
      w.(f := w.f.(states := Shift(w.f.states, driver, SERVING, SERVED)), fed := w.fed + [Exited(driver)])
  }

  function Run(w: World, ops: seq<Op>): (v: World)
    requires SameSizes(w.f, |w.f.warnings|)
    ensures SameSizes(v.f, |w.f.warnings|) && |v.f.warnings| == |w.f.warnings|
    decreases |ops|
  {
    if ops == [] then w else Step(Run(w, ops[..|ops| - 1]), ops[|ops| - 1])
  }

  function Init(n: nat): World {
    World(Enforcer(seq(n, _ => 0), seq(n, _ => NONE), seq(n, _ => 0)), [], [], [], [])
  }

  // ---------------------------------------------------------------- independence of the batching

  /** Feeding one at a time: the reference the batches are measured against. */
  function Feed(n: nat, fed: seq<Fed>): (r: (Enforcer, seq<Event>))
    ensures SameSizes(r.0, n)
  {
    if fed == [] then (Init(n).f, [])
    else
      var front := Feed(n, fed[..|fed| - 1]);
      match fed[|fed| - 1]
      case Warned(e) =>
        var r := ProcessOne(front.0, e);
        (r.0, front.1 + r.1)
      case Entered(driver) => (front.0.(states := Shift(front.0.states, driver, PENDING, SERVING)), front.1)
      case Exited(driver) => (front.0.(states := Shift(front.0.states, driver, SERVING, SERVED)), front.1)
  }

  /** The enforcer is where feeding one at a time would have it, and so is the list of announcements. */
  ghost predicate InStep(w: World, n: nat) {
    (w.f, w.issued) == Feed(n, w.fed)
  }

  lemma FeedSnoc(n: nat, fed: seq<Fed>, x: Fed)
    ensures x.Warned? ==>
      var before := Feed(n, fed); var r := ProcessOne(before.0, x.e);
      Feed(n, fed + [x]) == (r.0, before.1 + r.1)
  {
    assert (fed + [x])[..|fed|] == fed;
  }

  lemma IgnoredEvent(f: Enforcer, e: Event)
    requires SameSizes(f, |f.warnings|) && e.kind != TRACK_LIMITS
    ensures ProcessOne(f, e) == (f, [])
  {
  }

  /** A whole batch is its track-limits events fed one at a time. */
  lemma {:induction false} BatchIsFed(n: nat, fed: seq<Fed>, batch: seq<Event>)
    ensures var before, after := Feed(n, fed), ProcessAll(Feed(n, fed).0, batch);
      Feed(n, fed + AsFed(TrackOnly(batch))) == (after.0, before.1 + after.1)
  {
    var before := Feed(n, fed);
    hide ProcessOne, Feed;
    if batch == [] {
      assert fed + AsFed(TrackOnly(batch)) == fed;
      assert before.1 + [] == before.1;
    } else {
      var front, e := batch[..|batch| - 1], batch[|batch| - 1];
      BatchIsFed(n, fed, front);
      var mid := ProcessAll(before.0, front);
      var r := ProcessOne(mid.0, e);
      if e.kind == TRACK_LIMITS {
        var more := fed + AsFed(TrackOnly(front));
        assert fed + AsFed(TrackOnly(batch)) == more + [Warned(e)];
        FeedSnoc(n, more, Warned(e));
        assert (before.1 + mid.1) + r.1 == before.1 + (mid.1 + r.1);
      } else {
        IgnoredEvent(mid.0, e);
        assert mid.1 + [] == mid.1;
      }
    }
  }

  lemma StepInStep(w: World, op: Op, n: nat)
    requires SameSizes(w.f, n) && InStep(w, n)
    ensures InStep(Step(w, op), n)
  {
    match op
    case Arrive(e) =>
    case Process(visible) =>
      var k := if visible < |w.queue| then visible else |w.queue|;
      BatchIsFed(n, w.fed, w.queue[..k]);
    case EnterPits(driver) => assert (w.fed + [Entered(driver)])[..|w.fed|] == w.fed;
    case ExitPits(driver) => assert (w.fed + [Exited(driver)])[..|w.fed|] == w.fed;
  }

  lemma {:induction false} RunInStep(w: World, ops: seq<Op>, n: nat)
    requires SameSizes(w.f, n) && InStep(w, n)
    ensures InStep(Run(w, ops), n)
    decreases |ops|
  {
    if ops != [] {
      RunInStep(w, ops[..|ops| - 1], n);
      StepInStep(Run(w, ops[..|ops| - 1]), ops[|ops| - 1], n);
    }
  }

  /** Two schedules that feed an enforcer the same track-limits events and pit calls in the same order leave the same
      warnings, states and announcements, however their calls of `process_events` cut the stream into batches. */
  lemma BatchingIndependent(n: nat, a: seq<Op>, b: seq<Op>)
    requires Run(Init(n), a).fed == Run(Init(n), b).fed
    ensures Run(Init(n), a).f == Run(Init(n), b).f
    ensures Run(Init(n), a).issued == Run(Init(n), b).issued
  {
    RunInStep(Init(n), a, n);
    RunInStep(Init(n), b, n);
  }

  // ---------------------------------------------------------------- nothing lost, nothing reordered

  /** Events other threads have pushed. */
  function Arrivals(ops: seq<Op>): seq<Event> {
    if ops == [] then []
    else
      var front, op := Arrivals(ops[..|ops| - 1]), ops[|ops| - 1];
      if op.Arrive? then front + [op.e] else front
  }

  /** The track-limits events among what an enforcer was fed. */
  function Warnings(fed: seq<Fed>): seq<Event> {
    if fed == [] then []
    else
      var front, x := Warnings(fed[..|fed| - 1]), fed[|fed| - 1];
      if x.Warned? then front + [x.e] else front
  }

  lemma {:induction false} TrackOnlyConcat(a: seq<Event>, b: seq<Event>)
    ensures TrackOnly(a + b) == TrackOnly(a) + TrackOnly(b)
  {
    if b == [] {
      assert a + b == a;
    } else {
      TrackOnlyConcat(a, b[..|b| - 1]);
      assert (a + b)[..|a + b| - 1] == a + b[..|b| - 1];
    }
  }

  lemma WarningsSnoc(fed: seq<Fed>, e: Event)
    ensures Warnings(fed + [Warned(e)]) == Warnings(fed) + [e]
  {
    assert (fed + [Warned(e)])[..|fed|] == fed;
  }

  lemma {:induction false} WarningsOfEvents(fed: seq<Fed>, events: seq<Event>)
    ensures Warnings(fed + AsFed(events)) == Warnings(fed) + events
  {
    hide Warnings;
    if events == [] {
      assert fed + AsFed(events) == fed;
      assert Warnings(fed) + events == Warnings(fed);
    } else {
      var front, e := events[..|events| - 1], events[|events| - 1];
      WarningsOfEvents(fed, front);
      WarningsSnoc(fed + AsFed(front), e);
      assert events == front + [e];
      assert AsFed(events) == AsFed(front) + [Warned(e)];
      assert fed + AsFed(events) == (fed + AsFed(front)) + [Warned(e)];
      assert Warnings(fed) + events == (Warnings(fed) + front) + [e];
    }
  }

  /** Announcements are not track-limits events. */
  lemma {:induction false} IssuedAreNotTrack(f: Enforcer, batch: seq<Event>)
    requires SameSizes(f, |f.warnings|)
    ensures TrackOnly(ProcessAll(f, batch).1) == []
  {
    if batch != [] {
      IssuedAreNotTrack(f, batch[..|batch| - 1]);
      var front := ProcessAll(f, batch[..|batch| - 1]);
      TrackOnlyConcat(front.1, ProcessOne(front.0, batch[|batch| - 1]).1);
    }
  }

  lemma ProcessKeepsStream(w: World, visible: nat)
    requires SameSizes(w.f, |w.f.warnings|)
    ensures var v := Step(w, Process(visible));
      Warnings(v.fed) + TrackOnly(v.queue) == Warnings(w.fed) + TrackOnly(w.queue)
  {
    hide ProcessAll, TrackOnly, Warnings;
    var n := if visible < |w.queue| then visible else |w.queue|;
    var batch, rest := w.queue[..n], w.queue[n..];
    var made := ProcessAll(w.f, batch).1;
    IssuedAreNotTrack(w.f, batch);
    TrackOnlyConcat(batch, rest);
    TrackOnlyConcat(rest, made);
    WarningsOfEvents(w.fed, TrackOnly(batch));
    assert batch + rest == w.queue;
    assert TrackOnly(rest) + [] == TrackOnly(rest);
  }

  lemma StepKeepsStream(w: World, op: Op)
    requires SameSizes(w.f, |w.f.warnings|)
    ensures var v := Step(w, op);
      Warnings(v.fed) + TrackOnly(v.queue)
      == Warnings(w.fed) + TrackOnly(w.queue) + (if op.Arrive? then TrackOnly([op.e]) else [])
  {
    match op
    case Arrive(e) => TrackOnlyConcat(w.queue, [e]);
    case Process(visible) => ProcessKeepsStream(w, visible);
    case EnterPits(driver) => assert (w.fed + [Entered(driver)])[..|w.fed|] == w.fed;
    case ExitPits(driver) => assert (w.fed + [Exited(driver)])[..|w.fed|] == w.fed;
  }

  /** In every schedule, the track-limits events processed so far are the oldest that arrived, in arrival order; the
      others are still queued, in arrival order. */
  lemma {:induction false} StreamKept(n: nat, ops: seq<Op>)
    ensures var w := Run(Init(n), ops);
      Warnings(w.fed) + TrackOnly(w.queue) == TrackOnly(Arrivals(ops))
    decreases |ops|
  {
    if ops != [] {
      var front, op := ops[..|ops| - 1], ops[|ops| - 1];
      StreamKept(n, front);
      StepKeepsStream(Run(Init(n), front), op);
      if op.Arrive? {
        TrackOnlyConcat(Arrivals(front), [op.e]);
      }
    }
  }

  /** Without pit calls, any two schedules of the same arrivals that have processed them all agree. */
  lemma SameArrivalsSameOutcome(n: nat, a: seq<Op>, b: seq<Op>)
    requires Arrivals(a) == Arrivals(b) && NoPits(a) && NoPits(b)
    requires TrackOnly(Run(Init(n), a).queue) == [] == TrackOnly(Run(Init(n), b).queue)
    ensures Run(Init(n), a).f == Run(Init(n), b).f
    ensures Run(Init(n), a).issued == Run(Init(n), b).issued
  {
    StreamKept(n, a);
    StreamKept(n, b);
    OnlyWarnings(n, a);
    OnlyWarnings(n, b);
    var wa, wb := Run(Init(n), a), Run(Init(n), b);
    assert Warnings(wa.fed) + [] == Warnings(wa.fed) && Warnings(wb.fed) + [] == Warnings(wb.fed);
    WarningsDecide(Run(Init(n), a).fed, Run(Init(n), b).fed);
    BatchingIndependent(n, a, b);
  }

  predicate NoPits(ops: seq<Op>) {
    forall k :: 0 <= k < |ops| ==> ops[k].Arrive? || ops[k].Process?
  }

  lemma {:induction false} OnlyWarnings(n: nat, ops: seq<Op>)
    requires NoPits(ops)
    ensures forall k :: 0 <= k < |Run(Init(n), ops).fed| ==> Run(Init(n), ops).fed[k].Warned?
    decreases |ops|
  {
    if ops != [] {
      OnlyWarnings(n, ops[..|ops| - 1]);
    }
  }

  lemma {:induction false} WarningsLength(a: seq<Fed>)
    requires forall k :: 0 <= k < |a| ==> a[k].Warned?
    ensures |Warnings(a)| == |a| && forall k :: 0 <= k < |a| ==> a[k] == Warned(Warnings(a)[k])
  {
    if a != [] {
      WarningsLength(a[..|a| - 1]);
    }
  }

  lemma WarningsDecide(a: seq<Fed>, b: seq<Fed>)
    requires forall k :: 0 <= k < |a| ==> a[k].Warned?
    requires forall k :: 0 <= k < |b| ==> b[k].Warned?
    requires Warnings(a) == Warnings(b)
    ensures a == b
  {
    WarningsLength(a);
    WarningsLength(b);
  }

  // ---------------------------------------------------------------- the queue between calls

  /** With no other producer, a call leaves exactly the announcements it made, and the next call leaves nothing and
      changes nothing else. */
  lemma CallLeavesItsAnnouncements(w: World)
    requires SameSizes(w.f, |w.f.warnings|)
    ensures var once := Step(w, Process(|w.queue|)); var twice := Step(once, Process(|once.queue|));
      && once.queue == ProcessAll(w.f, w.queue).1
      && once.issued == w.issued + once.queue
      && (forall k :: 0 <= k < |once.queue| ==> once.queue[k].kind == PENALTY_ISSUED)
      && twice.queue == [] && twice.f == once.f && twice.issued == once.issued
  {
    var once := Step(w, Process(|w.queue|));
    assert w.queue[..|w.queue|] == w.queue && w.queue[|w.queue|..] == [];
    IssuedKind(w.f, w.queue);
    IgnoresOthers(once.f, once.queue);
    assert once.queue[..|once.queue|] == once.queue && once.queue[|once.queue|..] == [];
  }

  lemma {:induction false} IssuedKind(f: Enforcer, batch: seq<Event>)
    requires SameSizes(f, |f.warnings|)
    ensures forall k :: 0 <= k < |ProcessAll(f, batch).1| ==> ProcessAll(f, batch).1[k].kind == PENALTY_ISSUED
  {
    if batch != [] {
      IssuedKind(f, batch[..|batch| - 1]);
    }
  }

  lemma {:induction false} IgnoresOthers(f: Enforcer, batch: seq<Event>)
    requires SameSizes(f, |f.warnings|)
    requires forall k :: 0 <= k < |batch| ==> batch[k].kind != TRACK_LIMITS
    ensures ProcessAll(f, batch) == (f, [])
  {
    if batch != [] {
      var front, e := batch[..|batch| - 1], batch[|batch| - 1];
      ProcessAllSnoc(f, front, e);
      assert batch == front + [e];
      hide ProcessOne, ProcessAll;
      IgnoresOthers(f, front);
      IgnoredEvent(f, e);
      assert ProcessAll(f, front).1 + ProcessOne(f, e).1 == [];
    }
  }
}
