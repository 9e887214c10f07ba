/**
 The penalty enforcer as the object it is: three arrays over the drivers and the shared event queue it both drains and
 pushes into.
 */
module PenaltyEnforcerClass {
  import opened Options
  import opened RaceTypes
  import opened PenaltySteps
  import opened PenaltyBatches
  import opened MpscQueueClass
  import S = MpscSteps

  /** The events of a log of pushes. */
  function Values(log: seq<(nat, Event)>): (r: seq<Event>)
    ensures |r| == |log| && forall k :: 0 <= k < |log| ==> r[k] == log[k].1
  {
    seq(|log|, k requires 0 <= k < |log| => log[k].1)
  }

  class PenaltyEnforcer {
    const drivers: nat
    const warnings: array<nat>
    const states: array<PenaltyState>
    const extraPitTime: array<int>
    const events: MpscQueue<Event>

    ghost function View(): Enforcer
      reads warnings, states, extraPitTime
    {
      Enforcer(warnings[..], states[..], extraPitTime[..])
    }

    predicate Shape() {
      warnings.Length == states.Length == extraPitTime.Length == drivers
    }

    /** Events pushed into the shared queue and not yet popped. */
    ghost function Waiting(): seq<Event>
      reads events, events.live
      requires events.Valid()
    {
      S.PoppedBound(events.View());
      Values(events.history.exchanged[|events.history.popped|..])
    }

    constructor (drivers: nat, events: MpscQueue<Event>)
      ensures Shape() && this.drivers == drivers && this.events == events
      ensures View() == PenaltyBatches.Init(drivers).f
      ensures fresh(warnings) && fresh(states) && fresh(extraPitTime)
    {
      this.drivers, this.events := drivers, events;
      warnings := new nat[drivers](_ => 0);
      states := new PenaltyState[drivers](_ => NONE);
      extraPitTime := new int[drivers](_ => 0);
      new;
      assert View() == PenaltyBatches.Init(drivers).f;
    }

    /** The first loop: everything that can be popped, before any of it is processed. */
    method DrainEvents() returns (batch: seq<Event>)
      requires events.Valid()
      modifies events, events.live
      ensures events.Valid() && events.live <= old(events.live)
      ensures events.View() == S.Drain(old(events.View()))
      ensures events.history.popped == old(events.history.popped) + batch
    {
      hide S.Inv, S.Drain, S.PopCall, S.NextReady;
      ghost var c := events.View();
      S.PopCallEffect(c);
      batch := [];
      var ev := events.Pop();
      while ev.Some?
        invariant events.Valid() && events.live <= old(events.live) && S.Drain(events.View()) == S.Drain(c)
        invariant events.history.base <= |events.history.nodes|
        invariant events.history.popped == c.x.popped + batch + (if ev.Some? then [ev.value] else [])
        invariant ev.None? ==> !S.NextReady(events.View().s)
        decreases |events.history.nodes| - events.history.base, ev.Some?
      {
        batch := batch + [ev.value];
        S.PopCallEffect(events.View());
        ev := events.Pop();
      }
      S.DrainUnfold(events.View());
    }

    /** The body of the second loop, for one event of the batch. */
    method ProcessEvent(ghost p: nat, e: Event) returns (ghost made: seq<Event>)
      requires Shape() && events.Valid() && S.Pc(events.View().s, p) == S.Idle
      modifies warnings, states, extraPitTime, events, events.live
      ensures events.Valid() && fresh(events.live - old(events.live)) && S.Pc(events.View().s, p) == S.Idle
      ensures (View(), made) == ProcessOne(old(View()), e)
      ensures events.history.popped == old(events.history.popped)
      ensures Values(events.history.exchanged) == Values(old(events.history.exchanged)) + made
    {
      hide S.Inv;
      made := [];
      if e.kind == TRACK_LIMITS {
        var idx := DriverIndexOf(e.driver, drivers);
        if idx >= 0 {
          var count := warnings[idx] + 1;
          warnings[idx] := count;
          if count == WARNINGS_FOR_PENALTY && states[idx] == NONE {
            states[idx] := PENDING;
            var pen := Event(PENALTY_ISSUED, e.driver, e.lap);
            events.Push(p, pen);
            made := [pen];
            extraPitTime[idx] := EXTRA_PIT_TICKS;
          }
        }
      }
      assert View() == ProcessOne(old(View()), e).0;
      assert Values(events.history.exchanged) == Values(old(events.history.exchanged)) + made;
    }

    /** The second loop: the batch, event by event. */
    method ProcessBatch(ghost p: nat, batch: seq<Event>) returns (ghost made: seq<Event>)
      requires Shape() && events.Valid() && S.Pc(events.View().s, p) == S.Idle
      modifies warnings, states, extraPitTime, events, events.live
      ensures events.Valid()
      ensures (View(), made) == ProcessAll(old(View()), batch)
      ensures events.history.popped == old(events.history.popped)
      ensures Values(events.history.exchanged) == Values(old(events.history.exchanged)) + made
    {
      hide S.Inv, ProcessOne;
      made := [];
      for i := 0 to |batch|
        invariant Shape() && events.Valid() && S.Pc(events.View().s, p) == S.Idle
        invariant fresh(events.live - old(events.live))
        invariant (View(), made) == ProcessAll(old(View()), batch[..i])
        invariant events.history.popped == old(events.history.popped)
        invariant Values(events.history.exchanged) == Values(old(events.history.exchanged)) + made
      {
        assert batch[..i + 1][..i] == batch[..i];
        ghost var more := ProcessEvent(p, batch[i]);
        made := made + more;
      }
      assert batch[..|batch|] == batch;
    }

    /** `process_events`, called by thread p: the batch is everything linked when the drain reaches it, and the queue
        afterwards holds what was left, then the announcements. */
    method ProcessEvents(ghost p: nat) returns (ghost batch: seq<Event>, ghost made: seq<Event>)
      requires Shape() && events.Valid() && S.Pc(events.View().s, p) == S.Idle
      modifies warnings, states, extraPitTime, events, events.live
      ensures Shape() && events.Valid()
      ensures S.Drain(old(events.View())).x.popped == old(events.history.popped) + batch
      ensures (View(), made) == ProcessAll(old(View()), batch)
      ensures |batch| <= |old(Waiting())| && batch == old(Waiting())[..|batch|]
      ensures Waiting() == old(Waiting())[|batch|..] + made
      ensures var v := PenaltyBatches.Step(World(old(View()), old(Waiting()), [], [], []), Process(|batch|));
        v.f == View() && v.queue == Waiting() && v.issued == made
    {
      hide S.Inv, S.Drain, ProcessAll;
      ghost var c := events.View();
      ghost var waiting := Waiting();
      S.DrainEffect(c);
      S.PoppedBound(c);
      var events0 := DrainEvents();
      batch := events0;
      ghost var d := events.View();
      S.PoppedBound(d);
      made := ProcessBatch(p, events0);
      BatchIsOldest(c, d, batch, waiting);
      RestThenMade(d, events.View(), made);
    }

    /** What a drain returns is the front of what was waiting. */
    lemma BatchIsOldest(c: S.Config<Node<Event>, Event>, d: S.Config<Node<Event>, Event>, batch: seq<Event>,
                        waiting: seq<Event>)
      requires S.Inv(c) && S.Inv(d) && |c.x.popped| <= |c.x.exchanged|
      requires d.x.exchanged == c.x.exchanged && d.x.popped == c.x.popped + batch
      requires waiting == Values(c.x.exchanged[|c.x.popped|..])
      ensures |batch| <= |waiting| && batch == waiting[..|batch|]
      ensures |d.x.popped| <= |d.x.exchanged| && Values(d.x.exchanged[|d.x.popped|..]) == waiting[|batch|..]
    {
      S.PoppedBound(d);
      hide S.Inv;
      var n := |c.x.popped|;
      forall k | 0 <= k < |batch| ensures batch[k] == waiting[k] {
        assert d.x.popped[n + k] == batch[k];
      }
    }

    lemma RestThenMade(d: S.Config<Node<Event>, Event>, e: S.Config<Node<Event>, Event>, made: seq<Event>)
      requires S.Inv(d) && S.Inv(e) && e.x.popped == d.x.popped && |d.x.popped| <= |d.x.exchanged|
      requires Values(e.x.exchanged) == Values(d.x.exchanged) + made
      ensures |e.x.popped| <= |e.x.exchanged|
      ensures Values(e.x.exchanged[|e.x.popped|..]) == Values(d.x.exchanged[|d.x.popped|..]) + made
    {
      S.PoppedBound(e);
      hide S.Inv;
      var n := |d.x.popped|;
      var a, b := Values(e.x.exchanged), Values(d.x.exchanged);
      assert Values(e.x.exchanged[n..]) == a[n..];
      assert Values(d.x.exchanged[n..]) == b[n..];
    }

    method DriverEnteredPits(driver: int)
      requires Shape()
      modifies states
      ensures View() == old(View()).(states := Shift(old(states[..]), driver, PENDING, SERVING))
      ensures forall d :: 0 <= d < drivers ==>
        states[d] == if d == driver && old(states[d]) == PENDING then SERVING else old(states[d])
    {
      var idx := DriverIndexOf(driver, drivers);
      if idx >= 0 && states[idx] == PENDING {
        states[idx] := SERVING;
      }
    }

    method DriverExitedPits(driver: int)
      requires Shape()
      modifies states
      ensures View() == old(View()).(states := Shift(old(states[..]), driver, SERVING, SERVED))
      ensures forall d :: 0 <= d < drivers ==>
        states[d] == if d == driver && old(states[d]) == SERVING then SERVED else old(states[d])
    {
      var idx := DriverIndexOf(driver, drivers);
      if idx >= 0 && states[idx] == SERVING {
        states[idx] := SERVED;
      }
    }
  }
}
