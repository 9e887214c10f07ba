/**
 The enforcer and its queue, one atomic step at a time: any number of other threads push events while `process_events`
 drains the queue, while it processes what it has drained, and while it pushes its own announcements.

 The queue is that of `MpscSteps`; the enforcer is its consumer and, as thread `me`, one of its producers.
 */
module PenaltyQueueSteps {
  import opened RaceTypes
  import opened PenaltySteps
  import opened PenaltyBatches
  import Q = MpscSteps

  /** Where the enforcer's thread stands; `todo` is the rest of the batch. */
  datatype Place =
    | Away                                          // not in process_events
    | Draining(batch: seq<Event>)
    | Processing(todo: seq<Event>)
    | Announcing(pen: Event, todo: seq<Event>)      // inside push

  datatype System<A(==)> = System(
    q: Q.Config<A, Event>,
    f: Enforcer,
    place: Place,
    me: nat,
    handled: seq<Event>,        // every event processed so far, in order
    issued: seq<Event>,         // every announcement decided on so far, in order
    fed: seq<Fed>)              // track-limits events processed and pit calls made so far, in order

  datatype Action<A> =
    | Other(a: Q.Action<A, Event>)      // a step of another producer
    | Call
    | Load
    | Take
    | Advance
    | Free
    | Process
    | AnnounceAlloc(addr: A)
    | AnnounceExchange
    | AnnounceLink
    | EnterPits(driver: int)
    | ExitPits(driver: int)

  predicate ByOther<A>(a: Q.Action<A, Event>, me: nat) {
    (a.Alloc? || a.Exchange? || a.Link?) && a.p != me
  }

  function OnQueue<A>(w: System<A>, a: Q.Action<A, Event>): System<A> {
    w.(q := Q.Step(w.q, a))
  }

  /** The load of `pop`; finding nothing ends the drain. */
  function LoadNext<A>(w: System<A>): System<A> {
    if !w.place.Draining? then w
    else
      var q := Q.Step(w.q, Q.Load);
      w.(q := q,
         place := if w.q.s.consumer.Resting? && q.s.consumer.Resting? then Processing(w.place.batch) else w.place)
  }

  /** The end of `pop`; the value goes to the end of the batch. */
  function FreeNode<A>(w: System<A>): System<A> {
    if !w.place.Draining? || !w.q.s.consumer.Freeing? then w
    else w.(q := Q.Step(w.q, Q.Free), place := Draining(w.place.batch + [w.q.s.consumer.out]))
  }

  function FedBy(e: Event): seq<Fed> {
    if e.kind == TRACK_LIMITS then [Warned(e)] else []
  }

  /** The next event of the batch, up to a push it may call for; with none left, the call returns. */
  function ProcessNext<A>(w: System<A>): System<A>
    requires SameSizes(w.f, |w.f.warnings|)
  {
    if !w.place.Processing? then w
    else if w.place.todo == [] then w.(place := Away)
    else
      var e, rest := w.place.todo[0], w.place.todo[1..];
      var r := ProcessOne(w.f, e);
      w.(f := r.0, handled := w.handled + [e], issued := w.issued + r.1, fed := w.fed + FedBy(e),
         place := if r.1 == [] then Processing(rest) else Announcing(r.1[0], rest))
  }

  /** The push of an announcement is over when its link has been stored. */
  function LinkOwn<A>(w: System<A>): System<A> {
    if w.place.Announcing? && Q.Pc(w.q.s, w.me).Linking?
    then w.(q := Q.Step(w.q, Q.Link(w.me)), place := Processing(w.place.todo))
    else w
  }

  function PitCall<A>(w: System<A>, driver: int, from: PenaltyState, to: PenaltyState, x: Fed): System<A> {
    w.(f := w.f.(states := Shift(w.f.states, driver, from, to)), fed := w.fed + [x])
  }

  function Step<A>(w: System<A>, a: Action<A>): (v: System<A>)
    requires SameSizes(w.f, |w.f.warnings|)
    ensures SameSizes(v.f, |w.f.warnings|) && |v.f.warnings| == |w.f.warnings| && v.me == w.me
  {
    match a
    case Other(b) => if ByOther(b, w.me) then OnQueue(w, b) else w
    case Call => if w.place.Away? then w.(place := Draining([])) else w
    case Load => LoadNext(w)
    case Take => if w.place.Draining? then OnQueue(w, Q.Take) else w
    case Advance => if w.place.Draining? then OnQueue(w, Q.Advance) else w
    case Free => FreeNode(w)
    case Process => ProcessNext(w)
    case AnnounceAlloc(addr) => if w.place.Announcing? then OnQueue(w, Q.Alloc(w.me, addr, w.place.pen)) else w
    case AnnounceExchange => if w.place.Announcing? then OnQueue(w, Q.Exchange(w.me)) else w
    case AnnounceLink => LinkOwn(w)
    case EnterPits(driver) => PitCall(w, driver, PENDING, SERVING, Entered(driver))
    case ExitPits(driver) => PitCall(w, driver, SERVING, SERVED, Exited(driver))
  }

  function Run<A>(w: System<A>, actions: seq<Action<A>>): (v: System<A>)
    requires SameSizes(w.f, |w.f.warnings|)
    ensures SameSizes(v.f, |w.f.warnings|) && |v.f.warnings| == |w.f.warnings| && v.me == w.me
    decreases |actions|
  {
    if actions == [] then w else Run(Step(w, actions[0]), actions[1..])
  }

  function Start<A>(n: nat, sentinel: A, me: nat): System<A> {
    System(Q.Init(sentinel), PenaltyBatches.Init(n).f, Away, me, [], [], [])
  }

  // ---------------------------------------------------------------- the inductive invariant

  /** Popped and not yet processed. */
  function Batch(p: Place): seq<Event> {
    match p
    case Away => []
    case Draining(batch) => batch
    case Processing(todo) => todo
    case Announcing(_, todo) => todo
  }

  /** Decided on, and its node not yet allocated. */
  function Undelivered<A>(q: Q.Config<A, Event>, p: Place, me: nat): seq<Event> {
    if p.Announcing? && Q.Pc(q.s, me).Idle? then [p.pen] else []
  }

  /** The enforcer is where feeding it one event at a time would have it, and was fed what it has processed. */
  ghost predicate FedOk<A>(w: System<A>, n: nat) {
    (w.f, w.issued) == Feed(n, w.fed) && Warnings(w.fed) == TrackOnly(w.handled)
  }

  predicate BatchOk<A>(w: System<A>) {
    && w.q.x.popped == w.handled + Batch(w.place)
    && (!w.place.Draining? ==> w.q.s.consumer.Resting?)
  }

  /** Announcements decided on are those pushed or being pushed by this thread, and at most one still to be begun. */
  ghost predicate OwnOk<A>(w: System<A>) {
    && w.issued == Q.OfProducer(w.me, w.q.x.started) + Undelivered(w.q, w.place, w.me)
    && Q.StartedOk(w.q, w.me)
    && (!w.place.Announcing? ==> Q.Pc(w.q.s, w.me).Idle?)
  }

  ghost predicate Inv<A>(w: System<A>, n: nat) {
    && SameSizes(w.f, n)
    && Q.Inv(w.q) && FedOk(w, n) && BatchOk(w) && OwnOk(w)
  }

  lemma StartInv<A>(n: nat, sentinel: A, me: nat)
    ensures Inv(Start(n, sentinel, me), n)
  {
    Q.InitInv<A, Event>(sentinel);
  }

  // ---------------------------------------------------------------- every step keeps it

  /** A queue step of anybody but this thread's producer side. */
  lemma ForeignStep<A>(q: Q.Config<A, Event>, a: Q.Action<A, Event>, me: nat)
    requires Q.Inv(q) && Q.StartedOk(q, me)
    requires ByOther(a, me) || a.Load? || a.Take? || a.Advance? || a.Free?
    ensures var q' := Q.Step(q, a);
      && Q.Inv(q') && Q.StartedOk(q', me) && Q.Pc(q'.s, me) == Q.Pc(q.s, me)
      && Q.OfProducer(me, q'.x.started) == Q.OfProducer(me, q.x.started)
  {
    Q.StepInv(q, a);
    Q.StartedStep(q, a, me);
    ForeignStarts(q, a, me);
    hide Q.Inv, Q.StartedOk, Q.Step, Q.OfProducer;
  }

  lemma ForeignStarts<A>(q: Q.Config<A, Event>, a: Q.Action<A, Event>, me: nat)
    requires ByOther(a, me) || a.Load? || a.Take? || a.Advance? || a.Free?
    ensures var q' := Q.Step(q, a);
      Q.Pc(q'.s, me) == Q.Pc(q.s, me) && Q.OfProducer(me, q'.x.started) == Q.OfProducer(me, q.x.started)
  {
    hide Q.OfProducer;
    if a.Alloc? {
      Q.OfProducerSnoc(me, q.x.started, (a.p, a.value));
    }
  }

  /** What a queue step does to the consumer and to what it has returned. */
  lemma ConsumerStep<A>(q: Q.Config<A, Event>, a: Q.Action<A, Event>)
    requires Q.Inv(q)
    ensures var q' := Q.Step(q, a);
      && q'.x.popped == q.x.popped + (if a.Free? && q.s.consumer.Freeing? then [q.s.consumer.out] else [])
      && (a.Alloc? || a.Exchange? || a.Link? ==> q'.s.consumer == q.s.consumer)
      && (a.Free? && q.s.consumer.Freeing? ==> q'.s.consumer.Resting?)
  {
    Q.StepInv(q, a);
  }

  lemma FedKept<A>(w: System<A>, v: System<A>, n: nat)
    requires FedOk(w, n) && v.f == w.f && v.issued == w.issued && v.fed == w.fed && v.handled == w.handled
    ensures FedOk(v, n)
  {
  }

  /** A step of the queue that is not this thread's push, when it leaves the enforcer alone. */
  lemma QueueInv<A>(w: System<A>, v: System<A>, a: Q.Action<A, Event>, n: nat)
    requires Inv(w, n) && (ByOther(a, w.me) || a.Load? || a.Take? || a.Advance? || a.Free?)
    requires v == w.(q := Q.Step(w.q, a), place := v.place)
    requires Batch(v.place)
          == Batch(w.place) + (if a.Free? && w.q.s.consumer.Freeing? then [w.q.s.consumer.out] else [])
    requires v.place.Announcing? == w.place.Announcing? && (v.place.Announcing? ==> v.place == w.place)
    requires v.place.Draining? || v.q.s.consumer.Resting?
    ensures Inv(v, n)
  {
    ForeignStep(w.q, a, w.me);
    ConsumerStep(w.q, a);
    hide Q.Inv, Q.Step, Q.StartedOk, Q.OfProducer, FedOk, Q.Pc;
    FedKept(w, v, n);
    assert w.handled + Batch(v.place) == v.q.x.popped;
  }

  lemma OtherInv<A>(w: System<A>, a: Q.Action<A, Event>, n: nat)
    requires Inv(w, n) && ByOther(a, w.me)
    ensures Inv(OnQueue(w, a), n)
  {
    ConsumerStep(w.q, a);
    assert Batch(w.place) + [] == Batch(w.place);
    QueueInv(w, OnQueue(w, a), a, n);
  }

  lemma PopInv<A>(w: System<A>, a: Q.Action<A, Event>, n: nat)
    requires Inv(w, n) && w.place.Draining? && (a.Take? || a.Advance?)
    ensures Inv(OnQueue(w, a), n)
  {
    assert Batch(w.place) + [] == Batch(w.place);
    QueueInv(w, OnQueue(w, a), a, n);
  }

  lemma LoadInv<A>(w: System<A>, n: nat)
    requires Inv(w, n) && w.place.Draining?
    ensures Inv(LoadNext(w), n)
  {
    assert Batch(w.place) + [] == Batch(w.place);
    QueueInv(w, LoadNext(w), Q.Load, n);
  }

  lemma FreeInv<A>(w: System<A>, n: nat)
    requires Inv(w, n) && w.place.Draining? && w.q.s.consumer.Freeing?
    ensures Inv(FreeNode(w), n)
  {
    QueueInv(w, FreeNode(w), Q.Free, n);
  }

  /** Feeding an event that is no track-limits event changes nothing, and feeding one is processing it. */
  lemma FedNext(n: nat, fed: seq<Fed>, handled: seq<Event>, e: Event)
    requires Warnings(fed) == TrackOnly(handled)
    ensures var before := Feed(n, fed); var r := ProcessOne(before.0, e);
      Feed(n, fed + FedBy(e)) == (r.0, before.1 + r.1)
    ensures Warnings(fed + FedBy(e)) == TrackOnly(handled + [e])
    ensures var r := ProcessOne(Feed(n, fed).0, e); |r.1| <= 1 && (r.1 != [] ==> e.kind == TRACK_LIMITS)
  {
    assert (handled + [e])[..|handled|] == handled;
    if e.kind == TRACK_LIMITS {
      FeedSnoc(n, fed, Warned(e));
      assert (fed + [Warned(e)])[..|fed|] == fed;
    } else {
      assert fed + FedBy(e) == fed;
      IgnoredEvent(Feed(n, fed).0, e);
      assert Feed(n, fed).1 + [] == Feed(n, fed).1;
    }
  }

  lemma ProcessFed<A>(w: System<A>, n: nat)
    requires SameSizes(w.f, n) && FedOk(w, n) && w.place.Processing? && w.place.todo != []
    ensures FedOk(ProcessNext(w), n)
  {
    FedNext(n, w.fed, w.handled, w.place.todo[0]);
    hide Feed, ProcessOne, Warnings, TrackOnly, FedBy;
  }

  lemma ProcessBatch<A>(w: System<A>)
    requires SameSizes(w.f, |w.f.warnings|) && BatchOk(w) && w.place.Processing?
    ensures BatchOk(ProcessNext(w))
  {
    hide ProcessOne, FedBy;
    if w.place.todo != [] {
      var e, rest := w.place.todo[0], w.place.todo[1..];
      assert w.place.todo == [e] + rest;
      assert w.handled + ([e] + rest) == (w.handled + [e]) + rest;
    }
  }

  lemma ProcessOwn<A>(w: System<A>)
    requires SameSizes(w.f, |w.f.warnings|) && OwnOk(w) && w.place.Processing?
    ensures OwnOk(ProcessNext(w))
  {
    hide Q.StartedOk, Q.OfProducer, Q.Pc, FedBy;
    if w.place.todo != [] {
      var made := ProcessOne(w.f, w.place.todo[0]).1;
      assert |made| <= 1;
      hide ProcessOne;
      assert made == if made == [] then [] else [made[0]];
    }
  }

  lemma ProcessInv<A>(w: System<A>, n: nat)
    requires Inv(w, n) && w.place.Processing?
    ensures Inv(ProcessNext(w), n)
  {
    hide Q.Inv, FedOk, BatchOk, OwnOk, ProcessOne, FedBy;
    ProcessBatch(w);
    ProcessOwn(w);
    if w.place.todo != [] {
      ProcessFed(w, n);
    } else {
      FedKept(w, ProcessNext(w), n);
    }
  }

  /** A step of this thread's own push. */
  lemma OwnStep<A>(q: Q.Config<A, Event>, a: Q.Action<A, Event>, me: nat)
    requires Q.Inv(q) && Q.StartedOk(q, me) && (a.Alloc? || a.Exchange? || a.Link?) && a.p == me
    ensures var q' := Q.Step(q, a);
      && Q.Inv(q') && Q.StartedOk(q', me)
      && q'.x.popped == q.x.popped && q'.s.consumer == q.s.consumer
      && (a.Link? && Q.Pc(q.s, me).Linking? ==> Q.Pc(q'.s, me).Idle?)
      && (a.Exchange? ==> Q.Pc(q'.s, me).Idle? == Q.Pc(q.s, me).Idle?)
      && if a.Alloc? && Q.Pc(q.s, me).Idle? && a.addr !in q.s.heap
         then Q.OfProducer(me, q'.x.started) == Q.OfProducer(me, q.x.started) + [a.value] && Q.Pc(q'.s, me).Ready?
         else q'.x.started == q.x.started && (a.Alloc? ==> q' == q)
  {
    Q.StepInv(q, a);
    Q.StartedStep(q, a, me);
    if a.Alloc? {
      Q.OfProducerSnoc(me, q.x.started, (me, a.value));
    }
    hide Q.StartedOk, Q.OfProducer;
    if a.Link? && Q.Pc(q.s, me).Linking? {
      Q.PointersLive(q, me);
    }
  }

  lemma AnnounceInv<A>(w: System<A>, a: Q.Action<A, Event>, n: nat)
    requires Inv(w, n) && w.place.Announcing?
    requires ((a.Alloc? && a.value == w.place.pen) || a.Exchange?) && a.p == w.me
    ensures Inv(OnQueue(w, a), n)
  {
    OwnStep(w.q, a, w.me);
    FedKept(w, OnQueue(w, a), n);
    hide Q.Inv, Q.StartedOk, Q.OfProducer, Q.Step, Q.Pc, FedOk;
    assert Q.OfProducer(w.me, w.q.x.started) + [w.place.pen] + [] == Q.OfProducer(w.me, w.q.x.started) + [w.place.pen];
  }

  lemma LinkOwnInv<A>(w: System<A>, n: nat)
    requires Inv(w, n) && w.place.Announcing? && Q.Pc(w.q.s, w.me).Linking?
    ensures Inv(LinkOwn(w), n)
  {
    OwnStep(w.q, Q.Link(w.me), w.me);
    FedKept(w, LinkOwn(w), n);
    hide Q.Inv, Q.StartedOk, Q.OfProducer, Q.Step, FedOk;
  }

  lemma PitInv<A>(w: System<A>, driver: int, enter: bool, n: nat)
    requires Inv(w, n)
    ensures Inv(if enter then PitCall(w, driver, PENDING, SERVING, Entered(driver))
                else PitCall(w, driver, SERVING, SERVED, Exited(driver)), n)
  {
    var x := if enter then Entered(driver) else Exited(driver);
    assert (w.fed + [x])[..|w.fed|] == w.fed;
    hide Q.Inv, Q.StartedOk, Q.OfProducer;
  }

  lemma StepInv<A>(w: System<A>, a: Action<A>, n: nat)
    requires Inv(w, n)
    ensures Inv(Step(w, a), n)
  {
    match a
    case Other(b) => if ByOther(b, w.me) { OtherInv(w, b, n); }
    case Call => CallInv(w, n);
    case Load => if w.place.Draining? { LoadInv(w, n); }
    case Take => if w.place.Draining? { PopInv(w, Q.Take, n); }
    case Advance => if w.place.Draining? { PopInv(w, Q.Advance, n); }
    case Free => if w.place.Draining? && w.q.s.consumer.Freeing? { FreeInv(w, n); }
    case Process => if w.place.Processing? { ProcessInv(w, n); }
    case AnnounceAlloc(addr) => if w.place.Announcing? { AnnounceInv(w, Q.Alloc(w.me, addr, w.place.pen), n); }
    case AnnounceExchange => if w.place.Announcing? { AnnounceInv(w, Q.Exchange(w.me), n); }
    case AnnounceLink => if w.place.Announcing? && Q.Pc(w.q.s, w.me).Linking? { LinkOwnInv(w, n); }
    case EnterPits(driver) => PitInv(w, driver, true, n);
    case ExitPits(driver) => PitInv(w, driver, false, n);
  }

  lemma CallInv<A>(w: System<A>, n: nat)
    requires Inv(w, n)
    ensures Inv(Step(w, Call), n)
  {
    FedKept(w, Step(w, Call), n);
    hide Q.Inv, Q.StartedOk, Q.OfProducer, FedOk;
  }

  lemma {:induction false} RunInv<A>(w: System<A>, actions: seq<Action<A>>, n: nat)
    requires Inv(w, n)
    ensures Inv(Run(w, actions), n)
    decreases |actions|
  {
    if actions != [] {
      StepInv(w, actions[0], n);
      RunInv(Step(w, actions[0]), actions[1..], n);
    }
  }

  function After<A>(n: nat, sentinel: A, me: nat, actions: seq<Action<A>>): System<A> {
    Run(Start(n, sentinel, me), actions)
  }

  lemma Reachable<A>(n: nat, sentinel: A, me: nat, actions: seq<Action<A>>)
    ensures Inv(After(n, sentinel, me, actions), n)
  {
    StartInv(n, sentinel, me);
    RunInv(Start(n, sentinel, me), actions, n);
  }

  // ---------------------------------------------------------------- what every run guarantees

  /** Whatever the other threads push and whenever, during calls or between them: the events processed are the oldest
      that were exchanged into the queue, in that order, each once; the rest of a batch comes next; and warnings, states
      and announcements are where feeding the track-limits events among them one at a time would have them. */
  lemma ProcessedInExchangeOrder<A>(n: nat, sentinel: A, me: nat, actions: seq<Action<A>>)
    ensures var w := After(n, sentinel, me, actions); var popped := w.handled + Batch(w.place);
      && |popped| <= |w.q.x.exchanged|
      && (forall k :: 0 <= k < |popped| ==> popped[k] == w.q.x.exchanged[k].1)
      && Warnings(w.fed) == TrackOnly(w.handled)
      && (w.f, w.issued) == Feed(n, w.fed)
  {
    Reachable(n, sentinel, me, actions);
    var w := After(n, sentinel, me, actions);
    Q.PoppedBound(w.q);
    hide Q.Inv, Q.StartedOk, Q.OfProducer;
  }

  /** Two runs, with other threads interleaved and batches cut as they may be, that have processed the same warnings and
      pit calls in the same order agree on warnings, states and announcements. */
  lemma InterleavingIndependent<A>(n: nat, sentinel: A, me: nat, a: seq<Action<A>>, b: seq<Action<A>>)
    requires After(n, sentinel, me, a).fed == After(n, sentinel, me, b).fed
    ensures After(n, sentinel, me, a).f == After(n, sentinel, me, b).f
    ensures After(n, sentinel, me, a).issued == After(n, sentinel, me, b).issued
  {
    Reachable(n, sentinel, me, a);
    Reachable(n, sentinel, me, b);
  }

  /** Announcements reach the queue once each, in the order they were decided on: those exchanged in are a prefix
      of those decided on, and between calls and at the start of a drain they are all of them. */
  lemma AnnouncedOnce<A>(n: nat, sentinel: A, me: nat, actions: seq<Action<A>>)
    ensures var w := After(n, sentinel, me, actions);
      && Q.OfProducer(me, w.q.x.exchanged) <= w.issued
      && (!w.place.Announcing? ==> Q.OfProducer(me, w.q.x.exchanged) == w.issued)
  {
    Reachable(n, sentinel, me, actions);
    hide Q.Inv, Q.OfProducer, FedOk;
  }

  predicate NoPits<A>(actions: seq<Action<A>>) {
    forall k :: 0 <= k < |actions| ==> !actions[k].EnterPits? && !actions[k].ExitPits?
  }

  predicate AllWarned(fed: seq<Fed>) {
    forall k :: 0 <= k < |fed| ==> fed[k].Warned?
  }

  lemma {:induction false} OnlyWarned<A>(w: System<A>, actions: seq<Action<A>>)
    requires SameSizes(w.f, |w.f.warnings|) && NoPits(actions) && AllWarned(w.fed)
    ensures AllWarned(Run(w, actions).fed)
    decreases |actions|
  {
    hide ProcessOne, Q.Step;
    if actions != [] {
      OnlyWarned(Step(w, actions[0]), actions[1..]);
    }
  }

  /** Without pit calls, the track-limits events processed decide the outcome by themselves. */
  lemma SameEventsSameOutcome<A>(n: nat, sentinel: A, me: nat, a: seq<Action<A>>, b: seq<Action<A>>)
    requires NoPits(a) && NoPits(b)
    requires TrackOnly(After(n, sentinel, me, a).handled) == TrackOnly(After(n, sentinel, me, b).handled)
    ensures After(n, sentinel, me, a).f == After(n, sentinel, me, b).f
    ensures After(n, sentinel, me, a).issued == After(n, sentinel, me, b).issued
  {
    OnlyWarned(Start(n, sentinel, me), a);
    OnlyWarned(Start(n, sentinel, me), b);
    ProcessedInExchangeOrder(n, sentinel, me, a);
    ProcessedInExchangeOrder(n, sentinel, me, b);
    WarningsDecide(After(n, sentinel, me, a).fed, After(n, sentinel, me, b).fed);
  }

  // ---------------------------------------------------------------- the enforcer gets on

  /** A call begins with an empty batch; its drain adds every value it pops and ends exactly when the next node is not
      linked; then the events of the batch are handled one after the other, each push is followed through, and the call
      returns with the batch empty. */
  lemma EnforcerGetsOn<A>(w: System<A>, n: nat)
    requires Inv(w, n)
    ensures w.place.Away? ==> Step(w, Call).place == Draining([])
    ensures w.place.Draining? && w.q.s.consumer.Resting? ==>
      (Step(w, Load).place == (if Q.NextReady(w.q.s) then w.place else Processing(w.place.batch)))
    ensures w.place.Draining? && w.q.s.consumer.Freeing? ==>
      Step(w, Free).place == Draining(w.place.batch + [w.q.s.consumer.out])
    ensures w.place.Processing? && w.place.todo != [] ==>
      var v := Step(w, Action.Process);
      v.handled == w.handled + [w.place.todo[0]] && Batch(v.place) == w.place.todo[1..] && !v.place.Draining?
    ensures w.place.Processing? && w.place.todo == [] ==> Step(w, Action.Process).place == Away
    ensures w.place.Announcing? && Q.Pc(w.q.s, w.me).Linking? ==>
      Step(w, AnnounceLink).place == Processing(w.place.todo)
  {
    Q.PointersLive(w.q, w.me);
    hide Q.Inv, FedOk, OwnOk;
  }
}
