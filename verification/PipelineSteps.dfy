/**
 From the telemetry ring to the fastest-lap pair, one atomic access at a time: the generator pushing its frames, the
 consumer popping and claiming them, and the main thread telling the consumer to stop.

 The generator's frames are given, since nothing it computes depends on the ring.  The main thread asks the consumer to
 stop only after it has joined the generator, so a load the consumer makes once it has seen the request is not stale.
 */
module PipelineSteps {
  import opened RaceTypes
  import opened LapClaims
  import F = FastestLap
  import S = SpscSteps

  /** Where the consumer thread stands; `live` says that it is in the first loop and not in the final drain. */
  datatype Place =
    | AtTest                                // about to look for a stop request
    | Popping(live: bool)
    | Popped(frame: Frame, live: bool)      // a frame is out and not yet looked at
    | Claiming(live: bool)                  // inside the retry loop
    | Done

  datatype World = World(
    ring: S.Config<Frame>,
    claims: F.Config,
    source: seq<Frame>,                     // what the generator pushes, in order
    offered: nat,                           // how many frames it has begun to push
    refused: nat,                           // how many of them the ring has refused
    stop: bool,
    place: Place,
    drivers: nat,
    claimer: nat)

  datatype Action =
    | Push
    | PushRefresh(seen: nat)
    | PushWrite
    | PushPublish
    | StopConsumer
    | Test
    | PopStart
    | PopRefresh(seen: nat)
    | PopRead
    | PopRelease
    | Look
    | Attempt(spurious: bool)
    | StoreHolder

  /** After a frame has been dealt with. */
  function Next(live: bool): Place {
    if live then AtTest else Popping(false)
  }

  /** A step of the retry loop; when it leaves the loop the consumer goes on. */
  function ClaimStep(w: World, a: F.Action): World {
    if !w.place.Claiming? then w
    else
      var c := F.Step(w.claims, a);
      w.(claims := c, place := if F.Pc(c.s, w.claimer).Outside? then Next(w.place.live) else w.place)
  }

  function OnRing(w: World, a: S.Action<Frame>): World {
    w.(ring := S.Step(w.ring, a))
  }

  /** The generator begins the next push. */
  function OfferNext(w: World): World {
    if w.ring.r.producer.PIdle? && w.offered < |w.source|
    then w.(ring := S.Step(w.ring, S.PushStart(w.source[w.offered])), offered := w.offered + 1)
    else w
  }

  /** The generator reloads the consumer's index, and may find the ring full. */
  function RefreshHead(w: World, seen: nat): World {
    var ring := S.Step(w.ring, S.PushRefresh(seen));
    w.(ring := ring,
       refused := if !w.ring.r.producer.PIdle? && ring.r.producer.PIdle? then w.refused + 1 else w.refused)
  }

  /** The consumer reloads the generator's index - not a stale one in the drain - and may find the ring empty. */
  function RefreshTail(w: World, seen: nat): World {
    if !w.place.Popping? || (!w.place.live && seen + 1 != |w.ring.x.tails|) then w
    else
      var ring := S.Step(w.ring, S.PopRefresh(seen));
      w.(ring := ring,
         place := if !w.ring.r.consumer.CIdle? && ring.r.consumer.CIdle?
                  then (if w.place.live then AtTest else Done) else w.place)
  }

  function TakeOut(w: World): World {
    if w.place.Popping? && w.ring.r.consumer.CReleasing?
    then w.(ring := S.Step(w.ring, S.PopRelease), place := Popped(w.ring.r.consumer.out, w.place.live))
    else w
  }

  /** A frame that is an offer begins a claim. */
  function LookAt(w: World): World {
    if !w.place.Popped? then w
    else if IsOffer(w.place.frame, w.drivers)
    then w.(claims := F.Step(w.claims, F.Begin(w.claimer, w.place.frame.driver, w.place.frame.lapTime)),
            place := Claiming(w.place.live))
    else w.(place := Next(w.place.live))
  }

  function Step(w: World, a: Action): World {
    match a
    case Push => OfferNext(w)
    case PushRefresh(seen) => RefreshHead(w, seen)
    case PushWrite => OnRing(w, S.PushWrite)
    case PushPublish => OnRing(w, S.PushPublish)
    case StopConsumer =>
      if w.offered == |w.source| && w.ring.r.producer.PIdle? then w.(stop := true) else w
    case Test => if w.place.AtTest? then w.(place := Popping(!w.stop)) else w
    case PopStart => if w.place.Popping? then OnRing(w, S.PopStart) else w
    case PopRefresh(seen) => RefreshTail(w, seen)
    case PopRead => if w.place.Popping? then OnRing(w, S.PopRead) else w
    case PopRelease => TakeOut(w)
    case Look => LookAt(w)
    case Attempt(spurious) => ClaimStep(w, F.Attempt(w.claimer, spurious))
    case StoreHolder => ClaimStep(w, F.StoreHolder(w.claimer))
  }

  function Run(w: World, actions: seq<Action>): World
    decreases |actions|
  {
    if actions == [] then w else Run(Step(w, actions[0]), actions[1..])
  }

  function Init(log: nat, zero: Frame, source: seq<Frame>, drivers: nat, claimer: nat): World {
    World(S.Init(log, zero), F.INIT, source, 0, 0, false, AtTest, drivers, claimer)
  }

  // ---------------------------------------------------------------- the inductive invariant

  /** The frame being pushed. */
  function InFlight(p: S.Producer<Frame>): seq<Frame> {
    match p
    case PIdle => []
    case PRefreshing(item, _, _) => [item]
    case PWriting(item, _, _) => [item]
    case PPublishing(item, _) => [item]
  }

  /** Every frame begun has been published, is being pushed, or has been refused; if none has, they are in order. */
  predicate SourceOk(w: World) {
    && w.offered <= |w.source|
    && |w.ring.x.pushed| + |InFlight(w.ring.r.producer)| + w.refused == w.offered
    && (w.refused == 0 ==> w.ring.x.pushed + InFlight(w.ring.r.producer) == w.source[..w.offered])
    && (w.stop ==> w.offered == |w.source| && w.ring.r.producer.PIdle?)
  }

  /** The frame that is out and has not been looked at. */
  function Unseen(p: Place): seq<Frame> {
    if p.Popped? then [p.frame] else []
  }

  /** Calls made are the offers among the frames looked at. */
  ghost predicate ClaimsOk(w: World) {
    && F.SoleOk(w.claims, w.claimer)
    && (F.Pc(w.claims.s, w.claimer).Outside? <==> !w.place.Claiming?)
    && exists seen :: w.ring.x.popped == seen + Unseen(w.place) && w.claims.x.offers == OffersOf(seen, w.drivers)
  }

  predicate PlaceOk(w: World) {
    && (!w.place.Popping? ==> w.ring.r.consumer.CIdle?)
    && ((w.place.Popping? || w.place.Popped? || w.place.Claiming?) && !w.place.live ==> w.stop)
    && (w.place.Done? ==> w.stop && |w.ring.x.popped| == |w.ring.x.pushed|)
  }

  ghost predicate Inv(w: World) {
    S.Inv(w.ring) && SourceOk(w) && ClaimsOk(w) && PlaceOk(w)
  }

  lemma InitInv(log: nat, zero: Frame, source: seq<Frame>, drivers: nat, claimer: nat)
    requires log >= 1
    ensures Inv(Init(log, zero, source, drivers, claimer))
  {
    var w := Init(log, zero, source, drivers, claimer);
    S.InitInv(log, zero);
    assert w.ring.x.popped == [] + Unseen(w.place) && w.claims.x.offers == OffersOf([], drivers);
  }

  // ---------------------------------------------------------------- every step keeps it

  /** The generator's side of the ring leaves the consumer's alone. */
  lemma ProducerStep(c: S.Config<Frame>, a: S.Action<Frame>)
    requires S.Inv(c) && (a.PushStart? || a.PushRefresh? || a.PushWrite? || a.PushPublish?)
    ensures var c' := S.Step(c, a); S.Inv(c') && c'.r.consumer == c.r.consumer && c'.x.popped == c.x.popped
    ensures var c' := S.Step(c, a);
      if a.PushStart? && c.r.producer.PIdle?
      then c'.x.pushed == c.x.pushed && InFlight(c'.r.producer) == [a.item]
      else if !a.PushRefresh? || !c'.r.producer.PIdle?
      then c'.x.pushed + InFlight(c'.r.producer) == c.x.pushed + InFlight(c.r.producer)
      else c'.x.pushed == c.x.pushed
  {
    S.StepInv(c, a);
    hide S.Inv;
  }

  /** The consumer's side leaves the generator's alone; only the release takes an item out. */
  lemma ConsumerStep(c: S.Config<Frame>, a: S.Action<Frame>)
    requires S.Inv(c) && (a.PopStart? || a.PopRefresh? || a.PopRead? || a.PopRelease?)
    ensures var c' := S.Step(c, a); S.Inv(c') && c'.r.producer == c.r.producer && c'.x.pushed == c.x.pushed
    ensures var c' := S.Step(c, a);
      c'.x.popped == c.x.popped + (if a.PopRelease? && c.r.consumer.CReleasing? then [c.r.consumer.out] else [])
    ensures a.PopRelease? && c.r.consumer.CReleasing? ==> S.Step(c, a).r.consumer.CIdle?
  {
    S.StepInv(c, a);
    hide S.Inv;
  }

  /** A drain that finds nothing has nothing left to find. */
  lemma FreshRefusal(c: S.Config<Frame>, seen: nat)
    requires S.Inv(c) && c.r.consumer.CRefreshing? && seen + 1 == |c.x.tails|
    requires S.Step(c, S.PopRefresh(seen)).r.consumer.CIdle?
    ensures |c.x.popped| == |c.x.pushed|
  {
    S.EmptyTest(c.r, c.x, seen);
  }

  /** The ring's part of a step of the generator. */
  function RingAction(w: World, a: Action): S.Action<Frame>
    requires a.Push? || a.PushRefresh? || a.PushWrite? || a.PushPublish?
  {
    match a
    case Push => S.PushStart(if w.offered < |w.source| then w.source[w.offered] else NO_DRIVER.frame)
    case PushRefresh(seen) => S.PushRefresh(seen)
    case PushWrite => S.PushWrite
    case _ => S.PushPublish
  }

  lemma GeneratorSource(w: World, a: Action)
    requires Inv(w) && (a.Push? || a.PushRefresh? || a.PushWrite? || a.PushPublish?)
    ensures SourceOk(Step(w, a))
  {
    ProducerStep(w.ring, RingAction(w, a));
    IdleProducer(w.ring, RingAction(w, a));
    hide S.Inv, S.Step, ClaimsOk, PlaceOk;
  }

  lemma GeneratorInv(w: World, a: Action)
    requires Inv(w) && (a.Push? || a.PushRefresh? || a.PushWrite? || a.PushPublish?)
    ensures Inv(Step(w, a))
  {
    GeneratorSource(w, a);
    ProducerStep(w.ring, RingAction(w, a));
    hide S.Inv, S.Step, ClaimsOk, SourceOk;
    assert w.ring.x.popped == Step(w, a).ring.x.popped;
    if w.place.Done? {
      IdleKept(w, a);
    }
    ClaimsStay(w, Step(w, a));
  }

  /** The generator has nothing left to do once the consumer has ended. */
  lemma IdleKept(w: World, a: Action)
    requires Inv(w) && w.place.Done? && (a.Push? || a.PushRefresh? || a.PushWrite? || a.PushPublish?)
    ensures Step(w, a).ring == w.ring
  {
    IdleProducer(w.ring, RingAction(w, a));
    hide S.Inv, S.Step, ClaimsOk;
  }

  /** With no push under way, the generator's later steps do nothing. */
  lemma IdleProducer(c: S.Config<Frame>, a: S.Action<Frame>)
    ensures c.r.producer.PIdle? && (a.PushRefresh? || a.PushWrite? || a.PushPublish?) ==> S.Step(c, a) == c
    ensures a.PushRefresh? && !S.Step(c, a).r.producer.PIdle? ==> |InFlight(c.r.producer)| == 1
  {
  }

  /** Nothing a step of the ring's consumer side leaves alone bothers the claims, unless a frame comes out. */
  lemma ClaimsKept(w: World, w': World)
    requires ClaimsOk(w) && w'.claims == w.claims && w'.claimer == w.claimer && w'.drivers == w.drivers
    requires w'.place.Claiming? == w.place.Claiming?
    requires exists out :: w'.ring.x.popped == w.ring.x.popped + out && Unseen(w'.place) == Unseen(w.place) + out
    ensures ClaimsOk(w')
  {
    hide F.SoleOk, OffersOf;
    var out :| w'.ring.x.popped == w.ring.x.popped + out && Unseen(w'.place) == Unseen(w.place) + out;
    var seen :| w.ring.x.popped == seen + Unseen(w.place) && w.claims.x.offers == OffersOf(seen, w.drivers);
    assert w'.ring.x.popped == seen + Unseen(w'.place);
  }

  /** Nothing comes out. */
  lemma ClaimsStay(w: World, w': World)
    requires ClaimsOk(w) && w'.claims == w.claims && w'.claimer == w.claimer && w'.drivers == w.drivers
    requires w'.place.Claiming? == w.place.Claiming? && w'.ring.x.popped == w.ring.x.popped
    requires Unseen(w'.place) == Unseen(w.place)
    ensures ClaimsOk(w')
  {
    hide F.SoleOk, OffersOf;
    assert w'.ring.x.popped == w.ring.x.popped + [] && Unseen(w'.place) == Unseen(w.place) + [];
    ClaimsKept(w, w');
  }

  lemma OnRingInv(w: World, a: S.Action<Frame>)
    requires Inv(w) && w.place.Popping? && (a.PopStart? || a.PopRead?)
    ensures Inv(OnRing(w, a))
  {
    ConsumerStep(w.ring, a);
    hide S.Inv, S.Step, ClaimsOk;
    assert w.ring.x.popped + [] == w.ring.x.popped;
    ClaimsStay(w, OnRing(w, a));
  }

  lemma RefreshTailInv(w: World, seen: nat)
    requires Inv(w) && w.place.Popping?
    ensures Inv(RefreshTail(w, seen))
  {
    var w' := RefreshTail(w, seen);
    ConsumerStep(w.ring, S.PopRefresh(seen));
    if w'.place.Done? {
      RefreshedOnly(w.ring, seen);
      FreshRefusal(w.ring, seen);
    }
    hide S.Inv, S.Step, ClaimsOk;
    assert w.ring.x.popped + [] == w.ring.x.popped;
    ClaimsStay(w, w');
  }

  lemma RefreshedOnly(c: S.Config<Frame>, seen: nat)
    requires !c.r.consumer.CIdle? && S.Step(c, S.PopRefresh(seen)).r.consumer.CIdle?
    ensures c.r.consumer.CRefreshing?
  {
  }

  lemma TakeOutInv(w: World)
    requires Inv(w) && w.place.Popping? && w.ring.r.consumer.CReleasing?
    ensures Inv(TakeOut(w))
  {
    var w' := TakeOut(w);
    ConsumerStep(w.ring, S.PopRelease);
    hide S.Inv, S.Step, ClaimsOk;
    assert Unseen(w'.place) == Unseen(w.place) + [w.ring.r.consumer.out];
    ClaimsKept(w, w');
  }

  lemma OffersSnoc(frames: seq<Frame>, f: Frame, n: nat)
    ensures OffersOf(frames + [f], n)
         == OffersOf(frames, n) + (if IsOffer(f, n) then [F.Offer(f.driver, f.lapTime)] else [])
  {
    assert (frames + [f])[..|frames|] == frames;
  }

  lemma BeginEffect(c: F.Config, p: nat, driver: int, lap: real)
    requires F.SoleOk(c, p) && F.Pc(c.s, p).Outside?
    ensures var c' := F.Step(c, F.Begin(p, driver, lap));
      F.SoleOk(c', p) && F.Pc(c'.s, p).Deciding? && c'.x.offers == c.x.offers + [F.Offer(driver, lap)]
  {
    F.SoleStep(c, p, F.Begin(p, driver, lap));
    hide F.SoleOk;
  }

  lemma LookInv(w: World)
    requires Inv(w) && w.place.Popped?
    ensures Inv(Step(w, Look))
  {
    hide S.Inv, F.SoleOk, OffersOf, IsOffer, F.Step;
    var w' := Step(w, Look);
    var f := w.place.frame;
    var seen :| w.ring.x.popped == seen + [f] && w.claims.x.offers == OffersOf(seen, w.drivers);
    OffersSnoc(seen, f, w.drivers);
    BeginEffect(w.claims, w.claimer, f.driver, f.lapTime);
    assert w'.ring.x.popped == (seen + [f]) + Unseen(w'.place);
    assert w'.claims.x.offers == OffersOf(seen + [f], w.drivers);
  }

  lemma ClaimInv(w: World, a: F.Action)
    requires Inv(w) && w.place.Claiming? && (a.Attempt? || a.StoreHolder?) && a.p == w.claimer
    ensures Inv(ClaimStep(w, a))
  {
    var w' := ClaimStep(w, a);
    F.SoleStep(w.claims, w.claimer, a);
    hide S.Inv, F.SoleOk, OffersOf;
    assert w'.claims.x.offers == w.claims.x.offers;
    var seen :| w.ring.x.popped == seen + Unseen(w.place) && w.claims.x.offers == OffersOf(seen, w.drivers);
    assert w'.ring.x.popped == seen + Unseen(w'.place);
  }

  lemma ControlInv(w: World, a: Action)
    requires Inv(w) && (a.Test? || a.StopConsumer?)
    ensures Inv(Step(w, a))
  {
    hide S.Inv, ClaimsOk;
    ClaimsStay(w, Step(w, a));
  }

  lemma StepInv(w: World, a: Action)
    requires Inv(w)
    ensures Inv(Step(w, a))
  {
    match a
    case Push => GeneratorInv(w, a);
    case PushRefresh(_) => GeneratorInv(w, a);
    case PushWrite => GeneratorInv(w, a);
    case PushPublish => GeneratorInv(w, a);
    case PopStart => if w.place.Popping? { OnRingInv(w, S.PopStart); }
    case PopRefresh(seen) => if w.place.Popping? { RefreshTailInv(w, seen); }
    case PopRead => if w.place.Popping? { OnRingInv(w, S.PopRead); }
    case PopRelease => if w.place.Popping? && w.ring.r.consumer.CReleasing? { TakeOutInv(w); }
    case Look => if w.place.Popped? { LookInv(w); }
    case Attempt(spurious) => if w.place.Claiming? { ClaimInv(w, F.Attempt(w.claimer, spurious)); }
    case StoreHolder => if w.place.Claiming? { ClaimInv(w, F.StoreHolder(w.claimer)); }
    case _ => ControlInv(w, a);
  }

  lemma {:induction false} RunInv(w: World, actions: seq<Action>)
    requires Inv(w)
    ensures Inv(Run(w, actions))
    decreases |actions|
  {
    hide Inv;
    if actions != [] {
      StepInv(w, actions[0]);
      RunInv(Step(w, actions[0]), actions[1..]);
    }
  }

  lemma {:induction false} RunKeeps(w: World, actions: seq<Action>)
    ensures var v := Run(w, actions); v.source == w.source && v.drivers == w.drivers && v.claimer == w.claimer
    decreases |actions|
  {
    if actions != [] {
      RunKeeps(Step(w, actions[0]), actions[1..]);
    }
  }

  function After(log: nat, zero: Frame, source: seq<Frame>, drivers: nat, claimer: nat, actions: seq<Action>): World {
    Run(Init(log, zero, source, drivers, claimer), actions)
  }

  // ---------------------------------------------------------------- what every run guarantees

  /** However generator, consumer and main thread interleave, whatever stale indices they load and however often the
      exchange fails spuriously: when the consumer thread has ended, the ring is empty, every frame of the generator was
      refused or claimed, and the pair is what claiming the accepted frames in order yields; if none was refused, these
      are all the generator's frames. */
  lemma ConsumerClaimsAll(log: nat, zero: Frame, source: seq<Frame>, drivers: nat, claimer: nat, actions: seq<Action>)
    requires log >= 1 && After(log, zero, source, drivers, claimer, actions).place.Done?
    ensures var w := After(log, zero, source, drivers, claimer, actions);
      && w.ring.x.popped == w.ring.x.pushed
      && |w.ring.x.pushed| + w.refused == |source|
      && F.Claim(w.claims.s.best, w.claims.s.holder) == F.ClaimAll(OffersOf(w.ring.x.pushed, drivers))
      && (w.refused == 0 ==> w.ring.x.pushed == source)
  {
    InitInv(log, zero, source, drivers, claimer);
    RunInv(Init(log, zero, source, drivers, claimer), actions);
    RunKeeps(Init(log, zero, source, drivers, claimer), actions);
    var w := After(log, zero, source, drivers, claimer, actions);
    assert source[..|source|] == source;
    var seen :| w.ring.x.popped == seen + Unseen(w.place) && w.claims.x.offers == OffersOf(seen, w.drivers);
    assert seen == w.ring.x.popped;
  }

  // ---------------------------------------------------------------- some run gets everything through

  ghost predicate Reaches(v: World, w: World) {
    exists actions :: Run(v, actions) == w
  }

  lemma {:induction false} RunSnoc(w: World, actions: seq<Action>, a: Action)
    ensures Run(w, actions + [a]) == Step(Run(w, actions), a)
    decreases |actions|
  {
    if actions == [] {
      assert [a][1..] == [];
    } else {
      assert (actions + [a])[1..] == actions[1..] + [a];
      RunSnoc(Step(w, actions[0]), actions[1..], a);
    }
  }

  lemma ReachesSelf(w: World)
    ensures Reaches(w, w)
  {
    assert Run(w, []) == w;
  }

  lemma ReachesNext(v: World, w: World, a: Action)
    requires Reaches(v, w)
    ensures Reaches(v, Step(w, a))
  {
    var actions :| Run(v, actions) == w;
    RunSnoc(v, actions, a);
  }

  /** Reachable from v, and in order. */
  ghost predicate Gets(v: World, w: World) {
    Reaches(v, w) && Inv(w)
  }

  lemma GetsNext(v: World, w: World, a: Action)
    requires Gets(v, w)
    ensures Gets(v, Step(w, a))
  {
    hide Step, Inv, Reaches;
    StepInv(w, a);
    ReachesNext(v, w, a);
  }

  lemma GetsOnRing(v: World, w: World, a: S.Action<Frame>)
    requires Gets(v, w) && (a.PushWrite? || a.PushPublish? || (w.place.Popping? && (a.PopStart? || a.PopRead?)))
    ensures Gets(v, OnRing(w, a))
  {
    hide Gets, OnRing, RefreshHead, OfferNext, RefreshTail, TakeOut, LookAt, ClaimStep;
    GetsNext(v, w, match a
                   case PushWrite => PushWrite
                   case PushPublish => PushPublish
                   case PopStart => PopStart
                   case _ => PopRead);
  }

  lemma GetsPush(v: World, w: World, seen: nat)
    requires Gets(v, w)
    ensures Gets(v, RefreshHead(OfferNext(w), seen))
  {
    hide Gets, OnRing, RefreshHead, OfferNext, RefreshTail, TakeOut, LookAt, ClaimStep;
    GetsNext(v, w, Push);
    GetsNext(v, OfferNext(w), PushRefresh(seen));
  }

  lemma GetsPop(v: World, w: World, seen: nat)
    requires Gets(v, w)
    ensures w.place.AtTest? ==> Gets(v, w.(place := Popping(!w.stop)))
    ensures Gets(v, RefreshTail(w, seen)) && Gets(v, TakeOut(w)) && Gets(v, LookAt(w))
  {
    hide Gets, OnRing, RefreshHead, OfferNext, RefreshTail, TakeOut, LookAt, ClaimStep;
    GetsNext(v, w, Test);
    GetsNext(v, w, PopRefresh(seen));
    GetsNext(v, w, PopRelease);
    GetsNext(v, w, Look);
  }

  lemma GetsClaim(v: World, w: World)
    requires Gets(v, w)
    ensures Gets(v, ClaimStep(w, F.Attempt(w.claimer, false))) && Gets(v, ClaimStep(w, F.StoreHolder(w.claimer)))
  {
    hide Gets, OnRing, RefreshHead, OfferNext, RefreshTail, TakeOut, LookAt, ClaimStep;
    GetsNext(v, w, Attempt(false));
    GetsNext(v, w, StoreHolder);
  }

  /** The consumer is between two frames, and everything begun has been published and claimed. */
  ghost predicate UpToDate(w: World) {
    && Inv(w) && w.refused == 0
    && w.ring.r.producer.PIdle? && w.ring.r.consumer.CIdle?
    && w.ring.x.popped == w.ring.x.pushed
  }

  /** Where the generator's side of a ring with room stands during an undisturbed `push`. */
  lemma PushTakes(c: S.Config<Frame>, item: Frame)
    requires S.Inv(c) && c.r.producer.PIdle? && c.x.popped == c.x.pushed
    ensures var c1 := S.Step(c, S.PushStart(item));
      var c2 := S.Step(c1, S.PushRefresh(|c.x.popped|));
      var c4 := S.Step(S.Step(c2, S.PushWrite), S.PushPublish);
      && !c2.r.producer.PIdle? && c4.r.producer.PIdle? && c4.r.consumer == c.r.consumer
      && c4.x.pushed == c.x.pushed + [item] && c4.x.popped == c.x.popped
  {
    S.PushCallEffect(c, item);
    S.CapacityTwo(c.r.log);
    hide S.Inv;
  }

  /** The generator's next push, undisturbed. */
  function PushOne(w: World): World {
    OnRing(OnRing(RefreshHead(OfferNext(w), |w.ring.x.popped|), S.PushWrite), S.PushPublish)
  }

  lemma PushOneEffect(w: World)
    requires UpToDate(w) && w.place.AtTest? && w.offered < |w.source|
    ensures var v := PushOne(w);
      && Gets(w, v) && v.ring.r.producer.PIdle? && v.ring.x.popped == w.ring.x.popped
      && v == w.(ring := v.ring, offered := w.offered + 1)
      && v.ring.x.pushed == w.ring.x.pushed + [w.source[w.offered]]
  {
    PushTakes(w.ring, w.source[w.offered]);
    ReachesSelf(w);
    hide Inv, S.Step, Reaches, Step;
    assert Gets(w, w);
    hide Gets;
    var w2 := RefreshHead(OfferNext(w), |w.ring.x.popped|);
    GetsPush(w, w, |w.ring.x.popped|);
    GetsOnRing(w, w2, S.PushWrite);
    GetsOnRing(w, OnRing(w2, S.PushWrite), S.PushPublish);
  }

  /** Where the consumer's side of a ring that holds something stands during an undisturbed `pop`. */
  lemma PopTakes(c: S.Config<Frame>)
    requires S.Inv(c) && c.r.consumer.CIdle? && |c.x.popped| < |c.x.pushed|
    ensures |c.x.tails| == |c.x.pushed| + 1
    ensures var c1 := S.Step(c, S.PopStart);
      var c2 := S.Step(c1, S.PopRefresh(|c.x.pushed|));
      var c3 := S.Step(c2, S.PopRead);
      var c4 := S.Step(c3, S.PopRelease);
      && !c2.r.consumer.CIdle? && c3.r.consumer.CReleasing? && c4.r.consumer.CIdle?
      && c4.r.producer == c.r.producer && c4.x.pushed == c.x.pushed && |c4.x.popped| == |c.x.popped| + 1
  {
    S.StepInv(c, S.PopStart);
    S.EmptyTest(c.r, c.x, |c.x.pushed|);
    S.EmptyTest(c.r, c.x, c.x.seenTail);
  }

  /** The consumer's next pop, undisturbed, up to the frame being out. */
  function PopOne(w: World): World {
    var v := OnRing(w.(place := Popping(true)), S.PopStart);
    TakeOut(OnRing(RefreshTail(v, |w.ring.x.pushed|), S.PopRead))
  }

  lemma PopOneEffect(w: World)
    requires Inv(w) && w.place.AtTest? && !w.stop && |w.ring.x.popped| < |w.ring.x.pushed|
    ensures var v := PopOne(w);
      && Gets(w, v) && v.place.Popped? && v.place.live
      && v == w.(ring := v.ring, place := v.place)
      && v.ring.r.producer == w.ring.r.producer
      && v.ring.x.pushed == w.ring.x.pushed && |v.ring.x.popped| == |w.ring.x.popped| + 1
  {
    PopTakes(w.ring);
    ReachesSelf(w);
    hide Inv, S.Step, Reaches, Step;
    assert Gets(w, w);
    hide Gets;
    var seen := |w.ring.x.pushed|;
    var w1 := w.(place := Popping(true));
    var w2 := OnRing(w1, S.PopStart);
    var w3 := RefreshTail(w2, seen);
    GetsPop(w, w, 0);
    GetsOnRing(w, w1, S.PopStart);
    GetsPop(w, w2, seen);
    GetsOnRing(w, w3, S.PopRead);
    GetsPop(w, OnRing(w3, S.PopRead), 0);
  }

  /** The consumer's dealing with the frame that is out, undisturbed and without spurious failures. */
  function ClaimOne(w: World): World {
    ClaimStep(ClaimStep(LookAt(w), F.Attempt(w.claimer, false)), F.StoreHolder(w.claimer))
  }

  lemma ClaimOneEffect(w: World)
    requires Inv(w) && w.place.Popped? && w.place.live
    ensures var v := ClaimOne(w);
      Gets(w, v) && v.place.AtTest? && v == w.(claims := v.claims, place := v.place)
  {
    NoCallOpen(w);
    ClaimOnePlace(w);
    ReachesSelf(w);
    hide Inv, Reaches, Step, LookAt, ClaimStep;
    assert Gets(w, w);
    hide Gets;
    GetsPop(w, w, 0);
    GetsClaim(w, LookAt(w));
    GetsClaim(w, ClaimStep(LookAt(w), F.Attempt(w.claimer, false)));
  }

  lemma ClaimOnePlace(w: World)
    requires F.SoleOk(w.claims, w.claimer) && F.Pc(w.claims.s, w.claimer).Outside?
    requires w.place.Popped? && w.place.live
    ensures var v := ClaimOne(w); v.place.AtTest? && v == w.(claims := v.claims, place := v.place)
    ensures LookAt(w).claimer == w.claimer
    ensures ClaimStep(LookAt(w), F.Attempt(w.claimer, false)).claimer == w.claimer
  {
    var f := w.place.frame;
    CallEnds(w.claims, w.claimer, f.driver, f.lapTime);
    hide F.Step, F.Pc, F.SoleOk, IsOffer;
  }

  lemma NoCallOpen(w: World)
    requires Inv(w) && !w.place.Claiming?
    ensures F.SoleOk(w.claims, w.claimer) && F.Pc(w.claims.s, w.claimer).Outside?
  {
  }

  lemma CallEnds(c: F.Config, p: nat, driver: int, lap: real)
    requires F.SoleOk(c, p) && F.Pc(c.s, p).Outside?
    ensures var c1 := F.Step(c, F.Begin(p, driver, lap));
      var c2 := F.Step(c1, F.Attempt(p, false));
      && !F.Pc(c1.s, p).Outside?
      && (!F.Pc(c2.s, p).Outside? ==> F.Pc(F.Step(c2, F.StoreHolder(p)).s, p).Outside?)
  {
  }

  /** The next frame goes through. */
  lemma FrameThrough(w: World) returns (v: World)
    requires UpToDate(w) && w.place.AtTest? && !w.stop && w.offered < |w.source|
    ensures Reaches(w, v) && UpToDate(v) && v.place.AtTest? && !v.stop
    ensures v.source == w.source && v.offered == w.offered + 1
  {
    var w1 := PushOne(w);
    PushOneEffect(w);
    var w2 := PopOne(w1);
    PopOneEffect(w1);
    v := ClaimOne(w2);
    ClaimOneEffect(w2);
    hide Reaches, PushOne, PopOne, ClaimOne, SourceOk, ClaimsOk;
    ReachesThrough(w, w1, w2);
    ReachesThrough(w, w2, v);
    SamePopped(v.ring);
  }

  lemma SamePopped(c: S.Config<Frame>)
    requires S.Inv(c) && |c.x.popped| == |c.x.pushed|
    ensures c.x.popped == c.x.pushed
  {
  }

  lemma {:induction false} RunConcat(w: World, a: seq<Action>, b: seq<Action>)
    ensures Run(w, a + b) == Run(Run(w, a), b)
    decreases |a|
  {
    if a == [] {
      assert a + b == b;
    } else {
      assert (a + b)[1..] == a[1..] + b;
      RunConcat(Step(w, a[0]), a[1..], b);
    }
  }

  lemma ReachesThrough(u: World, v: World, w: World)
    requires Reaches(u, v) && Reaches(v, w)
    ensures Reaches(u, w)
  {
    var a :| Run(u, a) == v;
    var b :| Run(v, b) == w;
    RunConcat(u, a, b);
  }

  /** Where an empty ring's consumer side stands during an undisturbed `pop`. */
  lemma PopFindsNothing(c: S.Config<Frame>)
    requires S.Inv(c) && c.r.consumer.CIdle? && c.x.popped == c.x.pushed
    ensures |c.x.tails| == |c.x.pushed| + 1
    ensures var c1 := S.Step(c, S.PopStart);
      && c1.r.consumer.CRefreshing? && c1.x == c.x
      && S.Step(c1, S.PopRefresh(|c.x.pushed|)).r.consumer.CIdle?
      && S.Step(c1, S.PopRefresh(|c.x.pushed|)).x.pushed == c.x.pushed
  {
    S.EmptyTest(c.r, c.x, |c.x.pushed|);
  }

  /** Once all frames are through, the consumer can be stopped and ends. */
  lemma ThreadEnds(w: World) returns (v: World)
    requires UpToDate(w) && w.place.AtTest? && w.offered == |w.source|
    ensures Reaches(w, v) && v.place.Done? && v.refused == 0
  {
    PopFindsNothing(w.ring);
    ReachesSelf(w);
    assert Gets(w, w);
    hide Inv, Reaches, S.Step, Step;
    GetsNext(w, w, StopConsumer);
    var w1 := w.(stop := true);
    assert Gets(w, w1) by { StopNow(w); }
    GetsPop(w, w1, 0);
    var w2 := w1.(place := Popping(false));
    GetsOnRing(w, w2, S.PopStart);
    var seen := |w.ring.x.pushed|;
    GetsPop(w, OnRing(w2, S.PopStart), seen);
    v := RefreshTail(OnRing(w2, S.PopStart), seen);
  }

  lemma StopNow(w: World)
    requires w.offered == |w.source| && w.ring.r.producer.PIdle?
    ensures Step(w, StopConsumer) == w.(stop := true)
  {
  }

  lemma {:induction false} AllThrough(w: World) returns (v: World)
    requires UpToDate(w) && w.place.AtTest? && !w.stop && w.offered <= |w.source|
    ensures Reaches(w, v) && v.place.Done? && v.refused == 0
    decreases |w.source| - w.offered
  {
    hide UpToDate, Reaches;
    if w.offered == |w.source| {
      v := ThreadEnds(w);
    } else {
      var w1 := FrameThrough(w);
      v := AllThrough(w1);
      ReachesThrough(w, w1, v);
    }
  }

  /** Whatever the generator's frames and the ring's capacity, in some run the ring refuses none of them and the
      consumer thread ends. */
  lemma SomeRunEnds(log: nat, zero: Frame, source: seq<Frame>, drivers: nat, claimer: nat)
    returns (actions: seq<Action>)
    requires log >= 1
    ensures var w := After(log, zero, source, drivers, claimer, actions); w.place.Done? && w.refused == 0
  {
    var init := Init(log, zero, source, drivers, claimer);
    InitInv(log, zero, source, drivers, claimer);
    var v := AllThrough(init);
    actions :| Run(init, actions) == v;
  }
}
