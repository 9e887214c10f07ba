/**
 The program's use of the pool: once a tick the generator thread may hand over a track-limits check and a weather
 update, each guarded by the future of its previous submission.

 The generator's callback is cut where the pool's workers and the main thread can run in between.  The main thread has
 its own program counter: it asks the generator to stop, joins it, and destroys the pool on leaving its scope.
 */
module SingleFlight {
  import opened Options
  import Pool = PoolSteps

  datatype Job = TrackLimits(lap: int) | Weather(lap: int)

  /** Where the generator thread stands. */
  datatype Place = BetweenTicks | AtTrackLimits | AtTrackNotify | AtWeather | AtWeatherNotify | Exited

  /** Where the main thread stands: watching the race; inside `generator.stop()`; past it, leaving its scope. */
  datatype Main = Watching | Stopping | Leaving

  datatype World = World(
    pool: Pool.Config<Job>,
    ticks: nat,
    trackFuture: Option<nat>,       // which accepted submission the future belongs to; None: not valid
    weatherFuture: Option<nat>,
    place: Place,
    main: Main,
    trackOffers: nat,               // how often the track-limits guard has been looked at
    weatherOffers: nat)             // and the weather guard

  datatype Action =
    | BeginTick                     // the loop test finds no stop request and the race not finished
    | LeaveLoop                     // the loop test finds a stop request or the race finished
    | OfferTrackLimits(lap: int)
    | OfferWeather(lap: int)
    | Notify(w: nat)
    | RequestStop
    | JoinGenerator
    | PoolSide(a: Pool.Action<Job>) // a worker's step, or the pool's destructor on the main thread

  const TRACK_LIMITS_PERIOD: nat := 9

  /** `!future.valid() || future.wait_for(0) == ready`. */
  predicate IsIdle(w: World, future: Option<nat>) {
    future.None? || future.value in w.pool.x.finished
  }

  function SubmitJob(w: World, job: Job): Pool.Config<Job> {
    Pool.Step(w.pool, Pool.Submit(job))
  }

  function Step(w: World, a: Action): World {
    match a
    case BeginTick =>
      if !w.place.BetweenTicks? || !w.main.Watching? then w
      else w.(ticks := w.ticks + 1,
              place := if (w.ticks + 1) % TRACK_LIMITS_PERIOD == 0 then AtTrackLimits else AtWeather)
    case LeaveLoop =>
      if w.place.BetweenTicks? then w.(place := Exited) else w
    case OfferTrackLimits(lap) =>
      if !w.place.AtTrackLimits? then w
      else if IsIdle(w, w.trackFuture)
      then w.(trackFuture := Some(|w.pool.x.accepted|), pool := SubmitJob(w, TrackLimits(lap)), place := AtTrackNotify,
              trackOffers := w.trackOffers + 1)
      else w.(place := AtWeather, trackOffers := w.trackOffers + 1)
    case OfferWeather(lap) =>
      if !w.place.AtWeather? then w
      else if IsIdle(w, w.weatherFuture)
      then w.(weatherFuture := Some(|w.pool.x.accepted|), pool := SubmitJob(w, Weather(lap)), place := AtWeatherNotify,
              weatherOffers := w.weatherOffers + 1)
      else w.(place := BetweenTicks, weatherOffers := w.weatherOffers + 1)
    case Notify(v) =>
      var pool := Pool.Step(w.pool, Pool.NotifyOne(v));
      if !(w.place.AtTrackNotify? || w.place.AtWeatherNotify?) || pool == w.pool then w
      else w.(pool := pool, place := if w.place.AtTrackNotify? then AtWeather else BetweenTicks)
    case RequestStop =>
      if w.main.Watching? then w.(main := Stopping) else w
    case JoinGenerator =>
      if w.main.Stopping? && w.place.Exited? then w.(main := Leaving) else w
    case PoolSide(b) =>
      if b.Submit? || b.NotifyOne? || (!w.main.Leaving? && (b.Stop? || b.NotifyAll? || b.Join?)) then w
      else w.(pool := Pool.Step(w.pool, b))
  }

  function Run(w: World, actions: seq<Action>): World
    decreases |actions|
  {
    if actions == [] then w else Run(Step(w, actions[0]), actions[1..])
  }

  function Init(n: nat): World {
    World(Pool.Init(n), 0, None, None, BetweenTicks, Watching, 0, 0)
  }

  // ---------------------------------------------------------------- the invariant

  /** A submission is over, or it is the one the matching future belongs to. */
  ghost predicate Covered(w: World, k: nat)
    requires k < |w.pool.x.accepted|
  {
    || k in w.pool.x.finished
    || (w.pool.x.accepted[k].TrackLimits? && w.trackFuture == Some(k))
    || (w.pool.x.accepted[k].Weather? && w.weatherFuture == Some(k))
  }

  ghost predicate Inv(w: World) {
    && Pool.Inv(w.pool)
    && (w.pool.s.stop ==> w.main.Leaving?)
    && (w.main.Leaving? ==> w.place.Exited?)
    && (forall k {:trigger Covered(w, k)} :: 0 <= k < |w.pool.x.accepted| ==> Covered(w, k))
  }

  lemma StepInv(w: World, a: Action)
    requires Inv(w)
    ensures Inv(Step(w, a))
  {
    var w' := Step(w, a);
    StepPool(w, a);
    hide Pool.Inv, Pool.StepState, Pool.StepAux;
    forall k | 0 <= k < |w'.pool.x.accepted| ensures Covered(w', k) {
      if k < |w.pool.x.accepted| {
        assert Covered(w, k);
      }
    }
  }

  /** A submission adds its job unless the pool is stopped; any other step of the pool adds none; nothing finished is
      forgotten. */
  lemma PoolKeeps(c: Pool.Config<Job>, a: Pool.Action<Job>)
    ensures var c' := Pool.Step(c, a);
      && c'.x.accepted == c.x.accepted + (if a.Submit? && !c.s.stop then [a.task] else [])
      && (forall k :: k in c.x.finished ==> k in c'.x.finished)
      && (c'.s.stop == c.s.stop || a.Stop?)
  {
  }

  /** Every step of the program is at most one step of the pool. */
  function PoolAction(a: Action): Pool.Action<Job> {
    match a
    case OfferTrackLimits(lap) => Pool.Submit(TrackLimits(lap))
    case OfferWeather(lap) => Pool.Submit(Weather(lap))
    case Notify(v) => Pool.NotifyOne(v)
    case PoolSide(b) => b
    case _ => Pool.Join
  }

  lemma StepPool(w: World, a: Action)
    requires Inv(w)
    ensures Pool.Inv(Step(w, a).pool)
    ensures Step(w, a).pool == w.pool || Step(w, a).pool == Pool.Step(w.pool, PoolAction(a))
    ensures var x, x' := w.pool.x, Step(w, a).pool.x;
      x.accepted <= x'.accepted && forall k :: k in x.finished ==> k in x'.finished
    ensures !a.OfferTrackLimits? && !a.OfferWeather? ==> Step(w, a).pool.x.accepted == w.pool.x.accepted
    ensures a.OfferTrackLimits? || a.OfferWeather? ==>
      Step(w, a).pool.x.accepted == w.pool.x.accepted
      || Step(w, a).pool.x.accepted == w.pool.x.accepted + [PoolAction(a).task]
    ensures Step(w, a).pool.s.stop == w.pool.s.stop || (a.PoolSide? && a.a.Stop?)
  {
    hide Pool.Inv, Pool.StepState, Pool.StepAux;
    Pool.StepInv(w.pool, PoolAction(a));
    PoolKeeps(w.pool, PoolAction(a));
  }

  lemma {:induction false} RunInv(w: World, actions: seq<Action>)
    requires Inv(w)
    ensures Inv(Run(w, actions))
    decreases |actions|
  {
    if actions != [] {
      StepInv(w, actions[0]);
      RunInv(Step(w, actions[0]), actions[1..]);
    }
  }

  lemma Reachable(n: nat, actions: seq<Action>)
    ensures Inv(Run(Init(n), actions))
  {
    Pool.InitInv<Job>(n);
    RunInv(Init(n), actions);
  }

  predicate SameKind(a: Job, b: Job) {
    a.TrackLimits? == b.TrackLimits?
  }

  /** Submission k is queued or being run. */
  ghost predicate Outstanding(w: World, k: nat) {
    k < |w.pool.x.accepted| && k !in w.pool.x.finished
  }

  /** A submission a worker is running is outstanding. */
  lemma RunningIsOutstanding(w: World, v: nat)
    requires Inv(w) && v < |w.pool.s.workers| && w.pool.s.workers[v].Running?
    ensures v in w.pool.x.ticket && w.pool.x.ticket[v] < |w.pool.x.started| && Outstanding(w, w.pool.x.ticket[v])
    ensures w.pool.x.accepted[w.pool.x.ticket[v]] == w.pool.s.workers[v].task
  {
    assert Pool.Holds(w.pool.s, w.pool.x, v);
  }

  /** A queued submission is outstanding. */
  lemma QueuedIsOutstanding(w: World, i: nat)
    requires Inv(w) && i < |w.pool.s.tasks|
    ensures Outstanding(w, |w.pool.x.started| + i)
    ensures w.pool.x.accepted[|w.pool.x.started| + i] == w.pool.s.tasks[i]
  {
  }

  /** In every reachable state, at most one submission of each kind is outstanding. */
  lemma OneOfEachKind(n: nat, actions: seq<Action>, j: nat, k: nat)
    requires var w := Run(Init(n), actions);
      Outstanding(w, j) && Outstanding(w, k) && SameKind(w.pool.x.accepted[j], w.pool.x.accepted[k])
    ensures j == k
  {
    Reachable(n, actions);
    var w := Run(Init(n), actions);
    assert Covered(w, j) && Covered(w, k);
  }

  /** In every reachable state of the generator and a pool of any size: no two workers run jobs of the same kind, no
      job is queued while one of its kind runs or is queued, and the queue holds at most two jobs. */
  lemma NeverEnteredTwice(n: nat, actions: seq<Action>)
    ensures var s := Run(Init(n), actions).pool.s;
      && (forall u, v :: 0 <= u < v < |s.workers| && s.workers[u].Running? && s.workers[v].Running? ==>
            !SameKind(s.workers[u].task, s.workers[v].task))
      && (forall v, i :: 0 <= v < |s.workers| && s.workers[v].Running? && 0 <= i < |s.tasks| ==>
            !SameKind(s.workers[v].task, s.tasks[i]))
      && (forall i, j :: 0 <= i < j < |s.tasks| ==> !SameKind(s.tasks[i], s.tasks[j]))
      && |s.tasks| <= 2
  {
    Reachable(n, actions);
    var w := Run(Init(n), actions);
    var s, x := w.pool.s, w.pool.x;
    hide Pool.Inv, Run;
    assert |s.tasks| > 2 ==>
      SameKind(s.tasks[0], s.tasks[1]) || SameKind(s.tasks[1], s.tasks[2]) || SameKind(s.tasks[0], s.tasks[2]);
    forall u, v | 0 <= u < v < |s.workers| && s.workers[u].Running? && s.workers[v].Running?
      ensures !SameKind(s.workers[u].task, s.workers[v].task)
    {
      RunningIsOutstanding(w, u);
      RunningIsOutstanding(w, v);
      TicketsDiffer(w, u, v);
      if SameKind(s.workers[u].task, s.workers[v].task) {
        OneOfEachKind(n, actions, x.ticket[u], x.ticket[v]);
      }
    }
    forall v, i | 0 <= v < |s.workers| && s.workers[v].Running? && 0 <= i < |s.tasks|
      ensures !SameKind(s.workers[v].task, s.tasks[i])
    {
      RunningIsOutstanding(w, v);
      QueuedIsOutstanding(w, i);
      if SameKind(s.workers[v].task, s.tasks[i]) {
        OneOfEachKind(n, actions, x.ticket[v], |x.started| + i);
      }
    }
    forall i, j | 0 <= i < j < |s.tasks| ensures !SameKind(s.tasks[i], s.tasks[j]) {
      QueuedIsOutstanding(w, i);
      QueuedIsOutstanding(w, j);
      if SameKind(s.tasks[i], s.tasks[j]) {
        OneOfEachKind(n, actions, |x.started| + i, |x.started| + j);
      }
    }
  }

  lemma TicketsDiffer(w: World, u: nat, v: nat)
    requires Inv(w) && u < v < |w.pool.s.workers| && w.pool.s.workers[u].Running? && w.pool.s.workers[v].Running?
    ensures u in w.pool.x.ticket && v in w.pool.x.ticket && w.pool.x.ticket[u] != w.pool.x.ticket[v]
  {
    assert Pool.Holds(w.pool.s, w.pool.x, u) && Pool.Holds(w.pool.s, w.pool.x, v);
  }

  /** Whatever the main thread and the workers are doing, a job the generator offers while the previous one of its kind
      is over is accepted, last in line, and its kind's future is the one that belongs to it; otherwise nothing is
      submitted. */
  lemma SubmissionNeverRefused(n: nat, actions: seq<Action>, lap: int)
    ensures var w := Run(Init(n), actions); var w' := Step(w, OfferTrackLimits(lap));
      w.place.AtTrackLimits? ==>
        if IsIdle(w, w.trackFuture)
        then w'.pool.x.accepted == w.pool.x.accepted + [TrackLimits(lap)]
             && w'.pool.s.tasks == w.pool.s.tasks + [TrackLimits(lap)]
             && w'.trackFuture == Some(|w.pool.x.accepted|)
        else w'.pool == w.pool
    ensures var w := Run(Init(n), actions); var w' := Step(w, OfferWeather(lap));
      w.place.AtWeather? ==>
        if IsIdle(w, w.weatherFuture)
        then w'.pool.x.accepted == w.pool.x.accepted + [Weather(lap)]
             && w'.pool.s.tasks == w.pool.s.tasks + [Weather(lap)]
             && w'.weatherFuture == Some(|w.pool.x.accepted|)
        else w'.pool == w.pool
  {
    Reachable(n, actions);
  }

  lemma {:induction false} SameWorkers(w: World, actions: seq<Action>)
    ensures |Run(w, actions).pool.s.workers| == |w.pool.s.workers|
    decreases |actions|
  {
    if actions != [] {
      SameWorkers(Step(w, actions[0]), actions[1..]);
    }
  }

  /** When the pool of a program with workers has been destroyed, every job the generator ever submitted has been run
      exactly once, and the generator is gone. */
  lemma ProgramEndRunsAll(n: nat, actions: seq<Action>)
    requires n >= 1 && Run(Init(n), actions).pool.s.destructor == Pool.Joining(n)
    ensures var w := Run(Init(n), actions);
      && w.place.Exited?
      && forall k :: 0 <= k < |w.pool.x.accepted| ==> Pool.RunOnce(w.pool.x.finished, k)
  {
    Reachable(n, actions);
    SameWorkers(Init(n), actions);
    Pool.JoinedRunsAll(Run(Init(n), actions).pool);
  }

  // ---------------------------------------------------------------- how often the guards are looked at

  /** Every ninth tick so far has looked at the track-limits guard, and every tick at the weather guard, up to the tick
      that is under way. */
  predicate InCadence(w: World) {
    && w.trackOffers + (if w.place.AtTrackLimits? then 1 else 0) == w.ticks / 9
    && w.weatherOffers + (if w.place.AtTrackLimits? || w.place.AtTrackNotify? || w.place.AtWeather? then 1 else 0)
       == w.ticks
  }

  lemma StepCadence(w: World, a: Action)
    requires InCadence(w)
    ensures InCadence(Step(w, a))
  {
    hide Pool.StepState, Pool.StepAux;
  }

  lemma {:induction false} RunCadence(w: World, actions: seq<Action>)
    requires InCadence(w)
    ensures InCadence(Run(w, actions))
    decreases |actions|
  {
    hide Step, InCadence;
    if actions != [] {
      StepCadence(w, actions[0]);
      RunCadence(Step(w, actions[0]), actions[1..]);
    }
  }

  /** In every run, between two ticks the track-limits guard has been looked at once for every nine ticks, and the
      weather guard once for every tick. */
  lemma OffersInCadence(n: nat, actions: seq<Action>)
    requires !Run(Init(n), actions).place.AtTrackLimits?
    ensures var w := Run(Init(n), actions);
      && w.trackOffers == w.ticks / 9
      && (w.place.BetweenTicks? || w.place.AtWeatherNotify? ==> w.weatherOffers == w.ticks)
  {
    RunCadence(Init(n), actions);
  }

  /** The generator owes the pool one notification while it stands at it, and none otherwise. */
  predicate OwesNotification(w: World) {
    w.pool.s.notifying == (if w.place.AtTrackNotify? || w.place.AtWeatherNotify? then 1 else 0)
  }

  lemma StepOwes(w: World, a: Action)
    requires Inv(w) && OwesNotification(w)
    ensures OwesNotification(Step(w, a))
  {
    assert w.pool.s.stop ==> w.place.Exited?;
    hide Inv;
  }

  lemma {:induction false} RunOwes(w: World, actions: seq<Action>)
    requires Inv(w) && OwesNotification(w)
    ensures OwesNotification(Run(w, actions))
    decreases |actions|
  {
    if actions != [] {
      StepInv(w, actions[0]);
      StepOwes(w, actions[0]);
      hide Step, Inv, OwesNotification;
      RunOwes(Step(w, actions[0]), actions[1..]);
    }
  }

  /** What the generator does next in a tick: every ninth tick goes to the track-limits guard first, every tick goes to
      the weather guard, and whatever the workers do there is a step that takes it on. */
  lemma TickGoesOn(n: nat, actions: seq<Action>, lap: int) returns (a: Action)
    requires var w := Run(Init(n), actions); !w.place.Exited? && (w.place.BetweenTicks? ==> w.main.Watching?)
    ensures var w := Run(Init(n), actions); var w' := Step(w, a);
      match w.place
      case BetweenTicks =>
        w'.ticks == w.ticks + 1 && w'.place == if (w.ticks + 1) % 9 == 0 then AtTrackLimits else AtWeather
      case AtTrackLimits => w'.place == AtTrackNotify || w'.place == AtWeather
      case AtTrackNotify => w'.place == AtWeather
      case AtWeather => w'.place == AtWeatherNotify || w'.place == BetweenTicks
      case AtWeatherNotify => w'.place == BetweenTicks
  {
    Reachable(n, actions);
    RunOwes(Init(n), actions);
    var w := Run(Init(n), actions);
    hide Inv, Run;
    match w.place
    case BetweenTicks => a := BeginTick;
    case AtTrackLimits => a := OfferTrackLimits(lap);
    case AtWeather => a := OfferWeather(lap);
    case _ =>
      var v := SomeSleeper(w.pool.s);
      a := Notify(v);
  }

  /** A worker for a notification to wake, if any sleeps. */
  lemma SomeSleeper(s: Pool.State<Job>) returns (v: nat)
    ensures s.notifying > 0 ==> Pool.StepState(s, Pool.NotifyOne(v)).notifying == s.notifying - 1
  {
    if w :| 0 <= w < |s.workers| && s.workers[w].Sleeping? {
      v := w;
    } else {
      v := |s.workers|;
    }
  }
}
