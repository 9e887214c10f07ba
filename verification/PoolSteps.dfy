/**
 The thread pool as a monitor protocol.

 Everything done while holding the mutex is one step, and so is each notification; between steps any other thread
 may run.  The number of workers and of submitting threads is arbitrary, and a sleeping worker may wake spuriously.
 */
module PoolSteps {

  /** Checking: about to take the lock and test the wait predicate.  Sleeping: blocked in `cv_.wait`. */
  datatype Worker<T> = Checking | Sleeping | Running(task: T) | Exited

  /** The destructor: `stop_` not set; set, with `notify_all` to come; joining worker `i`. */
  datatype Destructor = NotCalled | Stopping | Joining(i: nat)

  datatype State<T> = State(
    tasks: seq<T>,
    stop: bool,
    workers: seq<Worker<T>>,
    notifying: nat,             // submitters between releasing the lock and `notify_one`
    destructor: Destructor)

  /** A started task is known by its ticket, its index in `started`. */
  datatype Aux<T> = Aux(
    accepted: seq<T>,           // tasks enqueued by `submit`, in order
    started: seq<T>,            // tasks dequeued, in order
    owner: seq<nat>,            // which worker dequeued the k-th of them
    ticket: map<nat, nat>,      // which task a worker dequeued last
    finished: seq<nat>)         // tickets of the tasks run to the end, in order of finishing

  datatype Config<T> = Config(s: State<T>, x: Aux<T>)

  datatype Action<T> =
    | Submit(task: T)           // the critical section of submit; throws, changing nothing, once stop_ is set
    | NotifyOne(w: nat)         // wakes worker w; if no worker sleeps it is lost
    | Spurious(w: nat)
    | Check(w: nat)             // the critical section of worker_loop
    | Finish(w: nat)
    | Stop
    | NotifyAll
    | Join

  function Awake<T>(w: Worker<T>): Worker<T> {
    if w.Sleeping? then Checking else w
  }

  predicate SomeSleeps<T>(ws: seq<Worker<T>>) {
    exists w :: 0 <= w < |ws| && ws[w].Sleeping?
  }

  function WakeAll<T>(ws: seq<Worker<T>>): (r: seq<Worker<T>>)
    ensures |r| == |ws| && forall i :: 0 <= i < |ws| ==> r[i] == Awake(ws[i])
  {
    seq(|ws|, i requires 0 <= i < |ws| => Awake(ws[i]))
  }

  function StepState<T>(s: State<T>, a: Action<T>): State<T> {
    match a
    case Submit(task) =>
      if s.stop then s else s.(tasks := s.tasks + [task], notifying := s.notifying + 1)
    case NotifyOne(w) =>
      if s.notifying == 0 then s
      else if w < |s.workers| && s.workers[w].Sleeping?
      then s.(workers := s.workers[w := Checking], notifying := s.notifying - 1)
      else if SomeSleeps(s.workers) then s
      else s.(notifying := s.notifying - 1)
    case Spurious(w) =>
      if w < |s.workers| && s.workers[w].Sleeping? then s.(workers := s.workers[w := Checking]) else s
    case Check(w) =>
      if w < |s.workers| && s.workers[w].Checking? then
        if !(s.stop || s.tasks != []) then s.(workers := s.workers[w := Sleeping])
        else if s.stop && s.tasks == [] then s.(workers := s.workers[w := Exited])
        else s.(workers := s.workers[w := Running(s.tasks[0])], tasks := s.tasks[1..])
      else s
    case Finish(w) =>
      if w < |s.workers| && s.workers[w].Running? then s.(workers := s.workers[w := Checking]) else s
    case Stop =>
      if s.destructor.NotCalled? then s.(stop := true, destructor := Stopping) else s
    case NotifyAll =>
      if s.destructor.Stopping?
      then s.(workers := WakeAll(s.workers), destructor := Joining(0)) else s
    case Join =>
      if s.destructor.Joining? && s.destructor.i < |s.workers| && s.workers[s.destructor.i].Exited?
      then s.(destructor := Joining(s.destructor.i + 1)) else s
  }

  function StepAux<T>(s: State<T>, x: Aux<T>, a: Action<T>): Aux<T> {
    match a
    case Submit(task) => if s.stop then x else x.(accepted := x.accepted + [task])
    case Check(w) =>
      if w < |s.workers| && s.workers[w].Checking? && s.tasks != []
      then x.(started := x.started + [s.tasks[0]], owner := x.owner + [w], ticket := x.ticket[w := |x.started|])
      else x
    case Finish(w) =>
      if w < |s.workers| && s.workers[w].Running? && w in x.ticket
      then x.(finished := x.finished + [x.ticket[w]]) else x
    case _ => x
  }

  function Step<T>(c: Config<T>, a: Action<T>): Config<T> {
    Config(StepState(c.s, a), StepAux(c.s, c.x, a))
  }

  function Run<T>(c: Config<T>, actions: seq<Action<T>>): Config<T>
    decreases |actions|
  {
    if actions == [] then c else Run(Step(c, actions[0]), actions[1..])
  }

  /** The constructor starts n workers. */
  function Init<T>(n: nat): Config<T> {
    Config(State([], false, seq(n, _ => Checking), 0, NotCalled), Aux([], [], [], map[], []))
  }

  // ---------------------------------------------------------------- sums over the workers

  function IsChecking<T>(w: Worker<T>): nat {
    if w.Checking? then 1 else 0
  }

  /** Steps a worker still has in it: a running task returns to the check, a check ends in an exit or a task. */
  function Weight<T>(w: Worker<T>): nat {
    match w
    case Checking => 1
    case Running(_) => 2
    case _ => 0
  }

  function Sum<T>(ws: seq<Worker<T>>, f: Worker<T> -> nat): nat {
    if ws == [] then 0 else Sum(ws[..|ws| - 1], f) + f(ws[|ws| - 1])
  }

  lemma {:induction false} SumUpdate<T>(ws: seq<Worker<T>>, w: nat, v: Worker<T>, f: Worker<T> -> nat)
    requires w < |ws|
    ensures Sum(ws[w := v], f) + f(ws[w]) == Sum(ws, f) + f(v)
  {
    var n := |ws| - 1;
    if w == n {
      assert ws[w := v][..n] == ws[..n];
    } else {
      SumUpdate(ws[..n], w, v, f);
      assert ws[w := v][..n] == ws[..n][w := v];
    }
  }

  // ---------------------------------------------------------------- the inductive invariant

  /** While some worker sleeps, every queued task has a worker on its way to the check, or a notification on its way. */
  ghost predicate WakeupsOk<T>(s: State<T>) {
    SomeSleeps(s.workers) ==> |s.tasks| <= Sum(s.workers, IsChecking) + s.notifying
  }

  ghost predicate ShutdownOk<T>(s: State<T>) {
    && (s.stop <==> !s.destructor.NotCalled?)
    && (forall w :: 0 <= w < |s.workers| && s.workers[w].Exited? ==> s.stop && s.tasks == [])
    && (s.destructor.Joining? ==>
          && !SomeSleeps(s.workers)
          && s.destructor.i <= |s.workers|
          && (forall w :: 0 <= w < s.destructor.i ==> s.workers[w].Exited?))
  }

  /** Tasks leave the queue in the order they entered it; a task that left it has finished, once, or is on the one
      worker that dequeued it. */
  ghost predicate AccountsOk<T>(s: State<T>, x: Aux<T>) {
    && x.accepted == x.started + s.tasks
    && |x.owner| == |x.started|
    && (forall w :: 0 <= w < |s.workers| && s.workers[w].Running? ==> Holds(s, x, w))
    && (forall k :: 0 <= k < |x.started| ==>
          k in x.finished || (x.owner[k] < |s.workers| && s.workers[x.owner[k]].Running? && x.owner[k] in x.ticket
                              && x.ticket[x.owner[k]] == k))
    && (forall i :: 0 <= i < |x.finished| ==> x.finished[i] < |x.started|)
    && (forall i, j :: 0 <= i < j < |x.finished| ==> x.finished[i] != x.finished[j])
  }

  /** A running worker is on the task it dequeued last, which has not finished before. */
  ghost predicate Holds<T>(s: State<T>, x: Aux<T>, w: nat)
    requires w < |s.workers| && s.workers[w].Running? && |x.owner| == |x.started|
  {
    && w in x.ticket && x.ticket[w] < |x.started|
    && x.owner[x.ticket[w]] == w
    && s.workers[w].task == x.started[x.ticket[w]]
    && x.ticket[w] !in x.finished
  }

  ghost predicate Inv<T>(c: Config<T>) {
    WakeupsOk(c.s) && ShutdownOk(c.s) && AccountsOk(c.s, c.x)
  }

  lemma InitInv<T>(n: nat)
    ensures Inv(Init<T>(n))
  {
  }

  /** One worker going from one place to another. */
  lemma WorkerMoves<T>(ws: seq<Worker<T>>, w: nat, v: Worker<T>)
    requires w < |ws|
    ensures var vs := ws[w := v];
      && Sum(vs, IsChecking) + IsChecking(ws[w]) == Sum(ws, IsChecking) + IsChecking(v)
      && (SomeSleeps(vs) ==> SomeSleeps(ws) || v.Sleeping?)
  {
    SumUpdate(ws, w, v, IsChecking);
    var vs := ws[w := v];
    if SomeSleeps(vs) {
      var i :| 0 <= i < |vs| && vs[i].Sleeping?;
      assert i != w ==> ws[i].Sleeping?;
    }
  }

  lemma DequeueInv<T>(c: Config<T>, w: nat)
    requires Inv(c) && w < |c.s.workers| && c.s.workers[w].Checking? && c.s.tasks != []
    ensures Inv(Step(c, Check(w)))
  {
    var c' := Step(c, Check(w));
    WorkerMoves(c.s.workers, w, c'.s.workers[w]);
    hide Sum, SomeSleeps;
    assert c.s.tasks == [c.s.tasks[0]] + c.s.tasks[1..];
    assert c'.x.started + c'.s.tasks == c.x.started + c.s.tasks;
  }

  lemma RestInv<T>(c: Config<T>, w: nat)
    requires Inv(c) && w < |c.s.workers| && c.s.workers[w].Checking? && c.s.tasks == []
    ensures Inv(Step(c, Check(w)))
  {
    WorkerMoves(c.s.workers, w, Step(c, Check(w)).s.workers[w]);
    hide Sum, SomeSleeps;
  }

  lemma FinishInv<T>(c: Config<T>, w: nat)
    requires Inv(c) && w < |c.s.workers| && c.s.workers[w].Running?
    ensures Inv(Step(c, Finish(w)))
  {
    WorkerMoves(c.s.workers, w, Checking);
    hide Sum, SomeSleeps;
  }

  lemma WakeInv<T>(c: Config<T>, w: nat, a: Action<T>)
    requires Inv(c) && w < |c.s.workers| && c.s.workers[w].Sleeping?
    requires a == Spurious(w) || (a == NotifyOne(w) && c.s.notifying > 0)
    ensures Inv(Step(c, a))
  {
    WorkerMoves(c.s.workers, w, Checking);
    hide Sum, SomeSleeps;
  }

  lemma NotifyAllInv<T>(c: Config<T>)
    requires Inv(c) && c.s.destructor.Stopping?
    ensures Inv(Step(c, NotifyAll))
  {
    hide Sum;
  }

  lemma SubmitInv<T>(c: Config<T>, task: T)
    requires Inv(c)
    ensures Inv(Step(c, Submit(task)))
  {
    hide Sum, SomeSleeps;
  }

  lemma StepInv<T>(c: Config<T>, a: Action<T>)
    requires Inv(c)
    ensures Inv(Step(c, a))
  {
    match a
    case Submit(task) => SubmitInv(c, task);
    case NotifyOne(w) =>
      if c.s.notifying > 0 && w < |c.s.workers| && c.s.workers[w].Sleeping? { WakeInv(c, w, a); }
    case Spurious(w) =>
      if w < |c.s.workers| && c.s.workers[w].Sleeping? { WakeInv(c, w, a); }
    case Check(w) =>
      if w < |c.s.workers| && c.s.workers[w].Checking? {
        if c.s.tasks != [] { DequeueInv(c, w); } else { RestInv(c, w); }
      }
    case Finish(w) =>
      if w < |c.s.workers| && c.s.workers[w].Running? { FinishInv(c, w); }
    case Stop =>
    case NotifyAll =>
      if c.s.destructor.Stopping? { NotifyAllInv(c); }
    case Join =>
  }

  lemma QueueAccount<T>(c: Config<T>)
    requires Inv(c)
    ensures c.x.accepted == c.x.started + c.s.tasks
  {
  }

  lemma {:induction false} RunInv<T>(c: Config<T>, actions: seq<Action<T>>)
    requires Inv(c)
    ensures Inv(Run(c, actions))
    ensures |Run(c, actions).s.workers| == |c.s.workers|
    decreases |actions|
  {
    hide Inv;
    if actions != [] {
      StepInv(c, actions[0]);
      RunInv(Step(c, actions[0]), actions[1..]);
    }
  }

  function After<T>(n: nat, actions: seq<Action<T>>): Config<T> {
    Run(Init(n), actions)
  }

  lemma Reachable<T>(n: nat, actions: seq<Action<T>>)
    ensures Inv(After(n, actions)) && |After(n, actions).s.workers| == n
  {
    InitInv<T>(n);
    RunInv(Init(n), actions);
  }

  // ---------------------------------------------------------------- no lost wakeup

  lemma {:induction false} SomeChecks<T>(ws: seq<Worker<T>>)
    requires Sum(ws, IsChecking) > 0
    ensures exists w :: 0 <= w < |ws| && ws[w].Checking?
  {
    if !ws[|ws| - 1].Checking? {
      SomeChecks(ws[..|ws| - 1]);
      var w :| 0 <= w < |ws| - 1 && ws[..|ws| - 1][w].Checking?;
      assert ws[w].Checking?;
    }
  }

  /** In every run of a pool with workers: as long as a task is queued, some worker is checking or running, or a
      notification is on its way; while some worker sleeps, there is one such checking worker or notification for
      every queued task; and once `stop_` is set, `notify_all` is still to come or nobody sleeps. */
  lemma NoLostWakeup<T>(n: nat, actions: seq<Action<T>>)
    requires n >= 1
    ensures var s := After(n, actions).s;
      && |s.workers| == n
      && (s.tasks != [] ==>
            s.notifying > 0 || exists w :: 0 <= w < n && (s.workers[w].Checking? || s.workers[w].Running?))
      && (SomeSleeps(s.workers) ==> |s.tasks| <= Sum(s.workers, IsChecking) + s.notifying)
      && (s.stop ==> s.destructor.Stopping? || !SomeSleeps(s.workers))
  {
    Reachable(n, actions);
    var s := After(n, actions).s;
    if s.tasks != [] {
      if s.workers[0].Sleeping? {
        assert SomeSleeps(s.workers);
        if s.notifying == 0 {
          SomeChecks(s.workers);
        }
      } else {
        assert s.workers[0].Checking? || s.workers[0].Running?;
      }
    }
  }

  // ---------------------------------------------------------------- every task, once, in order

  /** In every run, tasks are dequeued in submission order; no task is started or finished twice; and a task that left
      the queue has finished or is running on a worker of its own. */
  lemma TasksRunOnceInOrder<T>(n: nat, actions: seq<Action<T>>, k: nat)
    requires k < |After(n, actions).x.started|
    ensures var c := After(n, actions);
      && c.x.accepted == c.x.started + c.s.tasks
      && (forall i, j :: 0 <= i < j < |c.x.finished| ==> c.x.finished[i] != c.x.finished[j])
      && (k !in c.x.finished <==> exists w :: 0 <= w < |c.s.workers| && c.s.workers[w].Running?
                                       && w in c.x.ticket && c.x.ticket[w] == k)
      && (forall w, v :: 0 <= w < v < |c.s.workers| && c.s.workers[w].Running? && c.s.workers[v].Running? ==>
            w in c.x.ticket && v in c.x.ticket && c.x.ticket[w] != c.x.ticket[v])
  {
    Reachable(n, actions);
    var c := After(n, actions);
    assert forall w :: 0 <= w < |c.s.workers| && c.s.workers[w].Running? ==> Holds(c.s, c.x, w);
  }

  /** Task k has been run to the end, exactly once. */
  ghost predicate RunOnce(finished: seq<nat>, k: nat) {
    exists i :: 0 <= i < |finished| && finished[i] == k
             && forall j :: 0 <= j < |finished| && j != i ==> finished[j] != k
  }

  lemma JoinedRunsAll<T>(c: Config<T>)
    requires Inv(c) && c.s.destructor == Joining(|c.s.workers|)
    requires |c.s.workers| >= 1 || c.x.accepted == []
    ensures forall k :: 0 <= k < |c.x.accepted| ==> RunOnce(c.x.finished, k)
  {
    hide WakeupsOk, Sum;
    if |c.s.workers| >= 1 {
      assert c.s.workers[0].Exited?;
      assert c.x.accepted == c.x.started + [];
      forall k | 0 <= k < |c.x.accepted| ensures RunOnce(c.x.finished, k) {
        assert c.x.owner[k] < |c.s.workers| ==> c.s.workers[c.x.owner[k]].Exited?;
        FinishedOnce(c.x.finished, k);
      }
    }
  }

  lemma FinishedOnce(finished: seq<nat>, k: nat)
    requires k in finished && forall i, j :: 0 <= i < j < |finished| ==> finished[i] != finished[j]
    ensures RunOnce(finished, k)
  {
    var i :| 0 <= i < |finished| && finished[i] == k;
    forall j | 0 <= j < |finished| && j != i ensures finished[j] != k {
    }
  }

  /** When the destructor has joined every worker, every accepted task has been run exactly once - provided there was a
      worker at all: a pool of no workers joins at once and drops whatever it accepted. */
  lemma DestructorRunsAll<T>(n: nat, actions: seq<Action<T>>)
    requires After(n, actions).s.destructor == Joining(n)
    ensures var x := After(n, actions).x;
      (forall k :: 0 <= k < |x.accepted| ==> RunOnce(x.finished, k)) <==> n >= 1 || x.accepted == []
  {
    Reachable(n, actions);
    var c := After(n, actions);
    if n >= 1 || c.x.accepted == [] {
      JoinedRunsAll(c);
    } else {
      NothingStarts(Init<T>(n), actions);
      assert !RunOnce(c.x.finished, 0);
    }
  }

  /** One submission to a pool of no workers is accepted and never run. */
  lemma DropsWithoutWorkers<T>(task: T)
    ensures var c := After(0, [Submit(task), Stop, NotifyAll]);
      c.s.destructor == Joining(0) && c.x.accepted == [task] && !RunOnce(c.x.finished, 0)
  {
    var a: seq<Action<T>> := [Submit(task), Stop, NotifyAll];
    var c1 := Step(Init(0), a[0]);
    var c2 := Step(c1, a[1]);
    assert a[1..][0] == a[1] && a[1..][1..] == a[2..] && a[2..][0] == a[2] && a[2..][1..] == [];
    assert Run(Init(0), a) == Run(c1, a[1..]) == Run(c2, a[2..]) == Step(c2, a[2]);
  }

  lemma {:induction false} NothingStarts<T>(c: Config<T>, actions: seq<Action<T>>)
    requires c.s.workers == [] && c.x.finished == []
    ensures Run(c, actions).x.finished == []
    decreases |actions|
  {
    if actions != [] {
      NothingStarts(Step(c, actions[0]), actions[1..]);
    }
  }

  // ---------------------------------------------------------------- shutdown terminates

  /** What is left to do once `notify_all` has happened. */
  function Measure<T>(s: State<T>): nat {
    2 * |s.tasks| + Sum(s.workers, Weight) + s.notifying
    + (if s.destructor.Joining? && s.destructor.i <= |s.workers| then |s.workers| - s.destructor.i else 0)
  }

  /** After `notify_all`, every step that changes anything brings the end nearer. */
  lemma ShutdownStep<T>(c: Config<T>, a: Action<T>)
    requires Inv(c) && c.s.destructor.Joining? && Step(c, a).s != c.s
    ensures Step(c, a).s.destructor.Joining?
    ensures Measure(Step(c, a).s) < Measure(c.s)
  {
    match a
    case Check(w) => SumUpdate(c.s.workers, w, Step(c, a).s.workers[w], Weight);
    case Finish(w) => SumUpdate(c.s.workers, w, Checking, Weight);
    case _ =>
  }

  /** Until the last worker has been joined, some step is possible: shutdown never deadlocks. */
  lemma ShutdownNeverStuck<T>(c: Config<T>) returns (a: Action<T>)
    requires Inv(c) && c.s.destructor.Joining? && c.s.destructor.i < |c.s.workers|
    ensures Step(c, a).s != c.s
  {
    var w := c.s.destructor.i;
    a := match c.s.workers[w]
         case Exited => Join
         case Running(_) => Finish(w)
         case _ => Check(w);
    assert !c.s.workers[w].Sleeping?;
    if c.s.workers[w].Checking? {
      assert Step(c, a).s.workers[w] != Checking;
    } else if c.s.workers[w].Running? {
      assert Step(c, a).s.workers[w] == Checking;
    }
  }

  /** Every step of a run changes the state. */
  ghost predicate Busy<T>(c: Config<T>, actions: seq<Action<T>>)
    decreases |actions|
  {
    actions == [] || (Step(c, actions[0]).s != c.s && Busy(Step(c, actions[0]), actions[1..]))
  }

  /** However the threads are scheduled after `notify_all`, the work left is bounded beforehand; and a schedule that can
      go no further has joined every worker. */
  lemma {:induction false} ShutdownTerminates<T>(c: Config<T>, actions: seq<Action<T>>)
    requires Inv(c) && c.s.destructor.Joining? && Busy(c, actions)
    ensures |actions| <= Measure(c.s)
    ensures var d := Run(c, actions);
      (forall a :: Step(d, a).s == d.s) ==> d.s.destructor == Joining(|d.s.workers|)
    decreases |actions|
  {
    if actions == [] {
      if c.s.destructor.i < |c.s.workers| {
        var a := ShutdownNeverStuck(c);
      }
    } else {
      StepInv(c, actions[0]);
      ShutdownStep(c, actions[0]);
      ShutdownTerminates(Step(c, actions[0]), actions[1..]);
    }
  }
}
