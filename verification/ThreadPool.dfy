/**
 The thread pool as the object it is: a task queue and a stop flag that submitters, workers and the destructor update
 under the lock.

 The critical sections and notifications are methods, each equal to one step of `PoolSteps`, so that callers can
 interleave the threads as they like; `WorkerLoop` and `Destroy` run them in one possible order.
 */
module ThreadPoolClass {
  import S = PoolSteps

  class ThreadPool<T> {
    var tasks: seq<T>
    var stop: bool
    var workers: seq<S.Worker<T>>       // where each worker thread stands
    ghost var notifying: nat
    ghost var destructor: S.Destructor
    ghost var history: S.Aux<T>

    ghost function View(): S.Config<T>
      reads this
    {
      S.Config(S.State(tasks, stop, workers, notifying, destructor), history)
    }

    ghost predicate Valid()
      reads this
    {
      S.Inv(View())
    }

    constructor (n: nat)
      ensures Valid() && View() == S.Init(n)
    {
      tasks, stop, workers := [], false, seq(n, _ => S.Checking);
      notifying, destructor := 0, S.NotCalled;
      history := S.Init<T>(n).x;
      new;
      S.InitInv<T>(n);
    }

    /** The locked part of `submit`; false stands for the exception thrown once the pool is stopped. */
    method EnqueueTask(task: T) returns (accepted: bool)
      requires Valid()
      modifies this
      ensures Valid() && View() == S.Step(old(View()), S.Submit(task))
      ensures accepted <==> !old(stop)
    {
      S.StepInv(View(), S.Submit(task));
      if stop {
        return false;
      }
      tasks := tasks + [task];
      notifying := notifying + 1;
      history := history.(accepted := history.accepted + [task]);
      return true;
    }

    /** `cv_.notify_one()`: wakes some sleeping worker, or nobody. */
    method NotifyOne() returns (ghost w: nat)
      requires Valid() && notifying > 0
      modifies this
      ensures Valid() && View() == S.Step(old(View()), S.NotifyOne(w))
      ensures notifying == old(notifying) - 1
      ensures w < |old(workers)| ==> old(workers)[w].Sleeping?
      ensures w >= |old(workers)| ==> !S.SomeSleeps(old(workers))
    {
      var i := 0;
      while i < |workers| && !workers[i].Sleeping?
        invariant i <= |workers|
        invariant forall j :: 0 <= j < i ==> !workers[j].Sleeping?
      {
        i := i + 1;
      }
      w := i;
      S.StepInv(View(), S.NotifyOne(w));
      if i < |workers| {
        workers := workers[i := S.Checking];
      }
      notifying := notifying - 1;
    }

    /** `submit`, with nothing between the lock and the notification, which goes to worker w. */
    method Submit(task: T) returns (accepted: bool, ghost w: nat)
      requires Valid()
      modifies this
      ensures Valid() && notifying == old(notifying)
      ensures accepted <==> !old(stop)
      ensures !accepted ==> View() == old(View())
      ensures accepted ==> View() == S.Step(S.Step(old(View()), S.Submit(task)), S.NotifyOne(w))
      ensures accepted && S.SomeSleeps(old(workers)) ==>
        w < |old(workers)| && old(workers)[w].Sleeping? && workers == old(workers)[w := S.Checking]
      ensures accepted && !S.SomeSleeps(old(workers)) ==> workers == old(workers)
    {
      hide S.Inv;
      w := |workers|;
      accepted := EnqueueTask(task);
      if accepted {
        w := NotifyOne();
      }
    }

    /** The locked part of `worker_loop` for worker w. */
    method CheckOnce(w: nat)
      requires Valid() && w < |workers| && workers[w] == S.Checking
      modifies this
      ensures Valid() && View() == S.Step(old(View()), S.Check(w))
    {
      S.StepInv(View(), S.Check(w));
      history := S.StepAux(View().s, history, S.Check(w));
      if !(stop || tasks != []) {
        workers := workers[w := S.Sleeping];
      } else if stop && tasks == [] {
        workers := workers[w := S.Exited];
      } else {
        workers := workers[w := S.Running(tasks[0])];
        tasks := tasks[1..];
      }
    }

    /** `task()` returns. */
    method FinishTask(w: nat)
      requires Valid() && w < |workers| && workers[w].Running?
      modifies this
      ensures Valid() && View() == S.Step(old(View()), S.Finish(w))
    {
      S.StepInv(View(), S.Finish(w));
      history := S.StepAux(View().s, history, S.Finish(w));
      workers := workers[w := S.Checking];
    }

    /** `worker_loop` on its own: runs every queued task in order, then sleeps, or exits if the pool is stopping. */
    method WorkerLoop(w: nat)
      requires Valid() && w < |workers| && (workers[w] == S.Checking || workers[w].Running?)
      modifies this
      ensures Valid() && tasks == [] && stop == old(stop)
      ensures workers == old(workers)[w := if stop then S.Exited else S.Sleeping]
      ensures history.accepted == old(history.accepted) && history.started == history.accepted
      ensures notifying == old(notifying) && destructor == old(destructor)
    {
      hide S.Inv;
      while workers[w] == S.Checking || workers[w].Running?
        invariant Valid() && w < |workers| && stop == old(stop)
        invariant workers == old(workers)[w := workers[w]]
        invariant history.accepted == old(history.accepted)
        invariant notifying == old(notifying) && destructor == old(destructor)
        invariant workers[w] == S.Exited || workers[w] == S.Sleeping ==>
          tasks == [] && (stop <==> workers[w] == S.Exited)
        decreases 2 * |tasks| + S.Weight(workers[w])
      {
        if workers[w].Running? {
          FinishTask(w);
        } else {
          CheckOnce(w);
        }
      }
      S.QueueAccount(View());
    }

    /** The destructor, with each worker finishing before it is joined: afterwards every accepted task has been run to
        the end exactly once, unless there was no worker to run it. */
    method Destroy()
      requires Valid() && destructor.NotCalled?
      modifies this
      ensures Valid() && stop && destructor == S.Joining(|workers|) && |workers| == |old(workers)|
      ensures history.accepted == old(history.accepted)
      ensures (forall k :: 0 <= k < |history.accepted| ==> S.RunOnce(history.finished, k))
        <== |workers| >= 1 || history.accepted == []
    {
      hide S.Inv;
      StopAll();
      var i := 0;
      while i < |workers|
        invariant Valid() && stop && i <= |workers| == |old(workers)| && destructor == S.Joining(i)
        invariant history.accepted == old(history.accepted)
      {
        NobodySleeps(i);
        if !workers[i].Exited? {
          WorkerLoop(i);
        }
        S.StepInv(View(), S.Join);
        destructor := S.Joining(i + 1);
        i := i + 1;
      }
      if |workers| >= 1 || history.accepted == [] {
        S.JoinedRunsAll(View());
      }
    }

    lemma NobodySleeps(i: nat)
      requires Valid() && destructor == S.Joining(i) && i < |workers|
      ensures !workers[i].Sleeping?
    {
    }

    /** `stop_ = true` under the lock, then `cv_.notify_all()`. */
    method StopAll()
      requires Valid() && destructor.NotCalled?
      modifies this
      ensures Valid() && View() == S.Step(S.Step(old(View()), S.Stop), S.NotifyAll)
    {
      ghost var c := View();
      S.StepInv(c, S.Stop);
      S.StepInv(S.Step(c, S.Stop), S.NotifyAll);
      stop := true;
      workers := S.WakeAll(workers);
      destructor := S.Joining(0);
    }
  }
}
