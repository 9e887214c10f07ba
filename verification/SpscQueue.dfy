/**
 The bounded ring as the object it is, with both sides' calls running undisturbed.

 Each call is proved equal to the corresponding micro-steps of `SpscSteps`, and through them to a bounded queue
 that holds one item less than the capacity.
 */
module SpscQueueClass {
  import opened BitMask
  import opened Options
  import S = SpscSteps

  class SpscQueue<T> {
    const log: nat              // the capacity is 2^log
    const mask: nat
    var tail: nat
    var headCache: nat
    var head: nat
    var tailCache: nat
    const buffer: array<T>
    ghost var history: S.Aux<T>

    ghost function View(): S.Config<T>
      reads this, buffer
    {
      S.Config(S.Ring(log, tail, headCache, head, tailCache, buffer[..], S.PIdle, S.CIdle), history)
    }

    ghost predicate Valid()
      reads this, buffer
    {
      && 1 <= log <= 63
      && mask == Pow2(log) - 1
      && buffer.Length == Pow2(log)
      && S.Inv(View())
    }

    ghost function Contents(): seq<T>
      reads this, buffer
      requires Valid()
    {
      S.Contents(View())
    }

    constructor (log: nat, zero: T)
      requires 1 <= log <= 63
      ensures Valid() && fresh(buffer) && this.log == log
      ensures View() == S.Init(log, zero) && Contents() == []
    {
      this.log := log;
      mask := Pow2(log) - 1;
      tail, headCache, head, tailCache := 0, 0, 0, 0;
      buffer := new T[Pow2(log)](_ => zero);
      history := S.Init(log, zero).x;
      new;
      assert buffer[..] == S.Init(log, zero).r.buffer;
      S.InitInv(log, zero);
    }

    method Push(item: T) returns (ok: bool)
      requires Valid()
      modifies this, buffer
      ensures Valid() && View() == S.PushCall(old(View()), item)
      ensures ok <==> |old(Contents())| < Pow2(log) - 1
      ensures Contents() == if ok then old(Contents()) + [item] else old(Contents())
      ensures history.popped == old(history.popped)
    {
      ghost var c := View();
      S.PushCallQueue(c, item);
      hide S.Inv, S.PushCall, S.Contents, Pow2;
      ok := PushSlot(item);
    }

    /** The index test, with the reload of head_ it may need, the store into the slot and the publication. */
    method PushSlot(item: T) returns (ok: bool)
      requires Valid()
      modifies this, buffer
      ensures View() == S.PushCall(old(View()), item)
      ensures ok <==> |old(Contents())| < Pow2(log) - 1
    {
      ghost var c := View();
      S.PushCallRing(c, item);
      hide S.Inv, S.PushCall, S.Contents, And, Pow2;
      history := S.PushCall(c, item).x;
      var next := And(tail + 1, mask);
      if next == headCache {
        headCache := head;
        if next == headCache {
          return false;
        }
      }
      buffer[tail] := item;
      tail := next;
      return true;
    }

    method Pop() returns (out: Option<T>)
      requires Valid()
      modifies this
      ensures Valid() && View() == S.PopCall(old(View()))
      ensures out.Some? <==> old(Contents()) != []
      ensures out.Some? ==> out.value == old(Contents())[0] && Contents() == old(Contents())[1..]
      ensures out.None? ==> Contents() == []
      ensures history.pushed == old(history.pushed)
    {
      ghost var c := View();
      S.PopCallQueue(c);
      hide S.Inv, S.PopCall, S.Contents, Pow2;
      out := PopSlot();
    }

    /** The index test, with the reload of tail_ it may need, the read of the slot and its release. */
    method PopSlot() returns (out: Option<T>)
      requires Valid()
      modifies this
      ensures View() == S.PopCall(old(View()))
      ensures out == if old(Contents()) == [] then None else Some(old(Contents())[0])
    {
      ghost var c := View();
      S.PopCallRing(c);
      hide S.Inv, S.PopCall, S.Contents, And, Pow2;
      history := S.PopCall(c).x;
      if head == tailCache {
        tailCache := tail;
        if head == tailCache {
          return None;
        }
      }
      out := Some(buffer[head]);
      head := And(head + 1, mask);
    }

    method SizeApprox() returns (n: nat)
      requires Valid()
      ensures n == |Contents()|
    {
      MaskedDistance(|history.pushed|, |history.popped|, log);
      n := And(SubWord(tail, head), mask);
    }

    method Empty() returns (empty: bool)
      requires Valid()
      ensures empty <==> Contents() == []
    {
      ghost var c := View();
      if head == tail {
        SameSlot(|c.x.popped|, |c.x.pushed|, Pow2(log));
      }
      empty := head == tail;
    }
  }
}
