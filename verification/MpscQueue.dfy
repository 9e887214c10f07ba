/**
 The multi-producer single-consumer queue as the object it is: two pointers and a heap of linked nodes.

 `push` is also available as its three atomic pieces, so that callers can interleave the pushes of several producers
 with each other and with `pop`.  Every method is tied to the step system of `MpscSteps`, whose invariant is
 this class's invariant; deleting a node takes it out of `live`.
 */
module MpscQueueClass {
  import opened Options
  import S = MpscSteps

  class Node<T> {
    var data: Option<T>    // None: default-constructed or moved from
    var next: Node?<T>

    constructor (data: Option<T>)
      ensures this.data == data && next == null
    {
      this.data, next := data, null;
    }
  }

  class MpscQueue<T> {
    var head: Node<T>      // insertion point
    var tail: Node<T>      // current sentinel
    ghost var live: set<Node<T>>
    ghost var producers: map<nat, S.Producer<Node<T>>>
    ghost var history: S.Aux<Node<T>, T>

    ghost function NodeView(n: Node<T>): S.Node<Node<T>, T>
      reads n
    {
      S.Node(n.data, if n.next == null then None else (var m: Node<T> := n.next; Some(m)))
    }

    ghost function Heap(): map<Node<T>, S.Node<Node<T>, T>>
      reads this, live
    {
      map n | n in live :: NodeView(n)
    }

    /** The queue between two calls of the consumer, as a configuration of the step system. */
    ghost function View(): S.Config<Node<T>, T>
      reads this, live
    {
      S.Config(S.State(head, tail, Heap(), producers, S.Resting, false), history)
    }

    ghost predicate Valid()
      reads this, live
    {
      S.Inv(View())
    }

    constructor ()
      ensures Valid() && fresh(live)
      ensures View() == S.Init(tail)
    {
      var sentinel := new Node(None);
      head, tail := sentinel, sentinel;
      live := {sentinel};
      producers := map[];
      history := S.Init<Node<T>, T>(sentinel).x;
      new;
      assert Heap() == map[sentinel := S.Node(None, None)];
      S.InitInv<Node<T>, T>(sentinel);
    }

    /** First piece of `push`: `new Node{value}`. */
    method Allocate(ghost p: nat, value: T) returns (node: Node<T>)
      requires Valid() && S.Pc(View().s, p) == S.Idle
      modifies this
      ensures Valid() && live == old(live) + {node} && fresh(node)
      ensures View() == S.Step(old(View()), S.Alloc(p, node, value))
      ensures S.Pc(View().s, p) == S.Ready(node)
    {
      hide S.Inv;
      node := new Node(Some(value));
      ghost var c := View();
      live := live + {node};
      producers := producers[p := S.Ready(node)];
      history := S.StepAux(c.s, c.x, S.Alloc(p, node, value));
      assert Heap() == c.s.heap[node := S.Node(Some(value), None)];
      S.StepInv(c, S.Alloc(p, node, value));
    }

    /** Second piece: `head_.exchange(new_node)`. */
    method ExchangeHead(ghost p: nat, node: Node<T>) returns (prev: Node<T>)
      requires Valid() && S.Pc(View().s, p) == S.Ready(node)
      modifies this
      ensures Valid() && live == old(live)
      ensures View() == S.Step(old(View()), S.Exchange(p))
      ensures S.Pc(View().s, p) == S.Linking(prev, node)
    {
      hide S.Inv;
      ghost var c := View();
      prev := head;
      head := node;
      producers := producers[p := S.Linking(prev, node)];
      history := S.StepAux(c.s, c.x, S.Exchange(p));
      assert Heap() == c.s.heap;
      S.StepInv(c, S.Exchange(p));
    }

    /** Third piece: `prev_head->next.store(new_node)`. */
    method LinkNode(ghost p: nat, prev: Node<T>, node: Node<T>)
      requires Valid() && S.Pc(View().s, p) == S.Linking(prev, node)
      modifies this, live
      ensures Valid() && live == old(live)
      ensures View() == S.Step(old(View()), S.Link(p))
    {
      hide S.Inv;
      ghost var c := View();
      S.PointersLive(c, p);
      prev.next := node;
      producers := producers[p := S.Idle];
      assert Heap() == c.s.heap[prev := c.s.heap[prev].(next := Some(node))];
      S.StepInv(c, S.Link(p));
    }

    /** `push` without interference between its pieces. */
    method Push(ghost p: nat, value: T)
      requires Valid() && S.Pc(View().s, p) == S.Idle
      modifies this, live
      ensures Valid() && fresh(live - old(live))
      ensures history.exchanged == old(history.exchanged) + [(p, value)]
      ensures history.popped == old(history.popped)
      ensures S.Pc(View().s, p) == S.Idle
      ensures forall q: nat :: q != p ==> S.Pc(View().s, q) == S.Pc(old(View()).s, q)
    {
      hide S.Inv, S.Step;
      ghost var c := View();
      var node := Allocate(p, value);
      S.PushCallEffect(c, p, node, value);
      var prev := ExchangeHead(p, node);
      LinkNode(p, prev, node);
    }

    /** Returns None where the original returns false and leaves its out-parameter alone. */
    method Pop() returns (out: Option<T>)
      requires Valid()
      modifies this, live
      ensures Valid() && live <= old(live)
      ensures View() == S.PopCall(old(View())) && S.Drain(View()) == S.Drain(old(View()))
      ensures out.Some? <==> S.NextReady(old(View()).s)
      ensures out.Some? ==>
        |old(history).popped| < |history.exchanged| && out.value == history.exchanged[|old(history).popped|].1
      ensures history.popped == old(history.popped) + (if out.Some? then [out.value] else [])
      ensures history.base == old(history.base) + (if out.Some? then 1 else 0)
      ensures history.base <= |history.nodes| == |old(history.nodes)|
    {
      hide S.Inv, S.PopCall, S.Drain;
      ghost var c := View();
      S.PointersLive(c, 0);
      S.PopCallEffect(c);
      S.PopCallProgress(c);
      var next := tail.next;
      if next == null {
        return None;
      }
      S.NextNode(c);
      S.PopCallState(c);
      out := next.data;
      next.data := None;
      var dead := tail;
      tail := next;
      live := live - {dead};
      history := S.PopCall(c).x;
      assert Heap() == S.PopCall(c).s.heap;
      assert View() == S.PopCall(c);
    }

    method Empty() returns (empty: bool)
      requires Valid()
      ensures empty <==> !S.NextReady(View().s)
    {
      hide S.Inv;
      S.PointersLive(View(), 0);
      empty := tail.next == null;
    }

    /** The loop of the destructor: `pop` until it finds nothing. */
    method DrainAll()
      requires Valid()
      modifies this, live
      ensures Valid() && live <= old(live)
      ensures View() == S.Drain(old(View()))
    {
      hide S.Inv, S.Drain, S.PopCall, S.NextReady;
      ghost var c := View();
      S.PopCallEffect(c);
      var ignored := Pop();
      while ignored.Some?
        invariant Valid() && live <= old(live) && S.Drain(View()) == S.Drain(c)
        invariant history.base <= |history.nodes|
        invariant ignored.None? ==> !S.NextReady(View().s)
        decreases |history.nodes| - history.base, ignored.Some?
      {
        S.PopCallEffect(View());
        ignored := Pop();
      }
      S.DrainUnfold(View());
    }

    /** The destructor: nothing stays allocated exactly when no producer is in the middle of a push. */
    method Destroy()
      requires Valid()
      modifies this, live
      ensures View() == S.Destroy(old(View()))
      ensures live == {} <==> S.Quiescent(old(View()).s)
    {
      hide S.Inv, S.Drain, S.Quiescent;
      ghost var c := View();
      DrainAll();
      live := live - {tail};
      history := history.(frees := history.frees + 1);
      assert Heap() == S.Destroy(c).s.heap;
      S.DestroyFreesAll(c);
      assert live == Heap().Keys;
    }
  }
}
