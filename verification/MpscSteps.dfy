/**
 The multi-producer single-consumer queue, one atomic step at a time.

 `State` is what the program holds: the two pointers, the node heap, and the program counter of every
 producer and of the consumer.  `Aux` records what has happened so far; no step of the program reads it.
 A run is any sequence of actions, so every interleaving of any number of producers with the consumer is
 one; an action that is not enabled leaves the configuration as it is.  Addresses may be handed out again
 after they have been freed.
 */
module MpscSteps {
  import opened Options

  datatype Node<A, T> = Node(data: Option<T>, next: Option<A>)

  /** Ready: the node is allocated, the exchange is still to come.  Linking: exchanged, `prev.next` not yet stored. */
  datatype Producer<A> = Idle | Ready(node: A) | Linking(prev: A, node: A)

  /** Where the consumer stands inside `pop`. */
  datatype Consumer<A, T> = Resting | Loaded(next: A) | Taken(next: A, out: T) | Freeing(dead: A, out: T)

  datatype State<A(==), T> = State(
    head: A,
    tail: A,
    heap: map<A, Node<A, T>>,
    producers: map<nat, Producer<A>>,
    consumer: Consumer<A, T>,
    faulted: bool)

  /** Who may touch an allocated node: its producer before the exchange, the chain, or the consumer about to free it. */
  datatype Place = Private(p: nat) | Chained(k: nat) | Dying

  datatype Aux<A(==), T> = Aux(
    nodes: seq<A>,              // the first sentinel, then every exchanged node in exchange order
    base: nat,                  // index in `nodes` of the current sentinel; `nodes[base..]` is the live chain
    place: map<A, Place>,       // one entry for every allocated node
    started: seq<(nat, T)>,     // pushes in the order their nodes were allocated
    exchanged: seq<(nat, T)>,   // pushes in the order of their exchanges: push k - 1 put `nodes[k]` there
    tickets: map<nat, nat>,     // for a producer that is linking: the index of its node in `nodes`
    popped: seq<T>,             // values returned by completed successful pops
    allocs: nat,
    frees: nat)

  datatype Config<A(==), T> = Config(s: State<A, T>, x: Aux<A, T>)

  datatype Action<A, T> =
    | Alloc(p: nat, addr: A, value: T)
    | Exchange(p: nat)
    | Link(p: nat)
    | Load
    | Take
    | Advance
    | Free

  function Pc<A, T>(s: State<A, T>, p: nat): Producer<A> {
    if p in s.producers then s.producers[p] else Idle
  }

  function Fault<A, T>(s: State<A, T>): State<A, T> {
    s.(faulted := true)
  }

  /** One atomic step of the program.  Touching an address that is not allocated, reading a payload that is not
      there, or freeing an address twice sets `faulted`. */
  function StepState<A, T>(s: State<A, T>, a: Action<A, T>): State<A, T> {
    match a
    case Alloc(p, addr, value) =>
      if Pc(s, p) != Idle || addr in s.heap then s
      else s.(heap := s.heap[addr := Node(Some(value), None)], producers := s.producers[p := Ready(addr)])
    case Exchange(p) =>
      (match Pc(s, p)
       case Ready(node) => s.(head := node, producers := s.producers[p := Linking(s.head, node)])
       case _ => s)
    case Link(p) =>
      (match Pc(s, p)
       case Linking(prev, node) =>
         if prev !in s.heap then Fault(s)
         else s.(heap := s.heap[prev := s.heap[prev].(next := Some(node))], producers := s.producers[p := Idle])
       case _ => s)
    case Load =>
      if !s.consumer.Resting? then s
      else if s.tail !in s.heap then Fault(s)
      else if s.heap[s.tail].next.None? then s
      else s.(consumer := Loaded(s.heap[s.tail].next.value))
    case Take =>
      (match s.consumer
       case Loaded(next) =>
         if next !in s.heap || s.heap[next].data.None? then Fault(s)
         else s.(heap := s.heap[next := s.heap[next].(data := None)],
                 consumer := Taken(next, s.heap[next].data.value))
       case _ => s)
    case Advance =>
      (match s.consumer
       case Taken(next, out) => s.(tail := next, consumer := Freeing(s.tail, out))
       case _ => s)
    case Free =>
      (match s.consumer
       case Freeing(dead, out) =>
         if dead !in s.heap then Fault(s)
         else s.(heap := s.heap - {dead}, consumer := Resting)
       case _ => s)
  }

  /** The bookkeeping that goes with a step. */
  function StepAux<A, T>(s: State<A, T>, x: Aux<A, T>, a: Action<A, T>): Aux<A, T> {
    match a
    case Alloc(p, addr, value) =>
      if Pc(s, p) != Idle || addr in s.heap then x
      else x.(place := x.place[addr := Private(p)], started := x.started + [(p, value)], allocs := x.allocs + 1)
    case Exchange(p) =>
      (match Pc(s, p)
       case Ready(node) =>
         if node in s.heap && s.heap[node].data.Some?
         then x.(nodes := x.nodes + [node],
                 place := x.place[node := Chained(|x.nodes|)],
                 exchanged := x.exchanged + [(p, s.heap[node].data.value)],
                 tickets := x.tickets[p := |x.nodes|])
         else x
       case _ => x)
    case Advance =>
      if s.consumer.Taken? then x.(base := x.base + 1, place := x.place[s.tail := Dying]) else x
    case Free =>
      if s.consumer.Freeing? && s.consumer.dead in s.heap
      then x.(place := x.place - {s.consumer.dead}, popped := x.popped + [s.consumer.out], frees := x.frees + 1)
      else x
    case _ => x
  }

  function Step<A, T>(c: Config<A, T>, a: Action<A, T>): Config<A, T> {
    Config(StepState(c.s, a), StepAux(c.s, c.x, a))
  }

  function Run<A, T>(c: Config<A, T>, actions: seq<Action<A, T>>): Config<A, T>
    decreases |actions|
  {
    if actions == [] then c else Run(Step(c, actions[0]), actions[1..])
  }

  /** The constructor: one sentinel, both pointers on it. */
  function Init<A, T>(sentinel: A): Config<A, T> {
    Config(
      State(sentinel, sentinel, map[sentinel := Node(None, None)], map[], Resting, false),
      Aux([sentinel], 0, map[sentinel := Chained(0)], [], [], map[], [], 1, 0))
  }

  // ---------------------------------------------------------------- the inductive invariant

  /** Live nodes form one chain from `tail` to `head`, without repetition, and every allocated node has one place. */
  ghost predicate ChainOk<A, T>(s: State<A, T>, x: Aux<A, T>) {
    && x.base < |x.nodes| == |x.exchanged| + 1
    && x.nodes[x.base] == s.tail
    && x.nodes[|x.nodes| - 1] == s.head
    && s.heap.Keys == x.place.Keys
    && (forall k :: x.base <= k < |x.nodes| ==> x.nodes[k] in x.place && x.place[x.nodes[k]] == Chained(k))
  }

  /** The producer that exchanged `nodes[k]` in has not stored the link to it yet. */
  ghost predicate StalledAt<A, T>(s: State<A, T>, x: Aux<A, T>, k: int)
    requires 0 < k <= |x.exchanged|
  {
    var p := x.exchanged[k - 1].0;
    Pc(s, p).Linking? && p in x.tickets && x.tickets[p] == k
  }

  /** What the link of the chain's k-th node holds: the next node, except at the end of the chain and exactly where
      the producer of the next node has exchanged but not linked. */
  ghost function LinkOf<A, T>(s: State<A, T>, x: Aux<A, T>, k: nat): Option<A>
    requires k < |x.nodes| == |x.exchanged| + 1
  {
    if k + 1 == |x.nodes| || StalledAt(s, x, k + 1) then None else Some(x.nodes[k + 1])
  }

  /** First chain index whose payload is still in its node. */
  function FirstItem<A, T>(s: State<A, T>, x: Aux<A, T>): nat {
    x.base + (if s.consumer.Taken? then 2 else 1)
  }

  ghost predicate NodeOk<A, T>(s: State<A, T>, x: Aux<A, T>, a: A)
    requires ChainOk(s, x) && a in s.heap
  {
    match x.place[a]
    case Private(p) => Pc(s, p) == Ready(a) && s.heap[a].data.Some? && s.heap[a].next == None
    case Chained(k) =>
      && x.base <= k < |x.nodes|
      && x.nodes[k] == a
      && s.heap[a].next == LinkOf(s, x, k)
      && (FirstItem(s, x) <= k ==> s.heap[a].data == Some(x.exchanged[k - 1].1))
    case Dying => s.consumer.Freeing? && s.consumer.dead == a
  }

  /** A producer between exchange and link owns one gap of the live chain; a node not yet exchanged is private. */
  ghost predicate ProducerOk<A, T>(s: State<A, T>, x: Aux<A, T>, p: nat)
    requires ChainOk(s, x)
  {
    match Pc(s, p)
    case Idle => true
    case Ready(node) => node in x.place && x.place[node] == Private(p)
    case Linking(prev, node) =>
      && p in x.tickets
      && x.base < x.tickets[p] < |x.nodes|
      && x.exchanged[x.tickets[p] - 1].0 == p
      && x.nodes[x.tickets[p] - 1] == prev
      && x.nodes[x.tickets[p]] == node
  }

  ghost predicate ConsumerOk<A, T>(s: State<A, T>, x: Aux<A, T>)
    requires ChainOk(s, x)
  {
    match s.consumer
    case Resting => true
    case Loaded(next) =>
      x.base + 1 < |x.nodes| && x.nodes[x.base + 1] == next && !StalledAt(s, x, x.base + 1)
    case Taken(next, out) =>
      && x.base + 1 < |x.nodes| && x.nodes[x.base + 1] == next && !StalledAt(s, x, x.base + 1)
      && out == x.exchanged[x.base].1
    case Freeing(dead, out) =>
      dead in x.place && x.place[dead] == Dying && x.base > 0 && out == x.exchanged[x.base - 1].1
  }

  /** Values returned so far are the oldest exchanged ones, and no allocation is unaccounted for. */
  ghost predicate HistoryOk<A, T>(s: State<A, T>, x: Aux<A, T>) {
    && |x.popped| == x.base - (if s.consumer.Freeing? then 1 else 0)
    && |x.popped| <= |x.exchanged|
    && (forall k :: 0 <= k < |x.popped| ==> x.popped[k] == x.exchanged[k].1)
    && x.allocs == x.frees + |s.heap|
  }

  ghost predicate NodesOk<A, T>(s: State<A, T>, x: Aux<A, T>)
    requires ChainOk(s, x)
  {
    forall a {:trigger NodeOk(s, x, a)} :: a in s.heap ==> NodeOk(s, x, a)
  }

  ghost predicate ProducersOk<A, T>(s: State<A, T>, x: Aux<A, T>)
    requires ChainOk(s, x)
  {
    forall p: nat {:trigger ProducerOk(s, x, p)} :: ProducerOk(s, x, p)
  }

  ghost predicate Inv<A, T>(c: Config<A, T>) {
    && !c.s.faulted
    && ChainOk(c.s, c.x)
    && NodesOk(c.s, c.x)
    && ProducersOk(c.s, c.x)
    && ConsumerOk(c.s, c.x)
    && HistoryOk(c.s, c.x)
  }

  // ---------------------------------------------------------------- every step keeps it

  lemma InitInv<A, T>(sentinel: A)
    ensures Inv(Init<A, T>(sentinel))
  {
  }

  lemma AllocChain<A, T>(c: Config<A, T>, p: nat, addr: A, value: T)
    requires Inv(c) && Pc(c.s, p) == Idle && addr !in c.s.heap
    ensures var c' := Step(c, Alloc(p, addr, value));
      !c'.s.faulted && ChainOk(c'.s, c'.x) && HistoryOk(c'.s, c'.x) && ConsumerOk(c'.s, c'.x)
  {
  }

  lemma AllocNode<A, T>(c: Config<A, T>, p: nat, addr: A, value: T, a: A)
    requires Inv(c) && Pc(c.s, p) == Idle && addr !in c.s.heap
    requires var c' := Step(c, Alloc(p, addr, value)); ChainOk(c'.s, c'.x) && a in c'.s.heap
    ensures var c' := Step(c, Alloc(p, addr, value)); NodeOk(c'.s, c'.x, a)
  {
    hide ConsumerOk, HistoryOk;
    assert a != addr ==> NodeOk(c.s, c.x, a);
  }

  lemma AllocProducer<A, T>(c: Config<A, T>, p: nat, addr: A, value: T, q: nat)
    requires Inv(c) && Pc(c.s, p) == Idle && addr !in c.s.heap
    requires var c' := Step(c, Alloc(p, addr, value)); ChainOk(c'.s, c'.x)
    ensures var c' := Step(c, Alloc(p, addr, value)); ProducerOk(c'.s, c'.x, q)
  {
    hide ConsumerOk, HistoryOk;
    assert ProducerOk(c.s, c.x, q);
  }

  lemma AllocInv<A, T>(c: Config<A, T>, p: nat, addr: A, value: T)
    requires Inv(c) && Pc(c.s, p) == Idle && addr !in c.s.heap
    ensures Inv(Step(c, Alloc(p, addr, value)))
  {
    var c' := Step(c, Alloc(p, addr, value));
    AllocChain(c, p, addr, value);
    hide NodeOk, ProducerOk, ConsumerOk, HistoryOk;
    forall a | a in c'.s.heap ensures NodeOk(c'.s, c'.x, a) {
      AllocNode(c, p, addr, value, a);
    }
    forall q: nat ensures ProducerOk(c'.s, c'.x, q) {
      AllocProducer(c, p, addr, value, q);
    }
  }

  lemma ExchangeChain<A, T>(c: Config<A, T>, p: nat)
    requires Inv(c) && Pc(c.s, p).Ready?
    ensures var c' := Step(c, Exchange(p));
      !c'.s.faulted && ChainOk(c'.s, c'.x) && HistoryOk(c'.s, c'.x) && ConsumerOk(c'.s, c'.x)
  {
    assert ProducerOk(c.s, c.x, p);
    assert NodeOk(c.s, c.x, Pc(c.s, p).node);
  }

  lemma ExchangeNode<A, T>(c: Config<A, T>, p: nat, a: A)
    requires Inv(c) && Pc(c.s, p).Ready?
    requires var c' := Step(c, Exchange(p)); ChainOk(c'.s, c'.x) && a in c'.s.heap
    ensures var c' := Step(c, Exchange(p)); NodeOk(c'.s, c'.x, a)
  {
    hide ConsumerOk, HistoryOk;
    assert ProducerOk(c.s, c.x, p);
    assert NodeOk(c.s, c.x, a);
  }

  lemma ExchangeProducer<A, T>(c: Config<A, T>, p: nat, q: nat)
    requires Inv(c) && Pc(c.s, p).Ready?
    requires var c' := Step(c, Exchange(p)); ChainOk(c'.s, c'.x)
    ensures var c' := Step(c, Exchange(p)); ProducerOk(c'.s, c'.x, q)
  {
    hide ConsumerOk, HistoryOk;
    assert ProducerOk(c.s, c.x, p);
    assert ProducerOk(c.s, c.x, q);
  }

  lemma ExchangeInv<A, T>(c: Config<A, T>, p: nat)
    requires Inv(c) && Pc(c.s, p).Ready?
    ensures Inv(Step(c, Exchange(p)))
  {
    var c' := Step(c, Exchange(p));
    ExchangeChain(c, p);
    hide NodeOk, ProducerOk, ConsumerOk, HistoryOk;
    forall a | a in c'.s.heap ensures NodeOk(c'.s, c'.x, a) {
      ExchangeNode(c, p, a);
    }
    forall q: nat ensures ProducerOk(c'.s, c'.x, q) {
      ExchangeProducer(c, p, q);
    }
  }

  lemma LinkChain<A, T>(c: Config<A, T>, p: nat)
    requires Inv(c) && Pc(c.s, p).Linking?
    ensures var c' := Step(c, Link(p));
      !c'.s.faulted && ChainOk(c'.s, c'.x) && HistoryOk(c'.s, c'.x) && ConsumerOk(c'.s, c'.x)
  {
    assert ProducerOk(c.s, c.x, p);
  }

  lemma LinkNode<A, T>(c: Config<A, T>, p: nat, a: A)
    requires Inv(c) && Pc(c.s, p).Linking?
    requires var c' := Step(c, Link(p)); ChainOk(c'.s, c'.x) && a in c'.s.heap
    ensures var c' := Step(c, Link(p)); NodeOk(c'.s, c'.x, a)
  {
    hide ConsumerOk, HistoryOk;
    assert ProducerOk(c.s, c.x, p);
    assert NodeOk(c.s, c.x, a);
  }

  lemma LinkProducer<A, T>(c: Config<A, T>, p: nat, q: nat)
    requires Inv(c) && Pc(c.s, p).Linking?
    requires var c' := Step(c, Link(p)); ChainOk(c'.s, c'.x)
    ensures var c' := Step(c, Link(p)); ProducerOk(c'.s, c'.x, q)
  {
    hide ConsumerOk, HistoryOk;
    assert ProducerOk(c.s, c.x, p);
    assert ProducerOk(c.s, c.x, q);
  }

  lemma LinkInv<A, T>(c: Config<A, T>, p: nat)
    requires Inv(c) && Pc(c.s, p).Linking?
    ensures Inv(Step(c, Link(p)))
  {
    var c' := Step(c, Link(p));
    LinkChain(c, p);
    hide NodeOk, ProducerOk, ConsumerOk, HistoryOk;
    forall a | a in c'.s.heap ensures NodeOk(c'.s, c'.x, a) {
      LinkNode(c, p, a);
    }
    forall q: nat ensures ProducerOk(c'.s, c'.x, q) {
      LinkProducer(c, p, q);
    }
  }

  lemma TakeChain<A, T>(c: Config<A, T>)
    requires Inv(c) && c.s.consumer.Loaded?
    ensures var c' := Step(c, Take);
      !c'.s.faulted && ChainOk(c'.s, c'.x) && HistoryOk(c'.s, c'.x) && ConsumerOk(c'.s, c'.x)
  {
    assert NodeOk(c.s, c.x, c.s.consumer.next);
  }

  lemma TakeNode<A, T>(c: Config<A, T>, a: A)
    requires Inv(c) && c.s.consumer.Loaded?
    requires var c' := Step(c, Take); ChainOk(c'.s, c'.x) && a in c'.s.heap
    ensures var c' := Step(c, Take); NodeOk(c'.s, c'.x, a)
  {
    hide HistoryOk;
    assert NodeOk(c.s, c.x, a);
  }

  lemma TakeProducer<A, T>(c: Config<A, T>, q: nat)
    requires Inv(c) && c.s.consumer.Loaded?
    requires var c' := Step(c, Take); ChainOk(c'.s, c'.x)
    ensures var c' := Step(c, Take); ProducerOk(c'.s, c'.x, q)
  {
    hide HistoryOk;
    assert ProducerOk(c.s, c.x, q);
  }

  lemma TakeInv<A, T>(c: Config<A, T>)
    requires Inv(c) && c.s.consumer.Loaded?
    ensures Inv(Step(c, Take))
  {
    var c' := Step(c, Take);
    TakeChain(c);
    hide NodeOk, ProducerOk, ConsumerOk, HistoryOk;
    forall a | a in c'.s.heap ensures NodeOk(c'.s, c'.x, a) {
      TakeNode(c, a);
    }
    forall q: nat ensures ProducerOk(c'.s, c'.x, q) {
      TakeProducer(c, q);
    }
  }

  lemma AdvanceChain<A, T>(c: Config<A, T>)
    requires Inv(c) && c.s.consumer.Taken?
    ensures var c' := Step(c, Advance);
      !c'.s.faulted && ChainOk(c'.s, c'.x) && HistoryOk(c'.s, c'.x) && ConsumerOk(c'.s, c'.x)
  {
  }

  lemma AdvanceNode<A, T>(c: Config<A, T>, a: A)
    requires Inv(c) && c.s.consumer.Taken?
    requires var c' := Step(c, Advance); ChainOk(c'.s, c'.x) && a in c'.s.heap
    ensures var c' := Step(c, Advance); NodeOk(c'.s, c'.x, a)
  {
    hide HistoryOk;
    assert NodeOk(c.s, c.x, a);
  }

  lemma AdvanceProducer<A, T>(c: Config<A, T>, q: nat)
    requires Inv(c) && c.s.consumer.Taken?
    requires var c' := Step(c, Advance); ChainOk(c'.s, c'.x)
    ensures var c' := Step(c, Advance); ProducerOk(c'.s, c'.x, q)
  {
    hide HistoryOk;
    assert ProducerOk(c.s, c.x, q);
  }

  lemma AdvanceInv<A, T>(c: Config<A, T>)
    requires Inv(c) && c.s.consumer.Taken?
    ensures Inv(Step(c, Advance))
  {
    var c' := Step(c, Advance);
    AdvanceChain(c);
    hide NodeOk, ProducerOk, ConsumerOk, HistoryOk;
    forall a | a in c'.s.heap ensures NodeOk(c'.s, c'.x, a) {
      AdvanceNode(c, a);
    }
    forall q: nat ensures ProducerOk(c'.s, c'.x, q) {
      AdvanceProducer(c, q);
    }
  }

  lemma FreeChain<A, T>(c: Config<A, T>)
    requires Inv(c) && c.s.consumer.Freeing?
    ensures var c' := Step(c, Free);
      !c'.s.faulted && ChainOk(c'.s, c'.x) && HistoryOk(c'.s, c'.x) && ConsumerOk(c'.s, c'.x)
  {
  }

  lemma FreeNode<A, T>(c: Config<A, T>, a: A)
    requires Inv(c) && c.s.consumer.Freeing?
    requires var c' := Step(c, Free); ChainOk(c'.s, c'.x) && a in c'.s.heap
    ensures var c' := Step(c, Free); NodeOk(c'.s, c'.x, a)
  {
    hide HistoryOk;
    assert NodeOk(c.s, c.x, a);
  }

  lemma FreeProducer<A, T>(c: Config<A, T>, q: nat)
    requires Inv(c) && c.s.consumer.Freeing?
    requires var c' := Step(c, Free); ChainOk(c'.s, c'.x)
    ensures var c' := Step(c, Free); ProducerOk(c'.s, c'.x, q)
  {
    hide HistoryOk;
    assert ProducerOk(c.s, c.x, q);
  }

  lemma FreeInv<A, T>(c: Config<A, T>)
    requires Inv(c) && c.s.consumer.Freeing?
    ensures Inv(Step(c, Free))
  {
    var c' := Step(c, Free);
    FreeChain(c);
    hide NodeOk, ProducerOk, ConsumerOk, HistoryOk;
    forall a | a in c'.s.heap ensures NodeOk(c'.s, c'.x, a) {
      FreeNode(c, a);
    }
    forall q: nat ensures ProducerOk(c'.s, c'.x, q) {
      FreeProducer(c, q);
    }
  }

  lemma LoadConsumer<A, T>(c: Config<A, T>)
    requires Inv(c) && c.s.consumer.Resting?
    ensures var c' := Step(c, Load);
      !c'.s.faulted && c'.x == c.x && c'.s == c.s.(consumer := c'.s.consumer)
      && ChainOk(c'.s, c'.x) && ConsumerOk(c'.s, c'.x) && !c'.s.consumer.Taken? && !c'.s.consumer.Freeing?
  {
    assert c.x.place[c.s.tail] == Chained(c.x.base);
    assert NodeOk(c.s, c.x, c.s.tail);
  }

  lemma LoadInv<A, T>(c: Config<A, T>)
    requires Inv(c) && c.s.consumer.Resting?
    ensures Inv(Step(c, Load))
  {
    LoadConsumer(c);
    var c' := Step(c, Load);
    forall a | a in c'.s.heap ensures NodeOk(c'.s, c'.x, a) {
      assert NodeOk(c.s, c.x, a);
    }
    forall q: nat ensures ProducerOk(c'.s, c'.x, q) {
      assert ProducerOk(c.s, c.x, q);
    }
  }

  lemma StepInv<A, T>(c: Config<A, T>, a: Action<A, T>)
    requires Inv(c)
    ensures Inv(Step(c, a))
  {
    match a
    case Alloc(p, addr, value) =>
      if Pc(c.s, p) == Idle && addr !in c.s.heap { AllocInv(c, p, addr, value); }
    case Exchange(p) =>
      if Pc(c.s, p).Ready? { ExchangeInv(c, p); }
    case Link(p) =>
      if Pc(c.s, p).Linking? { LinkInv(c, p); }
    case Load =>
      if c.s.consumer.Resting? { LoadInv(c); }
    case Take =>
      if c.s.consumer.Loaded? { TakeInv(c); }
    case Advance =>
      if c.s.consumer.Taken? { AdvanceInv(c); }
    case Free =>
      if c.s.consumer.Freeing? { FreeInv(c); }
  }

  lemma {:induction false} RunInv<A, T>(c: Config<A, T>, actions: seq<Action<A, T>>)
    requires Inv(c)
    ensures Inv(Run(c, actions))
    decreases |actions|
  {
    if actions != [] {
      StepInv(c, actions[0]);
      RunInv(Step(c, actions[0]), actions[1..]);
    }
  }

  /** The configuration after any run of a freshly constructed queue. */
  function After<A, T>(sentinel: A, actions: seq<Action<A, T>>): Config<A, T> {
    Run(Init(sentinel), actions)
  }

  lemma Reachable<A, T>(sentinel: A, actions: seq<Action<A, T>>)
    ensures Inv(After(sentinel, actions))
  {
    InitInv<A, T>(sentinel);
    RunInv(Init(sentinel), actions);
  }

  // ---------------------------------------------------------------- memory safety and shape

  /** What the pointers of a queue in a good configuration point at. */
  lemma PointersLive<A, T>(c: Config<A, T>, p: nat)
    requires Inv(c)
    ensures c.s.head in c.s.heap && c.s.tail in c.s.heap && c.x.base < |c.x.nodes|
    ensures Pc(c.s, p).Ready? ==> Pc(c.s, p).node in c.s.heap && c.s.heap[Pc(c.s, p).node].data.Some?
    ensures Pc(c.s, p).Linking? ==> Pc(c.s, p).prev in c.s.heap && Pc(c.s, p).node in c.s.heap
  {
    assert ProducerOk(c.s, c.x, p);
    assert Pc(c.s, p).Ready? ==> NodeOk(c.s, c.x, Pc(c.s, p).node);
  }

  /** Values already returned are the oldest exchanged ones. */
  lemma PoppedBound<A, T>(c: Config<A, T>)
    requires Inv(c)
    ensures |c.x.popped| <= |c.x.exchanged|
    ensures forall k :: 0 <= k < |c.x.popped| ==> c.x.popped[k] == c.x.exchanged[k].1
  {
  }

  /** No run touches freed memory: no step faults, `head_` and `tail_` are allocated, and neither node held by a
      producer between exchange and link has been deleted. */
  lemma MemorySafe<A, T>(sentinel: A, actions: seq<Action<A, T>>, p: nat)
    ensures var s := After(sentinel, actions).s;
      && !s.faulted && s.head in s.heap && s.tail in s.heap
      && (Pc(s, p).Ready? ==> Pc(s, p).node in s.heap)
      && (Pc(s, p).Linking? ==> Pc(s, p).prev in s.heap && Pc(s, p).node in s.heap)
  {
    Reachable(sentinel, actions);
    PointersLive(After(sentinel, actions), p);
  }

  /** In every run the nodes from `tail_` to `head_` are one repetition-free chain in exchange order, and the link of
      its k-th node is null exactly when that node is last or some producer is stalled between exchanging the
      next node and linking it. */
  lemma OneChain<A, T>(sentinel: A, actions: seq<Action<A, T>>, k: nat)
    requires var x := After(sentinel, actions).x; x.base <= k < |x.nodes|
    ensures var c := After(sentinel, actions); var n := |c.x.nodes|;
      && c.x.nodes[c.x.base] == c.s.tail && c.x.nodes[n - 1] == c.s.head
      && (forall j :: c.x.base <= j < n && j != k ==> c.x.nodes[j] != c.x.nodes[k])
      && c.x.nodes[k] in c.s.heap
      && var next := c.s.heap[c.x.nodes[k]].next;
      && (next.Some? ==> k + 1 < n && next.value == c.x.nodes[k + 1])
      && (next == None <==> k + 1 == n || exists p: nat :: Pc(c.s, p) == Linking(c.x.nodes[k], c.x.nodes[k + 1]))
  {
    Reachable(sentinel, actions);
    var c := After(sentinel, actions);
    assert c.x.place[c.x.nodes[k]] == Chained(k);
    assert NodeOk(c.s, c.x, c.x.nodes[k]);
    if k + 1 < |c.x.nodes| {
      var q := c.x.exchanged[k].0;
      assert ProducerOk(c.s, c.x, q);
      if StalledAt(c.s, c.x, k + 1) {
        assert Pc(c.s, q) == Linking(c.x.nodes[k], c.x.nodes[k + 1]);
      }
      forall p: nat | Pc(c.s, p) == Linking(c.x.nodes[k], c.x.nodes[k + 1]) ensures StalledAt(c.s, c.x, k + 1) {
        assert ProducerOk(c.s, c.x, p);
        assert c.x.place[c.x.nodes[k + 1]] == Chained(k + 1);
      }
    }
  }

  // ---------------------------------------------------------------- order

  /** The values one producer contributed to a log, in log order. */
  function OfProducer<T>(p: nat, log: seq<(nat, T)>): seq<T> {
    if log == [] then []
    else
      var front := OfProducer(p, log[..|log| - 1]);
      if log[|log| - 1].0 == p then front + [log[|log| - 1].1] else front
  }

  lemma {:induction false} OfProducerPrefix<T>(p: nat, log: seq<(nat, T)>, n: nat)
    requires n <= |log|
    ensures OfProducer(p, log[..n]) <= OfProducer(p, log)
    decreases |log|
  {
    if n == |log| {
      assert log[..n] == log;
    } else {
      OfProducerPrefix(p, log[..|log| - 1], n);
      assert log[..|log| - 1][..n] == log[..n];
    }
  }

  lemma OfProducerSnoc<T>(p: nat, log: seq<(nat, T)>, e: (nat, T))
    ensures OfProducer(p, log + [e]) == OfProducer(p, log) + (if e.0 == p then [e.1] else [])
  {
    assert (log + [e])[..|log|] == log;
  }

  /** Values a producer has allocated a node for but not exchanged in yet. */
  ghost function Pending<A, T>(s: State<A, T>, p: nat): seq<T> {
    if Pc(s, p).Ready? && Pc(s, p).node in s.heap && s.heap[Pc(s, p).node].data.Some?
    then [s.heap[Pc(s, p).node].data.value] else []
  }

  ghost predicate StartedOk<A, T>(c: Config<A, T>, p: nat) {
    OfProducer(p, c.x.started) == OfProducer(p, c.x.exchanged) + Pending(c.s, p)
  }

  /** A step that starts and exchanges nothing for p leaves p's account alone. */
  lemma StartedKept<A, T>(c: Config<A, T>, a: Action<A, T>, p: nat)
    requires Inv(c) && StartedOk(c, p)
    requires var c' := Step(c, a);
      c'.x.started == c.x.started && c'.x.exchanged == c.x.exchanged && Pending(c'.s, p) == Pending(c.s, p)
    ensures StartedOk(Step(c, a), p)
  {
  }

  lemma StartedAlloc<A, T>(c: Config<A, T>, q: nat, addr: A, value: T, p: nat)
    requires Inv(c) && StartedOk(c, p) && Pc(c.s, q) == Idle && addr !in c.s.heap
    ensures StartedOk(Step(c, Alloc(q, addr, value)), p)
  {
    assert ProducerOk(c.s, c.x, p);
    OfProducerSnoc(p, c.x.started, (q, value));
    assert Pending(Step(c, Alloc(q, addr, value)).s, p) == if p == q then [value] else Pending(c.s, p);
  }

  /** An exchange logs the value waiting in the producer's private node. */
  lemma ExchangeLogs<A, T>(c: Config<A, T>, q: nat)
    requires Inv(c) && Pc(c.s, q).Ready?
    ensures var c' := Step(c, Exchange(q));
      && |Pending(c.s, q)| == 1 && Pending(c'.s, q) == []
      && c'.x.exchanged == c.x.exchanged + [(q, Pending(c.s, q)[0])] && c'.x.started == c.x.started
  {
    assert ProducerOk(c.s, c.x, q);
    assert NodeOk(c.s, c.x, Pc(c.s, q).node);
  }

  lemma ExchangeKeepsOthers<A, T>(s: State<A, T>, q: nat, p: nat)
    requires p != q
    ensures Pending(StepState(s, Exchange(q)), p) == Pending(s, p)
  {
  }

  lemma StartedExchange<A, T>(c: Config<A, T>, q: nat, p: nat)
    requires Inv(c) && StartedOk(c, p) && Pc(c.s, q).Ready?
    ensures StartedOk(Step(c, Exchange(q)), p)
  {
    ExchangeLogs(c, q);
    OfProducerSnoc(p, c.x.exchanged, (q, Pending(c.s, q)[0]));
    if p != q {
      ExchangeKeepsOthers(c.s, q, p);
    }
    hide Inv, Pending, OfProducer;
    assert p == q ==> OfProducer(p, c.x.exchanged) + Pending(c.s, p)
                      == OfProducer(p, c.x.exchanged) + [Pending(c.s, p)[0]] + [];
  }

  /** A private node is out of reach of every other thread, so its payload stays. */
  lemma PendingKept<A, T>(c: Config<A, T>, a: Action<A, T>, p: nat)
    requires Inv(c) && (a.Link? || a.Load? || a.Take? || a.Advance? || a.Free?)
    ensures Pending(Step(c, a).s, p) == Pending(c.s, p)
  {
    assert ProducerOk(c.s, c.x, p);
    match a
    case Link(q) => assert ProducerOk(c.s, c.x, q);
    case Take => assert c.s.consumer.Loaded? ==> c.x.place[c.s.consumer.next] == Chained(c.x.base + 1);
    case _ =>
  }

  lemma StartedStep<A, T>(c: Config<A, T>, a: Action<A, T>, p: nat)
    requires Inv(c) && StartedOk(c, p)
    ensures StartedOk(Step(c, a), p)
  {
    match a
    case Alloc(q, addr, value) =>
      if Pc(c.s, q) == Idle && addr !in c.s.heap { StartedAlloc(c, q, addr, value, p); }
    case Exchange(q) =>
      if Pc(c.s, q).Ready? { StartedExchange(c, q, p); }
    case _ =>
      PendingKept(c, a, p);
      StartedKept(c, a, p);
  }

  lemma {:induction false} StartedRun<A, T>(c: Config<A, T>, actions: seq<Action<A, T>>, p: nat)
    requires Inv(c) && StartedOk(c, p)
    ensures StartedOk(Run(c, actions), p)
    decreases |actions|
  {
    if actions != [] {
      StepInv(c, actions[0]);
      StartedStep(c, actions[0], p);
      StartedRun(Step(c, actions[0]), actions[1..], p);
    }
  }

  /** No loss, no duplication, no reordering: the values returned by `pop` are a prefix of the exchange-order sequence,
      and the part of it that came from one producer is a prefix of what that producer pushed, in its own order. */
  lemma PoppedInOrder<A, T>(sentinel: A, actions: seq<Action<A, T>>, p: nat)
    ensures var x := After(sentinel, actions).x;
      && |x.popped| <= |x.exchanged|
      && (forall k :: 0 <= k < |x.popped| ==> x.popped[k] == x.exchanged[k].1)
      && OfProducer(p, x.exchanged[..|x.popped|]) <= OfProducer(p, x.started)
  {
    Reachable(sentinel, actions);
    InitInv<A, T>(sentinel);
    StartedRun(Init(sentinel), actions, p);
    var x := After(sentinel, actions).x;
    OfProducerPrefix(p, x.exchanged, |x.popped|);
  }

  /** `pop` finds nothing exactly when everything exchanged has been returned, or the producer of the very next item
      is between its exchange and its link. */
  lemma PopFailsOnlyWhen<A, T>(sentinel: A, actions: seq<Action<A, T>>)
    requires After(sentinel, actions).s.consumer.Resting?
    ensures var c := After(sentinel, actions); var n := |c.x.popped|;
      && n <= |c.x.exchanged|
      && (Step(c, Load).s.consumer.Resting?
          <==> n == |c.x.exchanged|
               || (Pc(c.s, c.x.exchanged[n].0).Linking? && Pc(c.s, c.x.exchanged[n].0).prev == c.s.tail))
  {
    Reachable(sentinel, actions);
    var c := After(sentinel, actions);
    assert c.x.place[c.s.tail] == Chained(c.x.base);
    assert NodeOk(c.s, c.x, c.s.tail);
    if c.x.base < |c.x.exchanged| {
      var p := c.x.exchanged[c.x.base].0;
      assert ProducerOk(c.s, c.x, p);
      assert Pc(c.s, p).Linking? ==> c.x.place[c.x.nodes[c.x.tickets[p] - 1]] == Chained(c.x.tickets[p] - 1);
    }
  }

  // ---------------------------------------------------------------- draining and destruction

  /** One call of `pop` with nobody interfering. */
  function PopCall<A, T>(c: Config<A, T>): Config<A, T> {
    Step(Step(Step(Step(c, Load), Take), Advance), Free)
  }

  /** One call of `push` with nobody interfering adds one entry to the exchange order and leaves others alone. */
  lemma PushCallEffect<A, T>(c: Config<A, T>, p: nat, addr: A, value: T)
    requires Inv(c) && Pc(c.s, p) == Idle && addr !in c.s.heap
    ensures var c' := Step(Step(Step(c, Alloc(p, addr, value)), Exchange(p)), Link(p));
      && Inv(c') && c'.x.exchanged == c.x.exchanged + [(p, value)] && c'.x.popped == c.x.popped
      && Pc(c'.s, p) == Idle && forall q: nat :: q != p ==> Pc(c'.s, q) == Pc(c.s, q)
  {
    hide Inv;
    var c1 := Step(c, Alloc(p, addr, value));
    var c2 := Step(c1, Exchange(p));
    StepInv(c, Alloc(p, addr, value));
    StepInv(c1, Exchange(p));
    StepInv(c2, Link(p));
    PointersLive(c2, p);
  }

  predicate NextReady<A, T>(s: State<A, T>) {
    s.tail in s.heap && s.heap[s.tail].next.Some?
  }

  lemma PopCallInv<A, T>(c: Config<A, T>)
    requires Inv(c)
    ensures Inv(PopCall(c))
  {
    StepInv(c, Load);
    StepInv(Step(c, Load), Take);
    StepInv(Step(Step(c, Load), Take), Advance);
    StepInv(Step(Step(Step(c, Load), Take), Advance), Free);
  }

  /** The node `pop` is about to take: the next in exchange order, with its payload in place. */
  lemma NextNode<A, T>(c: Config<A, T>)
    requires Inv(c) && c.s.consumer.Resting? && NextReady(c.s)
    ensures |c.x.popped| == c.x.base < |c.x.exchanged|
    ensures var next := c.s.heap[c.s.tail].next.value;
      next in c.s.heap && next != c.s.tail && c.s.heap[next].data == Some(c.x.exchanged[c.x.base].1)
  {
    assert c.x.place[c.s.tail] == Chained(c.x.base);
    assert NodeOk(c.s, c.x, c.s.tail);
    var next := c.s.heap[c.s.tail].next.value;
    assert c.x.place[next] == Chained(c.x.base + 1);
    assert NodeOk(c.s, c.x, next);
  }

  /** A call of `pop` either changes nothing, or returns exactly the oldest outstanding item and frees one node. */
  lemma PopCallEffect<A, T>(c: Config<A, T>)
    requires Inv(c) && c.s.consumer.Resting?
    ensures Inv(PopCall(c))
    ensures !NextReady(c.s) ==> PopCall(c) == c
    ensures NextReady(c.s) ==>
      var c' := PopCall(c);
      && c'.s.consumer.Resting? && c'.s.producers == c.s.producers && c'.s.head == c.s.head
      && c'.x.nodes == c.x.nodes && c'.x.exchanged == c.x.exchanged && c'.x.base == c.x.base + 1
      && |c.x.popped| < |c.x.exchanged|
      && c'.x.popped == c.x.popped + [c.x.exchanged[|c.x.popped|].1]
      && c'.x.allocs == c.x.allocs && c'.x.frees == c.x.frees + 1
      && c'.x.tickets == c.x.tickets
  {
    hide Inv;
    PopCallInv(c);
    if NextReady(c.s) {
      NextNode(c);
    }
  }

  /** What such a call leaves behind: the next node, its payload moved out, is the new sentinel; the old one is gone. */
  lemma PopCallState<A, T>(c: Config<A, T>)
    requires Inv(c) && c.s.consumer.Resting? && NextReady(c.s)
    ensures var next := c.s.heap[c.s.tail].next.value;
      && next in c.s.heap && next != c.s.tail
      && PopCall(c).s == c.s.(tail := next, heap := c.s.heap[next := c.s.heap[next].(data := None)] - {c.s.tail})
  {
    NextNode(c);
    hide Inv;
  }

  /** Calling `pop` until it finds nothing; every successful call shortens the chain. */
  ghost function Drain<A, T>(c: Config<A, T>): Config<A, T>
    requires Inv(c) && c.s.consumer.Resting?
    decreases |c.x.nodes| - c.x.base
  {
    PopCallEffect(c);
    if NextReady(c.s) then Drain(PopCall(c)) else c
  }

  /** One call at a time. */
  lemma DrainUnfold<A, T>(c: Config<A, T>)
    requires Inv(c) && c.s.consumer.Resting?
    ensures Inv(PopCall(c)) && PopCall(c).s.consumer.Resting?
    ensures Drain(c) == if NextReady(c.s) then Drain(PopCall(c)) else c
  {
    PopCallEffect(c);
  }

  /** A call of `pop` leaves less to drain, and the same result of draining it. */
  lemma PopCallProgress<A, T>(c: Config<A, T>)
    requires Inv(c) && c.s.consumer.Resting?
    ensures var c' := PopCall(c);
      && Inv(c') && c'.s.consumer.Resting? && Drain(c') == Drain(c)
      && c'.x.base == c.x.base + (if NextReady(c.s) then 1 else 0)
      && c'.x.base <= |c'.x.nodes| == |c.x.nodes|
  {
    PopCallEffect(c);
    DrainUnfold(c);
    PointersLive(PopCall(c), 0);
    hide Inv, PopCall, Drain, NextReady;
  }

  lemma {:induction false} DrainEffect<A, T>(c: Config<A, T>)
    requires Inv(c) && c.s.consumer.Resting?
    ensures var d := Drain(c);
      && Inv(d) && d.s.consumer.Resting? && !NextReady(d.s)
      && d.s.producers == c.s.producers && d.x.exchanged == c.x.exchanged && d.x.allocs == c.x.allocs
      && c.x.popped <= d.x.popped
    decreases |c.x.nodes| - c.x.base
  {
    PopCallEffect(c);
    if NextReady(c.s) {
      DrainEffect(PopCall(c));
    }
  }

  /** The destructor: drain, then delete the node `tail_` points at. */
  ghost function Destroy<A, T>(c: Config<A, T>): Config<A, T>
    requires Inv(c) && c.s.consumer.Resting?
  {
    var d := Drain(c);
    Config(d.s.(heap := d.s.heap - {d.s.tail}), d.x.(frees := d.x.frees + 1))
  }

  ghost predicate Quiescent<A, T>(s: State<A, T>) {
    forall p: nat :: Pc(s, p) == Idle
  }

  /** A drained queue nobody is pushing into is its sentinel and nothing else. */
  lemma OnlySentinelLeft<A, T>(d: Config<A, T>)
    requires Inv(d) && d.s.consumer.Resting? && !NextReady(d.s) && Quiescent(d.s)
    ensures |d.x.popped| == |d.x.exchanged| && d.s.head == d.s.tail && d.s.heap.Keys == {d.s.tail}
  {
    assert d.x.base < |d.x.exchanged| ==> Pc(d.s, d.x.exchanged[d.x.base].0) == Idle;
    assert d.x.place[d.s.tail] == Chained(d.x.base);
    assert NodeOk(d.s, d.x, d.s.tail);
    assert |d.x.nodes| == d.x.base + 1;
    forall a | a in d.s.heap ensures a == d.s.tail {
      assert NodeOk(d.s, d.x, a);
      assert d.x.place[a].Private? ==> Pc(d.s, d.x.place[a].p) == Idle;
    }
  }

  /** With no producer in the middle of a push, draining returns exactly the outstanding items in order. */
  lemma DrainReturnsAll<A, T>(c: Config<A, T>)
    requires Inv(c) && c.s.consumer.Resting? && Quiescent(c.s)
    ensures var d := Drain(c);
      && |d.x.popped| == |c.x.exchanged|
      && (forall k :: 0 <= k < |c.x.exchanged| ==> d.x.popped[k] == c.x.exchanged[k].1)
      && d.s.head == d.s.tail
      && d.s.heap.Keys == {d.s.tail}
  {
    DrainEffect(c);
    var d := Drain(c);
    assert Quiescent(d.s) by {
      forall p: nat ensures Pc(d.s, p) == Idle {
        assert Pc(c.s, p) == Idle;
      }
    }
    OnlySentinelLeft(d);
    PoppedBound(d);
    hide Inv, Drain;
  }

  /** The destructor frees every node ever allocated, each once, exactly when no producer is in the middle of a push. */
  lemma DestroyFreesAll<A, T>(c: Config<A, T>)
    requires Inv(c) && c.s.consumer.Resting?
    ensures Destroy(c).s.heap == map[] <==> Quiescent(c.s)
    ensures Quiescent(c.s) ==> Destroy(c).x.allocs == Destroy(c).x.frees
  {
    DrainEffect(c);
    var d := Drain(c);
    if Quiescent(c.s) {
      DrainReturnsAll(c);
      assert |d.s.heap| == |d.s.heap.Keys|;
    } else {
      var p: nat :| Pc(c.s, p) != Idle;
      assert ProducerOk(d.s, d.x, p);
      var node := Pc(d.s, p).node;
      assert d.x.place[d.s.tail] == Chained(d.x.base);
      assert node in d.s.heap && node != d.s.tail;
      assert node in Destroy(c).s.heap;
    }
  }

  /** A producer that has allocated its node, or exchanged it in as well, when the destructor runs loses it. */
  lemma LeaksMidPush<A, T>(sentinel: A, p: nat, addr: A, value: T)
    requires addr != sentinel
    ensures var c := After(sentinel, [Alloc(p, addr, value)]);
      Inv(c) && c.s.consumer.Resting? && addr in Destroy(c).s.heap
    ensures var c := After(sentinel, [Alloc(p, addr, value), Exchange(p)]);
      Inv(c) && c.s.consumer.Resting? && addr in Destroy(c).s.heap && Destroy(c).x.popped == []
  {
    var a: seq<Action<A, T>> := [Alloc(p, addr, value), Exchange(p)];
    var c1 := Step(Init(sentinel), a[0]);
    var c2 := Step(c1, a[1]);
    assert a[..1] == [Alloc(p, addr, value)] && a[..1][1..] == [] && a[1..][1..] == [];
    assert After(sentinel, a[..1]) == Run(c1, a[..1][1..]) == c1;
    assert After(sentinel, a) == Run(c1, a[1..]) == c2;
    Reachable(sentinel, a[..1]);
    Reachable(sentinel, a);
    hide Inv;
    assert !NextReady(c1.s) && !NextReady(c2.s);
  }
}
