/**
 The single-producer single-consumer ring, one load or store at a time.

 `Ring` is what the program holds, with the program counter of each side.  A load of the other side's index may be
 stale: it returns any value that index has held since the value cached from it last, so a run covers every
 execution in which such loads lag behind, and the sequentially consistent ones.
 */
module SpscSteps {
  import opened BitMask

  datatype Producer<T> =
    | PIdle
    | PRefreshing(item: T, slot: nat, next: nat)    // about to load head_ into head_cache_
    | PWriting(item: T, slot: nat, next: nat)       // about to write buffer_[slot]
    | PPublishing(item: T, next: nat)               // about to store tail_

  datatype Consumer<T> =
    | CIdle
    | CRefreshing(slot: nat)                        // about to load tail_ into tail_cache_
    | CReading(slot: nat)                           // about to read buffer_[slot]
    | CReleasing(out: T, slot: nat)                 // about to store head_

  datatype Ring<T> = Ring(
    log: nat,                                       // the capacity is 2^log
    tail: nat, headCache: nat,                      // producer's line
    head: nat, tailCache: nat,                      // consumer's line
    buffer: seq<T>,
    producer: Producer<T>,
    consumer: Consumer<T>)

  /** What has happened so far; only the legality of a stale load looks at it. */
  datatype Aux<T> = Aux(
    pushed: seq<T>,         // items published, in order
    popped: seq<T>,         // items returned, in order
    tails: seq<nat>,        // every value tail_ has held, oldest first
    heads: seq<nat>,        // every value head_ has held, oldest first
    seenHead: nat,          // which of `heads` the producer has cached
    seenTail: nat)          // which of `tails` the consumer has cached

  datatype Config<T> = Config(r: Ring<T>, x: Aux<T>)

  datatype Action<T> =
    | PushStart(item: T)
    | PushRefresh(seen: nat)
    | PushWrite
    | PushPublish
    | PopStart
    | PopRefresh(seen: nat)
    | PopRead
    | PopRelease

  function Cap<T>(r: Ring<T>): nat {
    Pow2(r.log)
  }

  function Mask<T>(r: Ring<T>, i: nat): nat {
    And(i, Pow2(r.log) - 1)
  }

  /** `push` and `pop`, cut at every access to shared memory; a step that is not enabled changes nothing. */
  function StepRing<T>(r: Ring<T>, x: Aux<T>, a: Action<T>): Ring<T> {
    match a
    case PushStart(item) =>
      if !r.producer.PIdle? then r
      else
        var next := Mask(r, r.tail + 1);
        r.(producer := if next == r.headCache then PRefreshing(item, r.tail, next) else PWriting(item, r.tail, next))
    case PushRefresh(seen) =>
      if r.producer.PRefreshing? && x.seenHead <= seen < |x.heads| then
        var head := x.heads[seen];
        var p := r.producer;
        r.(headCache := head,
           producer := if p.next == head then PIdle else PWriting(p.item, p.slot, p.next))
      else r
    case PushWrite =>
      if r.producer.PWriting? && r.producer.slot < |r.buffer| then
        r.(buffer := r.buffer[r.producer.slot := r.producer.item],
           producer := PPublishing(r.producer.item, r.producer.next))
      else r
    case PushPublish =>
      if r.producer.PPublishing? then r.(tail := r.producer.next, producer := PIdle) else r
    case PopStart =>
      if !r.consumer.CIdle? then r
      else r.(consumer := if r.head == r.tailCache then CRefreshing(r.head) else CReading(r.head))
    case PopRefresh(seen) =>
      if r.consumer.CRefreshing? && x.seenTail <= seen < |x.tails| then
        var tail := x.tails[seen];
        r.(tailCache := tail,
           consumer := if r.consumer.slot == tail then CIdle else CReading(r.consumer.slot))
      else r
    case PopRead =>
      if r.consumer.CReading? && r.consumer.slot < |r.buffer| then
        r.(consumer := CReleasing(r.buffer[r.consumer.slot], r.consumer.slot))
      else r
    case PopRelease =>
      if r.consumer.CReleasing? then r.(head := Mask(r, r.consumer.slot + 1), consumer := CIdle) else r
  }

  function StepAux<T>(r: Ring<T>, x: Aux<T>, a: Action<T>): Aux<T> {
    match a
    case PushRefresh(seen) =>
      if r.producer.PRefreshing? && x.seenHead <= seen < |x.heads| then x.(seenHead := seen) else x
    case PushPublish =>
      if r.producer.PPublishing?
      then x.(pushed := x.pushed + [r.producer.item], tails := x.tails + [r.producer.next]) else x
    case PopRefresh(seen) =>
      if r.consumer.CRefreshing? && x.seenTail <= seen < |x.tails| then x.(seenTail := seen) else x
    case PopRelease =>
      if r.consumer.CReleasing?
      then x.(popped := x.popped + [r.consumer.out], heads := x.heads + [Mask(r, r.consumer.slot + 1)]) else x
    case _ => x
  }

  function Step<T>(c: Config<T>, a: Action<T>): Config<T> {
    Config(StepRing(c.r, c.x, a), StepAux(c.r, c.x, a))
  }

  function Run<T>(c: Config<T>, actions: seq<Action<T>>): Config<T>
    decreases |actions|
  {
    if actions == [] then c else Run(Step(c, actions[0]), actions[1..])
  }

  /** An empty ring of 2^log value-initialised slots. */
  function Init<T>(log: nat, zero: T): Config<T> {
    Config(Ring(log, 0, 0, 0, 0, seq(Pow2(log), _ => zero), PIdle, CIdle), Aux([], [], [0], [0], 0, 0))
  }

  // ---------------------------------------------------------------- the inductive invariant

  /** Indices are counts modulo the capacity, and the counts are ordered: what the producer has seen popped, popped,
      what the consumer has seen pushed, pushed - never more than the capacity less one apart. */
  ghost predicate IndicesOk<T>(r: Ring<T>, x: Aux<T>) {
    && r.log >= 1
    && |x.tails| == |x.pushed| + 1 && (forall i :: 0 <= i < |x.tails| ==> x.tails[i] == i % Cap(r))
    && |x.heads| == |x.popped| + 1 && (forall i :: 0 <= i < |x.heads| ==> x.heads[i] == i % Cap(r))
    && r.tail == |x.pushed| % Cap(r)
    && r.head == |x.popped| % Cap(r)
    && r.headCache == x.seenHead % Cap(r)
    && r.tailCache == x.seenTail % Cap(r)
    && x.seenHead <= |x.popped| <= x.seenTail <= |x.pushed| <= x.seenHead + Cap(r) - 1
  }

  /** Every published item not yet popped sits in its slot. */
  ghost predicate SlotsOk<T>(r: Ring<T>, x: Aux<T>) {
    && |r.buffer| == Cap(r)
    && (forall k :: |x.popped| <= k < |x.pushed| ==> r.buffer[k % Cap(r)] == x.pushed[k])
  }

  ghost predicate ProducerOk<T>(r: Ring<T>, x: Aux<T>) {
    && |r.buffer| == Cap(r)
    && match r.producer
       case PIdle => true
       case PRefreshing(item, slot, next) =>
         slot == r.tail && next == (|x.pushed| + 1) % Cap(r) && |x.pushed| == x.seenHead + Cap(r) - 1
       case PWriting(item, slot, next) =>
         slot == r.tail && next == (|x.pushed| + 1) % Cap(r) && |x.pushed| < x.seenHead + Cap(r) - 1
       case PPublishing(item, next) =>
         && next == (|x.pushed| + 1) % Cap(r) && |x.pushed| < x.seenHead + Cap(r) - 1
         && r.buffer[|x.pushed| % Cap(r)] == item
  }

  ghost predicate ConsumerOk<T>(r: Ring<T>, x: Aux<T>) {
    match r.consumer
    case CIdle => true
    case CRefreshing(slot) => slot == r.head && |x.popped| == x.seenTail
    case CReading(slot) => slot == r.head && |x.popped| < x.seenTail
    case CReleasing(out, slot) =>
      slot == r.head && |x.popped| < x.seenTail && |x.popped| < |x.pushed| && out == x.pushed[|x.popped|]
  }

  ghost predicate Inv<T>(c: Config<T>) {
    && IndicesOk(c.r, c.x)
    && SlotsOk(c.r, c.x)
    && ProducerOk(c.r, c.x)
    && ConsumerOk(c.r, c.x)
    && c.x.popped <= c.x.pushed
  }

  lemma InitInv<T>(log: nat, zero: T)
    requires log >= 1
    ensures Inv(Init(log, zero))
  {
  }

  lemma MaskNext<T>(r: Ring<T>, n: nat)
    ensures Mask(r, n % Cap(r) + 1) == (n + 1) % Cap(r)
  {
    AndMask(n % Cap(r) + 1, r.log);
    NextSlot(n, Cap(r));
  }

  /** "Next index equals cached index" is "full as far as the producer has seen". */
  lemma FullTest<T>(r: Ring<T>, x: Aux<T>, seen: nat)
    requires IndicesOk(r, x) && x.seenHead <= seen <= |x.popped|
    ensures (|x.pushed| + 1) % Cap(r) == seen % Cap(r) <==> |x.pushed| == seen + Cap(r) - 1
  {
    var cap := Cap(r);
    var n := |x.pushed| + 1;
    if |x.pushed| == seen + cap - 1 {
      assert n == (seen / cap + 1) * cap + seen % cap;
      RemainderIs(n, seen / cap + 1, cap, seen % cap);
    } else if n % cap == seen % cap {
      SameSlot(seen, n, cap);
    }
  }

  /** "Head equals cached tail" is "empty as far as the consumer has seen". */
  lemma EmptyTest<T>(r: Ring<T>, x: Aux<T>, seen: nat)
    requires IndicesOk(r, x) && x.seenTail <= seen <= |x.pushed|
    ensures r.head == seen % Cap(r) <==> |x.popped| == seen
  {
    if r.head == seen % Cap(r) {
      SameSlot(|x.popped|, seen, Cap(r));
    }
  }

  lemma PushStartInv<T>(c: Config<T>, item: T)
    requires Inv(c) && c.r.producer.PIdle?
    ensures Inv(Step(c, PushStart(item)))
  {
    MaskNext(c.r, |c.x.pushed|);
    FullTest(c.r, c.x, c.x.seenHead);
  }

  lemma PushRefreshInv<T>(c: Config<T>, seen: nat)
    requires Inv(c) && c.r.producer.PRefreshing? && c.x.seenHead <= seen < |c.x.heads|
    ensures Inv(Step(c, PushRefresh(seen)))
  {
    FullTest(c.r, c.x, seen);
  }

  lemma PushWriteInv<T>(c: Config<T>)
    requires Inv(c) && c.r.producer.PWriting?
    ensures Inv(Step(c, PushWrite))
  {
    var c' := Step(c, PushWrite);
    var cap, n := Cap(c.r), |c.x.pushed|;
    forall k | |c.x.popped| <= k < n ensures c'.r.buffer[k % cap] == c.x.pushed[k] {
      if k % cap == n % cap {
        SameSlot(k, n, cap);
      }
    }
  }

  lemma PushPublishInv<T>(c: Config<T>)
    requires Inv(c) && c.r.producer.PPublishing?
    ensures Inv(Step(c, PushPublish))
  {
    var c' := Step(c, PushPublish);
    var n := |c.x.pushed|;
    assert forall k :: 0 <= k < n ==> c'.x.pushed[k] == c.x.pushed[k];
    assert c'.x.tails[n + 1] == (n + 1) % Cap(c.r);
  }

  lemma PopStartInv<T>(c: Config<T>)
    requires Inv(c) && c.r.consumer.CIdle?
    ensures Inv(Step(c, PopStart))
  {
    EmptyTest(c.r, c.x, c.x.seenTail);
  }

  lemma PopRefreshInv<T>(c: Config<T>, seen: nat)
    requires Inv(c) && c.r.consumer.CRefreshing? && c.x.seenTail <= seen < |c.x.tails|
    ensures Inv(Step(c, PopRefresh(seen)))
  {
    EmptyTest(c.r, c.x, seen);
  }

  lemma PopReadInv<T>(c: Config<T>)
    requires Inv(c) && c.r.consumer.CReading?
    ensures Inv(Step(c, PopRead))
  {
    assert c.r.buffer[|c.x.popped| % Cap(c.r)] == c.x.pushed[|c.x.popped|];
  }

  lemma PopReleaseInv<T>(c: Config<T>)
    requires Inv(c) && c.r.consumer.CReleasing?
    ensures Inv(Step(c, PopRelease))
  {
    MaskNext(c.r, |c.x.popped|);
  }

  lemma StepInv<T>(c: Config<T>, a: Action<T>)
    requires Inv(c)
    ensures Inv(Step(c, a))
  {
    match a
    case PushStart(item) => if c.r.producer.PIdle? { PushStartInv(c, item); }
    case PushRefresh(seen) =>
      if c.r.producer.PRefreshing? && c.x.seenHead <= seen < |c.x.heads| { PushRefreshInv(c, seen); }
    case PushWrite => if c.r.producer.PWriting? { PushWriteInv(c); }
    case PushPublish => if c.r.producer.PPublishing? { PushPublishInv(c); }
    case PopStart => if c.r.consumer.CIdle? { PopStartInv(c); }
    case PopRefresh(seen) =>
      if c.r.consumer.CRefreshing? && c.x.seenTail <= seen < |c.x.tails| { PopRefreshInv(c, seen); }
    case PopRead => if c.r.consumer.CReading? { PopReadInv(c); }
    case PopRelease => if c.r.consumer.CReleasing? { PopReleaseInv(c); }
  }

  lemma {:induction false} RunInv<T>(c: Config<T>, actions: seq<Action<T>>)
    requires Inv(c)
    ensures Inv(Run(c, actions))
    decreases |actions|
  {
    if actions != [] {
      StepInv(c, actions[0]);
      RunInv(Step(c, actions[0]), actions[1..]);
    }
  }

  function After<T>(log: nat, zero: T, actions: seq<Action<T>>): Config<T> {
    Run(Init(log, zero), actions)
  }

  lemma Reachable<T>(log: nat, zero: T, actions: seq<Action<T>>)
    requires log >= 1
    ensures Inv(After(log, zero, actions))
  {
    InitInv(log, zero);
    RunInv(Init(log, zero), actions);
  }

  // ---------------------------------------------------------------- what every run guarantees

  /** The published items not yet returned. */
  function Contents<T>(c: Config<T>): seq<T>
    requires |c.x.popped| <= |c.x.pushed|
  {
    c.x.pushed[|c.x.popped|..]
  }

  /** In every run, with any stale loads: items come out in the order they went in, none twice; the four counts stay
      ordered; and the slot the producer is about to write is not the one the consumer is about to read. */
  lemma FifoAndNoOverlap<T>(log: nat, zero: T, actions: seq<Action<T>>)
    requires log >= 1
    ensures var c := After(log, zero, actions); var cap := Pow2(log);
      && c.x.popped <= c.x.pushed
      && |Contents(c)| <= cap - 1
      && c.x.seenHead <= |c.x.popped| <= c.x.seenTail <= |c.x.pushed| <= c.x.seenHead + cap - 1
      && (c.r.producer.PWriting? && c.r.consumer.CReading? ==> c.r.producer.slot != c.r.consumer.slot)
      && (c.r.producer.PWriting? ==> c.r.producer.slot < cap)
      && (c.r.consumer.CReading? ==> c.r.consumer.slot < cap)
  {
    Reachable(log, zero, actions);
    RunLog(Init(log, zero), actions);
    var c := After(log, zero, actions);
    if c.r.producer.PWriting? && c.r.consumer.CReading? && c.r.head == c.r.tail {
      SameSlot(|c.x.popped|, |c.x.pushed|, Cap(c.r));
    }
  }

  lemma {:induction false} RunLog<T>(c: Config<T>, actions: seq<Action<T>>)
    ensures Run(c, actions).r.log == c.r.log
    decreases |actions|
  {
    if actions != [] {
      RunLog(Step(c, actions[0]), actions[1..]);
    }
  }

  /** Every step refines a bounded queue of capacity less one items: publishing appends an item to a queue with room,
      releasing removes the oldest item and returns it, and no other step shows. */
  lemma RefinesBoundedQueue<T>(log: nat, zero: T, actions: seq<Action<T>>, a: Action<T>)
    requires log >= 1
    ensures var c := After(log, zero, actions); var c' := Step(c, a);
      && |c.x.popped| <= |c.x.pushed| && |c'.x.popped| <= |c'.x.pushed|
      && var q, q' := Contents(c), Contents(c');
      if a.PushPublish? && c.r.producer.PPublishing?
      then |q| < Pow2(log) - 1 && q' == q + [c.r.producer.item] && c'.x.popped == c.x.popped
      else if a.PopRelease? && c.r.consumer.CReleasing?
      then |q| > 0 && q' == q[1..] && c'.x.popped == c.x.popped + [q[0]]
      else q' == q && c'.x.popped == c.x.popped && c'.x.pushed == c.x.pushed
  {
    Reachable(log, zero, actions);
    RunLog(Init(log, zero), actions);
    StepInv(After(log, zero, actions), a);
  }

  /** `push` gives up exactly when the ring held its capacity less one items at the index it loaded; with a fresh load,
      exactly when it is full. */
  lemma PushRefusesWhenFull<T>(log: nat, zero: T, actions: seq<Action<T>>, seen: nat)
    requires log >= 1
    requires var c := After(log, zero, actions); c.r.producer.PRefreshing? && c.x.seenHead <= seen < |c.x.heads|
    ensures var c := After(log, zero, actions); var c' := Step(c, PushRefresh(seen));
      && (c'.r.producer.PIdle? <==> |c.x.pushed| - seen == Pow2(log) - 1)
      && |c.x.popped| <= |c.x.pushed|
      && (seen == |c.x.popped| ==> (c'.r.producer.PIdle? <==> |Contents(c)| == Pow2(log) - 1))
  {
    Reachable(log, zero, actions);
    RunLog(Init(log, zero), actions);
    FullTest(After(log, zero, actions).r, After(log, zero, actions).x, seen);
  }

  /** `pop` gives up exactly when everything published up to the index it loaded is gone. */
  lemma PopRefusesWhenEmpty<T>(log: nat, zero: T, actions: seq<Action<T>>, seen: nat)
    requires log >= 1
    requires var c := After(log, zero, actions); c.r.consumer.CRefreshing? && c.x.seenTail <= seen < |c.x.tails|
    ensures var c := After(log, zero, actions); var c' := Step(c, PopRefresh(seen));
      && (c'.r.consumer.CIdle? <==> |c.x.popped| == seen)
      && |c.x.popped| <= |c.x.pushed|
      && (seen == |c.x.pushed| ==> (c'.r.consumer.CIdle? <==> Contents(c) == []))
  {
    Reachable(log, zero, actions);
    EmptyTest(After(log, zero, actions).r, After(log, zero, actions).x, seen);
  }

  /** `size_approx` and `empty` for any thread, whatever index values their two loads return: if the tail_ loaded stands
      for i items pushed and the head_ loaded for j items popped, the size is i - j modulo the capacity, and `empty` is
      that remainder being nil; both are exact if i is neither behind j nor a lap of the ring ahead of it. */
  lemma ReadersSeeRemainder<T>(log: nat, zero: T, actions: seq<Action<T>>, i: nat, j: nat)
    requires 1 <= log <= 63
    requires var x := After(log, zero, actions).x; i < |x.tails| && j < |x.heads|
    ensures var x := After(log, zero, actions).x; var cap := Pow2(log);
      && x.tails[i] < cap <= WORD && x.heads[j] < cap
      && And(SubWord(x.tails[i], x.heads[j]), cap - 1) == (i - j) % cap
      && (x.heads[j] == x.tails[i] <==> (i - j) % cap == 0)
      && (j <= i < j + cap ==> (i - j) % cap == i - j)
  {
    Reachable(log, zero, actions);
    RunLog(Init(log, zero), actions);
    hide Run;
    MaskedDistance(i, j, log);
    SlotDistance(i, j, Pow2(log));
  }

  // ---------------------------------------------------------------- calls without interference

  /** One call of `push`: the load of head_, if it comes to that, is fresh. */
  function PushCall<T>(c: Config<T>, item: T): Config<T> {
    var c1 := Step(c, PushStart(item));
    Step(Step(Step(c1, PushRefresh(|c1.x.popped|)), PushWrite), PushPublish)
  }

  function PopCall<T>(c: Config<T>): Config<T> {
    var c1 := Step(c, PopStart);
    Step(Step(Step(c1, PopRefresh(|c1.x.pushed|)), PopRead), PopRelease)
  }

  lemma PushCallInv<T>(c: Config<T>, item: T)
    requires Inv(c)
    ensures Inv(PushCall(c, item))
  {
    hide Inv, Step;
    var c1 := Step(c, PushStart(item));
    var c2 := Step(c1, PushRefresh(|c1.x.popped|));
    StepInv(c, PushStart(item));
    StepInv(c1, PushRefresh(|c1.x.popped|));
    StepInv(c2, PushWrite);
    StepInv(Step(c2, PushWrite), PushPublish);
  }

  lemma PushCallEffect<T>(c: Config<T>, item: T)
    requires Inv(c) && c.r.producer.PIdle?
    ensures var c' := PushCall(c, item);
      && Inv(c') && c'.r.producer.PIdle? && c'.r.consumer == c.r.consumer && c'.x.popped == c.x.popped
      && c'.x.pushed == if |Contents(c)| < Cap(c.r) - 1 then c.x.pushed + [item] else c.x.pushed
  {
    PushCallInv(c, item);
    FullTest(c.r, c.x, |c.x.popped|);
    FullTest(c.r, c.x, c.x.seenHead);
    MaskNext(c.r, |c.x.pushed|);
    hide And, Pow2, ConsumerOk;
  }

  lemma PopCallInv<T>(c: Config<T>)
    requires Inv(c)
    ensures Inv(PopCall(c))
  {
    hide Inv, Step;
    var c1 := Step(c, PopStart);
    var c2 := Step(c1, PopRefresh(|c1.x.pushed|));
    StepInv(c, PopStart);
    StepInv(c1, PopRefresh(|c1.x.pushed|));
    StepInv(c2, PopRead);
    StepInv(Step(c2, PopRead), PopRelease);
  }

  lemma PopCallEffect<T>(c: Config<T>)
    requires Inv(c) && c.r.consumer.CIdle?
    ensures var c' := PopCall(c);
      && Inv(c') && c'.r.consumer.CIdle? && c'.r.producer == c.r.producer && c'.x.pushed == c.x.pushed
      && c'.x.popped == if Contents(c) == [] then c.x.popped else c.x.popped + [Contents(c)[0]]
  {
    PopCallInv(c);
    EmptyTest(c.r, c.x, |c.x.pushed|);
    EmptyTest(c.r, c.x, c.x.seenTail);
    hide And, Pow2, ProducerOk;
  }

  lemma CapacityTwo(log: nat)
    requires log >= 1
    ensures Pow2(log) >= 2
  {
  }

  /** What a call of `push` leaves in the ring, and when it accepts its item. */
  lemma PushCallRing<T>(c: Config<T>, item: T)
    requires Inv(c) && c.r.producer.PIdle?
    ensures c.r.tail < |c.r.buffer| == Cap(c.r) && |c.x.popped| <= |c.x.pushed|
    ensures var next := Mask(c.r, c.r.tail + 1);
      var cache := if next == c.r.headCache then c.r.head else c.r.headCache;
      && (next != cache <==> |Contents(c)| < Cap(c.r) - 1)
      && PushCall(c, item).r ==
         if next == cache then c.r.(headCache := cache)
         else c.r.(headCache := cache, buffer := c.r.buffer[c.r.tail := item], tail := next)
  {
    FullTest(c.r, c.x, |c.x.popped|);
    FullTest(c.r, c.x, c.x.seenHead);
    MaskNext(c.r, |c.x.pushed|);
  }

  /** What a call of `pop` leaves in the ring, and when it returns an item. */
  lemma PopCallRing<T>(c: Config<T>)
    requires Inv(c) && c.r.consumer.CIdle?
    ensures c.r.head < |c.r.buffer| && |c.x.popped| <= |c.x.pushed|
    ensures var cache := if c.r.head == c.r.tailCache then c.r.tail else c.r.tailCache;
      && (c.r.head != cache <==> Contents(c) != [])
      && (c.r.head != cache ==> c.r.buffer[c.r.head] == Contents(c)[0])
      && PopCall(c).r ==
         if c.r.head == cache then c.r.(tailCache := cache)
         else c.r.(tailCache := cache, head := Mask(c.r, c.r.head + 1))
  {
    EmptyTest(c.r, c.x, |c.x.pushed|);
    EmptyTest(c.r, c.x, c.x.seenTail);
  }

  /** A call of `push` in terms of the bounded queue. */
  lemma PushCallQueue<T>(c: Config<T>, item: T)
    requires Inv(c) && c.r.producer.PIdle?
    ensures |c.x.popped| <= |c.x.pushed|
    ensures var c' := PushCall(c, item);
      && Inv(c') && |c'.x.popped| <= |c'.x.pushed| && c'.x.popped == c.x.popped
      && Contents(c') == if |Contents(c)| < Cap(c.r) - 1 then Contents(c) + [item] else Contents(c)
  {
    PushCallEffect(c, item);
    InOrder(c);
    InOrder(PushCall(c, item));
    hide Inv, PushCall;
  }

  lemma InOrder<T>(c: Config<T>)
    requires Inv(c)
    ensures c.x.popped <= c.x.pushed
  {
  }

  /** A call of `pop` in terms of the bounded queue. */
  lemma PopCallQueue<T>(c: Config<T>)
    requires Inv(c) && c.r.consumer.CIdle?
    ensures |c.x.popped| <= |c.x.pushed|
    ensures var c' := PopCall(c);
      && Inv(c') && |c'.x.popped| <= |c'.x.pushed| && c'.x.pushed == c.x.pushed
      && Contents(c') == if Contents(c) == [] then [] else Contents(c)[1..]
  {
    InOrder(c);
    PopCallEffect(c);
    InOrder(PopCall(c));
    hide Inv, PopCall;
  }

  /** The consumer's final loop: `pop` until it finds nothing. */
  ghost function Drain<T>(c: Config<T>): Config<T>
    requires Inv(c) && c.r.consumer.CIdle?
    decreases |Contents(c)|
  {
    PopCallEffect(c);
    if Contents(c) == [] then c else Drain(PopCall(c))
  }

  /** Draining a ring nobody pushes into returns every item ever published. */
  lemma {:induction false} DrainReturnsAll<T>(c: Config<T>)
    requires Inv(c) && c.r.consumer.CIdle?
    ensures Drain(c).x.popped == c.x.pushed == Drain(c).x.pushed
    decreases |Contents(c)|
  {
    PopCallEffect(c);
    if Contents(c) == [] {
      assert c.x.popped == c.x.pushed;
    } else {
      DrainReturnsAll(PopCall(c));
    }
  }
}
