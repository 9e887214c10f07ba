/**
 The thread that turns telemetry frames into fastest-lap claims.
 */
module LapClaims {
  import opened RaceTypes
  import opened FastestLap

  /** A frame with a positive lap time of a driver in the table of n drivers is an offer. */
  predicate IsOffer(f: Frame, n: nat) {
    f.lapTime > 0.0 && DriverIndexOf(f.driver, n) >= 0
  }

  function OffersOf(frames: seq<Frame>, n: nat): seq<Offer> {
    if frames == [] then []
    else
      var front, f := OffersOf(frames[..|frames| - 1], n), frames[|frames| - 1];
      if IsOffer(f, n) then front + [Offer(DriverIndexOf(f.driver, n), f.lapTime)] else front
  }

  function ClaimFrame(c: Claim, f: Frame, n: nat): Claim {
    if IsOffer(f, n) then Improve(c, Offer(DriverIndexOf(f.driver, n), f.lapTime)) else c
  }

  /** The published pair after the given frames, oldest first. */
  function ClaimFrames(c: Claim, frames: seq<Frame>, n: nat): Claim {
    if frames == [] then c else ClaimFrame(ClaimFrames(c, frames[..|frames| - 1], n), frames[|frames| - 1], n)
  }

  lemma ClaimFramesSnoc(c: Claim, frames: seq<Frame>, f: Frame, n: nat)
    ensures ClaimFrames(c, frames + [f], n) == ClaimFrame(ClaimFrames(c, frames, n), f, n)
  {
    assert (frames + [f])[..|frames|] == frames;
  }

  lemma ClaimFramesNone(c: Claim, n: nat)
    ensures ClaimFrames(c, [], n) == c
  {
  }

  /** Claims go on from where earlier ones left off. */
  lemma {:induction false} ClaimFramesConcat(c: Claim, a: seq<Frame>, b: seq<Frame>, n: nat)
    ensures ClaimFrames(c, a + b, n) == ClaimFrames(ClaimFrames(c, a, n), b, n)
  {
    if b == [] {
      assert a + b == a;
    } else {
      ClaimFramesConcat(c, a, b[..|b| - 1], n);
      assert (a + b)[..|a + b| - 1] == a + b[..|b| - 1];
    }
  }

  /** Claiming frame by frame is claiming their offers. */
  lemma {:induction false} ClaimFramesIsClaimAll(frames: seq<Frame>, n: nat)
    ensures ClaimFrames(NO_CLAIM, frames, n) == ClaimAll(OffersOf(frames, n))
  {
    if frames != [] {
      var front, f := frames[..|frames| - 1], frames[|frames| - 1];
      ClaimFramesIsClaimAll(front, n);
      if IsOffer(f, n) {
        ClaimAllSnoc(OffersOf(front, n), Offer(DriverIndexOf(f.driver, n), f.lapTime));
      }
    }
  }
}

module LapTimeConsumerClass {
  import opened FastestLap
  import opened Options
  import opened RaceTypes
  import opened LapClaims
  import opened SpscQueueClass
  import opened RaceStateClass
  import BitMask
  import S = SpscSteps

  /** All frames of a sequence of bursts, in order. */
  function Flatten(bursts: seq<seq<Frame>>): seq<Frame> {
    if bursts == [] then [] else Flatten(bursts[..|bursts| - 1]) + bursts[|bursts| - 1]
  }

  lemma {:induction false} FlattenPrefix(bursts: seq<seq<Frame>>, n: nat)
    requires n <= |bursts|
    ensures |Flatten(bursts[..n])| <= |Flatten(bursts)|
    decreases |bursts|
  {
    if n == |bursts| {
      assert bursts[..n] == bursts;
    } else {
      FlattenPrefix(bursts[..|bursts| - 1], n);
      assert bursts[..|bursts| - 1][..n] == bursts[..n];
    }
  }

  lemma FlattenNone()
    ensures Flatten([]) == []
  {
  }

  lemma FlattenSnoc(bursts: seq<seq<Frame>>, i: nat)
    requires i < |bursts|
    ensures Flatten(bursts[..i + 1]) == Flatten(bursts[..i]) + bursts[i]
  {
    assert bursts[..i + 1][..i] == bursts[..i];
  }

  class LapTimeConsumer {
    const queue: SpscQueue<Frame>
    const raceState: RaceState
    const drivers: nat              // size of the season's table

    constructor (queue: SpscQueue<Frame>, raceState: RaceState, drivers: nat)
      ensures this.queue == queue && this.raceState == raceState && this.drivers == drivers
    {
      this.queue, this.raceState, this.drivers := queue, raceState, drivers;
    }

    /** What the consumer does with one popped frame. */
    method Claim(frame: Frame)
      modifies raceState
      ensures raceState.View() == ClaimFrame(old(raceState.View()), frame, drivers)
    {
      if frame.lapTime > 0.0 {
        var idx := DriverIndexOf(frame.driver, drivers);
        if idx >= 0 {
          var spurious: nat := *;
          var won := raceState.TryClaimFastestLap(idx, frame.lapTime, spurious);
        }
      }
    }

    /** One look at the queue: pops at most one frame and claims it. */
    method PopAndClaim() returns (found: bool)
      requires queue.Valid()
      modifies queue, raceState
      ensures queue.Valid()
      ensures found <==> old(queue.Contents()) != []
      ensures !found ==> queue.Contents() == [] && raceState.View() == old(raceState.View())
      ensures found ==>
        && queue.Contents() == old(queue.Contents())[1..]
        && raceState.View() == ClaimFrame(old(raceState.View()), old(queue.Contents())[0], drivers)
    {
      hide S.Inv, S.PopCall;
      var frame := queue.Pop();
      found := frame.Some?;
      if found {
        Claim(frame.value);
      }
    }

    /** What the generator publishes between two looks of the consumer; a full queue drops frames. */
    method Publish(burst: seq<Frame>) returns (ghost accepted: seq<Frame>)
      requires queue.Valid()
      modifies queue, queue.buffer
      ensures queue.Valid() && queue.Contents() == old(queue.Contents()) + accepted
      ensures |old(queue.Contents())| + |burst| < queue.buffer.Length ==> accepted == burst
    {
      hide S.Inv, S.PushCall, BitMask.Pow2;
      accepted := [];
      for i := 0 to |burst|
        invariant queue.Valid() && queue.Contents() == old(queue.Contents()) + accepted
        invariant |old(queue.Contents())| + |burst| < queue.buffer.Length ==> accepted == burst[..i]
      {
        assert burst[..i + 1] == burst[..i] + [burst[i]];
        var ok := queue.Push(burst[i]);
        if ok {
          accepted := accepted + [burst[i]];
        }
      }
    }

    /** The last loop: everything that is left. */
    method DrainQueue()
      requires queue.Valid()
      modifies queue, raceState
      ensures queue.Valid() && queue.Contents() == []
      ensures raceState.View() == ClaimFrames(old(raceState.View()), old(queue.Contents()), drivers)
    {
      hide S.Inv, ClaimFrames;
      ghost var done: seq<Frame> := [];
      ClaimFramesNone(raceState.View(), drivers);
      var found := true;
      while found
        invariant queue.Valid() && old(queue.Contents()) == done + queue.Contents()
        invariant raceState.View() == ClaimFrames(old(raceState.View()), done, drivers)
        invariant !found ==> queue.Contents() == []
        decreases |queue.Contents()|, found
      {
        ghost var waiting := queue.Contents();
        found := PopAndClaim();
        if found {
          assert waiting == [waiting[0]] + queue.Contents();
          ClaimFramesSnoc(old(raceState.View()), done, waiting[0], drivers);
          done := done + [waiting[0]];
        }
      }
      assert done == old(queue.Contents());
    }

    /** One turn of the first loop, after a burst: `done` and `accepted` are what was claimed and accepted before. */
    method Look(burst: seq<Frame>, ghost initial: seq<Frame>, ghost accepted: seq<Frame>, ghost done: seq<Frame>,
                ghost start: Claim)
      returns (ghost more: seq<Frame>, ghost done': seq<Frame>)
      requires queue.Valid() && initial + accepted == done + queue.Contents()
      requires raceState.View() == ClaimFrames(start, done, drivers)
      modifies queue, queue.buffer, raceState
      ensures queue.Valid() && initial + (accepted + more) == done' + queue.Contents()
      ensures raceState.View() == ClaimFrames(start, done', drivers)
      ensures |old(queue.Contents())| + |burst| < queue.buffer.Length ==> more == burst
    {
      hide S.Inv, ClaimFrames;
      ghost var had := queue.Contents();
      more := Publish(burst);
      ghost var waiting := queue.Contents();
      Shuffle(initial, accepted, more, done, had);
      done' := done;
      var found := PopAndClaim();
      if found {
        assert waiting == [waiting[0]] + queue.Contents();
        ClaimFramesSnoc(start, done, waiting[0], drivers);
        done' := done + [waiting[0]];
      }
    }

    /** The first loop: one look per burst while the thread has not been asked to stop. */
    method Watch(bursts: seq<seq<Frame>>) returns (ghost accepted: seq<Frame>, ghost done: seq<Frame>)
      requires queue.Valid()
      modifies queue, queue.buffer, raceState
      ensures queue.Valid() && old(queue.Contents()) + accepted == done + queue.Contents()
      ensures raceState.View() == ClaimFrames(old(raceState.View()), done, drivers)
      ensures |old(queue.Contents())| + |Flatten(bursts)| < queue.buffer.Length ==> accepted == Flatten(bursts)
    {
      hide S.Inv, ClaimFrames, Flatten;
      accepted, done := [], [];
      ClaimFramesNone(raceState.View(), drivers);
      FlattenNone();
      for i := 0 to |bursts|
        invariant queue.Valid() && old(queue.Contents()) + accepted == done + queue.Contents()
        invariant raceState.View() == ClaimFrames(old(raceState.View()), done, drivers)
        invariant |old(queue.Contents())| + |Flatten(bursts)| < queue.buffer.Length ==> accepted == Flatten(bursts[..i])
      {
        FlattenPrefix(bursts, i + 1);
        FlattenSnoc(bursts, i);
        ghost var more;
        more, done := Look(bursts[i], old(queue.Contents()), accepted, done, old(raceState.View()));
        accepted := accepted + more;
      }
      assert bursts[..|bursts|] == bursts;
    }

    lemma Shuffle(initial: seq<Frame>, accepted: seq<Frame>, more: seq<Frame>, done: seq<Frame>, had: seq<Frame>)
      requires initial + accepted == done + had
      ensures initial + (accepted + more) == done + (had + more)
    {
      assert initial + (accepted + more) == (initial + accepted) + more;
    }

    /** The thread, with what the generator publishes between its looks given as bursts.  Afterwards the queue is empty
        and the published pair accounts for every accepted frame, in order, each once. */
    method Run(bursts: seq<seq<Frame>>) returns (ghost accepted: seq<Frame>)
      requires queue.Valid()
      modifies queue, queue.buffer, raceState
      ensures queue.Valid() && queue.Contents() == []
      ensures raceState.View() == ClaimFrames(old(raceState.View()), old(queue.Contents()) + accepted, drivers)
      ensures |old(queue.Contents())| + |Flatten(bursts)| < queue.buffer.Length ==> accepted == Flatten(bursts)
    {
      hide S.Inv, ClaimFrames;
      ghost var start := raceState.View();
      ghost var done;
      accepted, done := Watch(bursts);
      ghost var rest := queue.Contents();
      DrainQueue();
      ClaimFramesConcat(start, done, rest, drivers);
    }
  }
}
