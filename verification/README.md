# Verified model of the race simulator's concurrent core

The program simulates a motor race on several threads. A generator thread advances every car fifty times a second and
pushes telemetry frames through a lock-free ring to a consumer thread, which claims fastest laps in shared atomics.
Track-limits checks and weather updates run on a thread pool and report through a lock-free multi-producer queue, which
the penalty enforcer drains and pushes into. This project models those structures, the state machines they feed, and the
way they fit together.

## How it is modelled

Each concurrent structure has two files.

- A `…Steps` module (`MpscSteps`, `SpscSteps`, `PoolSteps`, and `FastestLap`, `PenaltySteps`, `SingleFlight`) cuts every
  operation at each access to shared memory. Threads have program counters, a run is any sequence of actions, and an
  action that is not enabled changes nothing; so a statement about all runs is about all interleavings of any number of
  producers, workers, submitters, claimers or drivers. `Aux` records hold history that the program does not read; the one
  exception is `SpscSteps`, where the history decides which stale values a load may return.
- A class (`MpscQueue`, `SpscQueue`, `ThreadPool`, `RaceState`, `PenaltyEnforcer`, `TelemetryGenerator`,
  `LapTimeConsumer`, `Leaderboard`) holds the program's own fields and updates them in place. Its methods are proved equal
  to the steps, or to a function whose properties are proved separately. The multi-producer queue's nodes are real
  objects; `push` and `submit` are available in their atomic pieces as well as whole.

Two more step systems put these together. `PipelineSteps` joins the generator's pushes, the ring, the consumer's pops, the
claim loop and the main thread's request to stop; `PenaltyQueueSteps` joins the enforcer, as consumer and producer, with
any number of other threads pushing into its queue during a drain or between drains.

What the classes and steps compute is pinned down from outside, without the functions they are written with: by
`PenaltyLaws` in terms of the events handled and the pit calls made, and by `RaceLaws` in terms of the cars' fields before
and after a tick.

Allocation hands out any address that is not in use, so freed addresses may come back. A touch of freed memory, a second
free or a read of a missing payload sets a fault flag, which is proved never to be set. In the ring, a load of the other
side's index may return any value that index has held since the last one seen. A condition variable may wake anybody
spuriously, a weak compare-exchange may fail spuriously. Noise samples and clock readings are inputs of a tick, quantities
are exact reals, and drivers are indices, with an index outside the table for an unknown one. Numbers of cars, threads,
tasks, events and ticks are arbitrary; the ring holds any power of two from 2 to 2^63.

## What turned out not to hold

Each of these is kept as the code has it, with the exact condition proved and, where one is needed, a witness.

- A pool of no workers joins at once and drops what it accepted: `PoolSteps.DestructorRunsAll`, with the run in
  `PoolSteps.DropsWithoutWorkers`.
- The queue's destructor leaves memory behind exactly if a producer is in the middle of a push:
  `MpscSteps.DestroyFreesAll`, with runs that stop before and after the exchange in `MpscSteps.LeaksMidPush`.
- The comment at `src/common/race_state.h:78-80` promises one winner. The time has one (`FastestLap.OneWinner`); the holder
  is a separate store and can name an overtaken claimer (`FastestLap.HolderCanBeWrong`, for any two claimers, drivers and
  laps). The published pair is right in every run of a set of callers if and only if that set has at most one member:
  `FastestLap.PairRightIffSoleCaller`. The program has one.
- `best_lap_ms` treats a best below one millisecond as "none yet": `RaceResults.BestOfIsLeast`, with a race in
  `RaceResults.BestOfCanMiss`. That race needs a short track and a fast clock. With ticks at least a millisecond apart
  (the program sleeps twenty) and no car within one tick of the line on the grid, as on the default track with its twenty
  drivers, it cannot happen: `RaceResults.BestIsLeastAtTickRate`.
- One subtraction per tick keeps every car of every race inside its lap exactly on tracks no shorter than the fastest
  tick: `RaceResults.OneSubtractionSuffices`, whose failing direction drives a car from the grid past its lap.
- The comment at `src/race_control/penalty_enforcer.cpp:66` speaks of about 13 ticks; the code stores 3, and so does the
  model.

## Model

| member | source | states |
|---|---|---|
| MpscSteps.MemorySafe | src/concurrency/mpsc_queue.h:36-60 | in every interleaving of any number of producers with the consumer, no freed node is ever touched or freed again, `head_` and `tail_` point to live nodes, and so does the predecessor a stalled producer still has to link |
| MpscSteps.OneChain | src/concurrency/mpsc_queue.h:36-47 | the nodes from `tail_` to `head_` form one repetition-free chain in exchange order; a link is null exactly at the last node and where the next node's producer has exchanged but not linked |
| MpscSteps.PoppedInOrder | src/concurrency/mpsc_queue.h:36-60 | values popped are a prefix of the exchange order, and each producer's share of them is a prefix of what it pushed, in its order: no loss, duplication or reordering |
| MpscSteps.PopFailsOnlyWhen | src/concurrency/mpsc_queue.h:50-53 | `pop` finds nothing if and only if everything exchanged has been popped or the producer of the very next item is between exchange and link |
| MpscSteps.PopCallEffect | src/concurrency/mpsc_queue.h:51-60 | an undisturbed `pop` changes nothing, or returns the oldest outstanding item and frees one node |
| MpscSteps.PushCallEffect | src/concurrency/mpsc_queue.h:36-47 | an undisturbed `push` adds exactly its value at the end of the exchange order and leaves the results and all other producers alone |
| MpscSteps.PopCallState | src/concurrency/mpsc_queue.h:51-60 | an undisturbed successful `pop` makes the next node, emptied, the sentinel and removes only the old one |
| MpscSteps.NextNode | src/concurrency/mpsc_queue.h:52-55 | the node `pop` takes from is live, is not the sentinel and carries the oldest outstanding item |
| MpscSteps.DrainEffect | src/concurrency/mpsc_queue.h:25-30 | popping until nothing is found ends, whatever producers are stalled, with an unready queue, the same producers and the old results as a prefix |
| MpscSteps.DrainReturnsAll | src/concurrency/mpsc_queue.h:25-30 | with no push under way, draining returns exactly the outstanding items in order and leaves only the sentinel |
| MpscSteps.DestroyFreesAll | src/concurrency/mpsc_queue.h:25-30 | the destructor leaves nothing allocated if and only if no producer is in the middle of a push, and then frees equal allocations |
| MpscSteps.LeaksMidPush | src/concurrency/mpsc_queue.h:25-47 | a destructor that runs while a push stands before its exchange, or between exchange and link, keeps that push's node and never returns its value |
| MpscSteps.StepInv | src/concurrency/mpsc_queue.h:36-60 | every atomic step of `push` and `pop` keeps the invariant on chain, nodes, producers, consumer and history |
| MpscSteps.Reachable | src/concurrency/mpsc_queue.h:19-60 | the invariant holds after every run of a new queue |
| MpscSteps.StartedRun | src/concurrency/mpsc_queue.h:36-47 | what a producer has begun to push is what it has exchanged in plus at most the one value in its private node |
| MpscQueueClass.MpscQueue.constructor | src/concurrency/mpsc_queue.h:19-23 | a new queue is the initial configuration: one sentinel under both pointers |
| MpscQueueClass.MpscQueue.Allocate | src/concurrency/mpsc_queue.h:37 | allocating the node on the heap is the first step of a push, and touches no shared node |
| MpscQueueClass.MpscQueue.ExchangeHead | src/concurrency/mpsc_queue.h:42 | the exchange on the object is the exchange step, and leaves its producer owing exactly one link |
| MpscQueueClass.MpscQueue.LinkNode | src/concurrency/mpsc_queue.h:46 | storing the link into the predecessor is the link step; the predecessor is still live |
| MpscQueueClass.MpscQueue.Push | src/concurrency/mpsc_queue.h:36-47 | an undisturbed push appends one value to the exchange order, pops nothing and leaves other producers where they were |
| MpscQueueClass.MpscQueue.Pop | src/concurrency/mpsc_queue.h:51-60 | succeeds if and only if the next node is linked, then returns the oldest outstanding value and logs it; it is the four atomic steps of the consumer and leaves the result of a full drain as it was |
| MpscQueueClass.MpscQueue.Empty | src/concurrency/mpsc_queue.h:62-64 | true if and only if a `pop` would fail now |
| MpscQueueClass.MpscQueue.DrainAll | src/concurrency/mpsc_queue.h:27-28 | the destructor's loop ends and is the drain whose result is specified above |
| MpscQueueClass.MpscQueue.Destroy | src/concurrency/mpsc_queue.h:25-30 | no node stays live if and only if no producer was in the middle of a push |
| BitMask.AndMask | src/concurrency/spsc_queue.h:29-32 | masking with a power of two less one is the remainder by it |
| BitMask.MaskedDistance | src/concurrency/spsc_queue.h:58-62 | the wrapped and masked difference of two slots is the difference of the counts behind them modulo the capacity, and exact within one lap |
| SpscSteps.FifoAndNoOverlap | src/concurrency/spsc_queue.h:65-106 | in every interleaving, with any stale index loads: items come out in push order, none twice; seen popped ≤ popped ≤ seen pushed ≤ pushed ≤ seen popped + capacity − 1; the slot being written is never the slot being read |
| SpscSteps.RefinesBoundedQueue | src/concurrency/spsc_queue.h:65-106 | every step of the ring is a step of a bounded queue of capacity − 1 items: an append with room, a removal of the oldest, or nothing |
| SpscSteps.PushRefusesWhenFull | src/concurrency/spsc_queue.h:71-74 | `push` gives up if and only if the ring held capacity − 1 items as of the index it loaded; with a fresh load, if and only if it is full |
| SpscSteps.PopRefusesWhenEmpty | src/concurrency/spsc_queue.h:98-101 | `pop` gives up if and only if everything published up to the index it loaded is gone; with a fresh load, if and only if the ring is empty |
| SpscSteps.ReadersSeeRemainder | src/concurrency/spsc_queue.h:53-62 | whatever two index values any thread loads, in any run, `size_approx` is the difference of the counts behind them modulo the capacity and `empty` says that it is nil; both are exact if neither index is behind or a lap ahead |
| SpscSteps.FullTest | src/concurrency/spsc_queue.h:67-73 | comparing masked indices decides fullness with respect to any popped count the producer may have seen |
| SpscSteps.EmptyTest | src/concurrency/spsc_queue.h:98-100 | comparing masked indices decides emptiness with respect to any pushed count the consumer may have seen |
| SpscSteps.StepInv | src/concurrency/spsc_queue.h:65-106 | every load and store of either side keeps the invariant on indices, slots and both program counters |
| SpscSteps.PushCallEffect | src/concurrency/spsc_queue.h:65-79 | a call of `push` without interference appends its item if and only if there is room, and keeps the invariant |
| SpscSteps.PopCallEffect | src/concurrency/spsc_queue.h:94-106 | a call of `pop` without interference removes the oldest item if there is one, and keeps the invariant |
| SpscSteps.PushCallRing | src/concurrency/spsc_queue.h:65-79 | which fields such a `push` changes, and that its index test accepts if and only if there is room |
| SpscSteps.PopCallRing | src/concurrency/spsc_queue.h:94-106 | which fields such a `pop` changes, and that the slot it reads holds the oldest item |
| SpscSteps.DrainReturnsAll | src/concurrency/spsc_queue.h:94-106 | popping until the ring refuses returns every item ever published |
| SpscQueueClass.SpscQueue.constructor | src/concurrency/spsc_queue.h:38-49 | a new ring is the initial configuration and holds nothing |
| SpscQueueClass.SpscQueue.Push | src/concurrency/spsc_queue.h:65-91 | accepts if and only if fewer than capacity − 1 items are held, and then appends exactly its item (both overloads) |
| SpscQueueClass.SpscQueue.Pop | src/concurrency/spsc_queue.h:94-106 | returns the oldest item and removes it if and only if there is one |
| SpscQueueClass.SpscQueue.SizeApprox | src/concurrency/spsc_queue.h:58-62 | without interference the wrapped and masked difference is the exact number of items |
| SpscQueueClass.SpscQueue.Empty | src/concurrency/spsc_queue.h:53-56 | equal indices if and only if no items |
| PoolSteps.NoLostWakeup | src/concurrency/thread_pool.cpp:21-38 | with at least one worker and spurious wakeups, a queued task always has a worker checking or running or a notification coming; while some worker sleeps there is one checker or notification per queued task; once stopping, `notify_all` is to come or nobody sleeps |
| PoolSteps.TasksRunOnceInOrder | src/concurrency/thread_pool.cpp:21-42 | tasks are dequeued in submission order, none finishes twice, and a dequeued task has finished or is on exactly one worker of its own |
| PoolSteps.DestructorRunsAll | src/concurrency/thread_pool.cpp:10-19 | when all workers are joined, every accepted task has been run exactly once, if and only if there was a worker or nothing was accepted |
| PoolSteps.DropsWithoutWorkers | src/concurrency/thread_pool.cpp:3-19 | a run in which a pool of no workers accepts a task, is destroyed and has not run it |
| PoolSteps.JoinedRunsAll | src/concurrency/thread_pool.cpp:10-42 | the same from any state that satisfies the invariant |
| PoolSteps.ShutdownStep | src/concurrency/thread_pool.cpp:15-42 | after `notify_all` every step that changes anything lowers a measure over queued tasks, workers, notifications and joins |
| PoolSteps.ShutdownNeverStuck | src/concurrency/thread_pool.cpp:15-42 | until the last join some thread can take a step |
| PoolSteps.ShutdownTerminates | src/concurrency/thread_pool.cpp:10-42 | every schedule after `notify_all` is bounded beforehand, and one that can go no further has joined every worker |
| PoolSteps.StepInv | src/concurrency/thread_pool.h:62-71 | every critical section, notification, wakeup and join keeps the invariant on wakeups, shutdown and task accounts |
| ThreadPoolClass.ThreadPool.constructor | src/concurrency/thread_pool.cpp:3-8 | n workers about to check an empty queue |
| ThreadPoolClass.ThreadPool.EnqueueTask | src/concurrency/thread_pool.h:62-69 | the locked part of `submit` is the submit step; refused if and only if the pool is stopped |
| ThreadPoolClass.ThreadPool.NotifyOne | src/concurrency/thread_pool.h:71 | wakes a worker that slept, or nobody if none did, and is the notify step |
| ThreadPoolClass.ThreadPool.Submit | src/concurrency/thread_pool.h:44-73 | refused with no effect if and only if stopped; otherwise the task is queued last and exactly one sleeper, if there is one, is woken |
| ThreadPoolClass.ThreadPool.CheckOnce | src/concurrency/thread_pool.cpp:25-38 | the locked part of the worker's loop is the check step: sleep, exit, or take the oldest task |
| ThreadPoolClass.ThreadPool.FinishTask | src/concurrency/thread_pool.cpp:40 | the end of a task is the finish step |
| ThreadPoolClass.ThreadPool.WorkerLoop | src/concurrency/thread_pool.cpp:21-42 | a worker left alone empties the queue in order, then sleeps, or exits if the pool is stopping |
| ThreadPoolClass.ThreadPool.StopAll | src/concurrency/thread_pool.cpp:11-15 | setting the flag and notifying are the two destructor steps, and leave nobody asleep |
| ThreadPoolClass.ThreadPool.Destroy | src/concurrency/thread_pool.cpp:10-19 | joins every worker, after which each accepted task has run exactly once if there was a worker |
| SingleFlight.OneOfEachKind | src/main.cpp:110-128 | of each kind of job at most one submission is queued or running in any reachable state |
| SingleFlight.NeverEnteredTwice | src/main.cpp:90-128 | no two workers run jobs of one kind, none is queued beside another of its kind, and the pool's queue never exceeds two jobs |
| SingleFlight.SubmissionNeverRefused | src/main.cpp:110-128 | at any point of any run, with the main thread inside or past its shutdown calls, a job offered while its predecessor is over is accepted last in line and owns its future, and otherwise nothing is submitted |
| SingleFlight.ProgramEndRunsAll | src/main.cpp:196-198 | since the main thread joins the generator before it leaves the scope of the pool, a destroyed pool has run every job the generator ever submitted exactly once |
| SingleFlight.OffersInCadence | src/main.cpp:99-124 | in every run the track-limits guard has been looked at once for every nine ticks and the weather guard once for every tick |
| SingleFlight.TickGoesOn | src/main.cpp:110-128 | wherever the generator stands in a tick it has a step to take, whatever the workers do: every ninth tick goes to the track-limits guard first, and every tick to the weather guard |
| SingleFlight.StepInv | src/main.cpp:110-128 | every step of generator and pool keeps each unfinished submission covered by the future of its kind |
| FastestLap.ClaimAllIsFirstLeast | src/common/race_state.h:91-107 | claims in sequence end with the least lap offered, held by the driver of the first offer to attain it |
| FastestLap.BestIsLeastOffered | src/common/race_state.h:91-107 | with any number of concurrent claimers and spurious failures, each success strictly lowers the time, and when nobody is in flight it is the least of the initial value and all offers |
| FastestLap.FailureMeansLowered | src/common/race_state.h:94-104 | a failure that is not spurious means another caller has strictly lowered the time since this caller's load |
| FastestLap.OneWinner | src/common/race_state.h:77-80 | from any quiet point after any history: if all later calls offer the same lap, it beats the published time, and they have returned, then exactly one of them returned true and the lap is published |
| FastestLap.HolderIsLastStored | src/common/race_state.h:94-101 | with nobody in flight each win has been stored once, and the holder is the successful claimer that stored last, right at least if that is the last winner |
| FastestLap.HolderCanBeWrong | src/common/race_state.h:94-101 | any two claimers, with any two drivers and laps, have a run that ends with the time of one and the name of the other, a pair nobody offered |
| FastestLap.PairRightIffSoleCaller | src/common/race_state.h:77-107 | in every quiet state of every run of a set of callers the published pair is one of the offers, if and only if the set has at most one member |
| FastestLap.SoleClaimerHolderRight | src/common/race_state.h:91-107 | with one claiming thread, between calls the holder is the driver of the first lap attaining the least, or nobody if no lap was below the initial value |
| FastestLap.SoleRun | src/common/race_state.h:91-107 | with one claiming thread the atomics follow the sequential claim, step by step |
| FastestLap.CallIsImprove | src/common/race_state.h:91-107 | an undisturbed call with any number of spurious failures has the effect of one sequential claim on whatever came before |
| FastestLap.StepInv | src/common/race_state.h:91-107 | every load, compare-exchange and store keeps the invariant on wins, offers, callers and holder |
| RaceStateClass.RaceState.constructor | src/common/race_state.h:87-88 | no holder and the initial value |
| RaceStateClass.RaceState.TryClaimFastestLap | src/common/race_state.h:91-107 | the loop ends after any number of spurious failures; it returns true if and only if the lap beat the published time, and then both fields are its own |
| Ranking.StableOrderRanks | src/simulation/telemetry_generator.cpp:199-207 | the stable descending sort lists every car once, further ahead first, level cars by index |
| Ranking.PlacesDecide | src/simulation/telemetry_generator.cpp:199-207 | an earlier place is the same as being ahead, and no car has two places |
| Ranking.PlaceIsCarsAhead | src/simulation/telemetry_generator.cpp:210-212 | in any full ranking a car's place is the number of cars ahead of it, so the ranking is unique |
| Telemetry.SpeedOf | src/simulation/telemetry_generator.cpp:83-90 | for any noise, fuel, wear and car the speed lies in the clamped range |
| Telemetry.LoadSlows | src/simulation/telemetry_generator.cpp:78-90 | all else equal, more fuel and more worn tires never make a car faster |
| Telemetry.LoadEndpoints | src/simulation/telemetry_generator.cpp:78-90 | without noise and load a car runs at 280 kph and 90 for its engine, a full tank takes 8 % of that and worn-out tires 25 %, all within 80 and 370 |
| Telemetry.NoiseAndDrs | src/simulation/telemetry_generator.cpp:85-90 | within the limits DRS adds 12 kph and noise eight times its inconsistent part; beyond them neither works the other way |
| Telemetry.MoveRanges | src/simulation/telemetry_generator.cpp:98-115 | a moving tick covers at least the slowest distance, stays below two lap lengths and keeps wear, fuel and sector in range |
| Telemetry.CarTickRanges | src/simulation/telemetry_generator.cpp:64-154 | a tick of a car keeps distance, wear, fuel and sector in range |
| Telemetry.CarTickPit | src/simulation/telemetry_generator.cpp:133-139 | a tick keeps car and frame in agreement on the pits, at most one stop, and the timer equal to the pit ticks still owed |
| Telemetry.CarTickDistance | src/simulation/telemetry_generator.cpp:98-120 | a tick adds exactly its distance to laps times length plus distance in the lap |
| Telemetry.CarTickFuel | src/simulation/telemetry_generator.cpp:106-115 | a tick keeps fuel and wear equal to what the distance since the start or the stop leaves of a full tank and of fresh tires |
| Telemetry.CarTickLaps | src/simulation/telemetry_generator.cpp:117-132 | a tick adds one positive lap time if and only if it completes a lap, and the best lap follows |
| Telemetry.UpdateIsPlacement | src/simulation/telemetry_generator.cpp:197-238 | the cars are placed as the unique full ranking of their total distances says, every car in the place it has there |
| Telemetry.PlacementKeeps | src/simulation/telemetry_generator.cpp:197-238 | ranking changes nothing but position, gap and DRS |
| Race.RaceLapIsMax | src/simulation/telemetry_generator.cpp:141-147 | over the cars of a tick `race_lap_` becomes the maximum of its old value and all laps, and finishing needs a lap beyond the last |
| Race.TickOk | src/simulation/telemetry_generator.cpp:63-160 | a tick with any noise keeps the accounts of every car, the ranking, the race lap and the frame log in order |
| Race.InitOk | src/simulation/telemetry_generator.cpp:9-33 | the staggered grid is in order: every position is one more than the number of cars ahead |
| RaceResults.DistanceConserved | src/simulation/telemetry_generator.cpp:98-120 | over any race laps times length plus distance is the grid value plus all tick distances; distance, wear, fuel and sector stay in range |
| RaceResults.LapsWithin | src/simulation/telemetry_generator.cpp:87-139 | every car has completed k laps after the ticks the slowest speed needs for them plus the eleven of a stop |
| RaceResults.FiftyLapsOnDefaultTrack | src/common/season_data.h:49-55 | on the default track every car has completed all fifty laps after 5074 ticks, whatever the noise |
| RaceResults.OneSubtractionSuffices | src/simulation/telemetry_generator.cpp:118-119 | every car of every field stays inside its lap in every race from the grid on and for all noise, if and only if the track is at least as long as the fastest tick |
| RaceResults.PositionsFollowTheRoad | src/simulation/telemetry_generator.cpp:197-212 | after every tick a smaller position is the same as being further along: by lap, then distance, then index |
| RaceResults.PositionsArePermutation | src/simulation/telemetry_generator.cpp:210-212 | after every tick positions are 1 to n, each taken |
| RaceResults.LeaderIsOnRaceLap | src/simulation/telemetry_generator.cpp:141-147 | `race_lap_` is the highest lap and the leader's; the finished flag implies a car beyond lap fifty |
| RaceResults.GapsNonNegative | src/simulation/telemetry_generator.cpp:214-233 | after any tick no gap to the leader is negative; the leader's is zero, without DRS |
| RaceResults.OneStopOfElevenTicks | src/simulation/telemetry_generator.cpp:164-193 | over any race a car stops at most once, for exactly eleven ticks once the stop is over, and car and frame agree on it |
| RaceResults.OneFramePerLap | src/simulation/telemetry_generator.cpp:68-76 | over any race a car's pushed frames with a positive lap time are one per completed lap, stops included, and its best lap is the running best over them |
| RaceResults.BestOfIsLeast | src/simulation/telemetry_generator.cpp:129-131 | the running best is the least lap if and only if all laps take at least a millisecond or the last one is the least |
| RaceResults.BestOfCanMiss | src/simulation/telemetry_generator.cpp:129-131 | a race whose car drives laps of half a millisecond and two and records two as its best |
| RaceResults.BestIsLeastAtTickRate | src/simulation/telemetry_generator.cpp:54-59 | with clocks at least a millisecond further every tick and nobody within a tick of the line on the grid, every lap takes a millisecond and every best lap is the least |
| RaceLaws.GapIsTimeBehind | src/simulation/telemetry_generator.cpp:214-229 | after any tick, a car's gap times the mean of its and the leader's speed (at least 1 kph) is 3600 times the kilometres it is behind; the leader's gap is zero |
| RaceLaws.DrsWithinASecond | src/simulation/telemetry_generator.cpp:232-237 | after any tick, the car in position 1 has no DRS, and another has it if and only if its gap exceeds that of the car one position ahead by less than a second |
| RaceLaws.FinishedExactly | src/simulation/telemetry_generator.cpp:145-147 | a tick leaves the race finished if and only if it was, or the car that was in position 1 completes a lap in it and is then beyond lap fifty |
| RaceLaws.RaceFinishedExactly | src/simulation/telemetry_generator.cpp:145-147 | a race is finished if and only if some tick of it did that |
| RaceLaws.PitDecision | src/simulation/telemetry_generator.cpp:134-139 | a tick sends a car into the pits if and only if it completes a lap, has not stopped before, is then at least on lap 5 and its tires are worn by 0.60 and a quarter of its tire management; it then has eleven ticks to stand |
| RaceLaws.StandingTick | src/simulation/telemetry_generator.cpp:164-182 | a tick in the pits counts down, moves nothing and reports pit-lane speed; on the last one the car leaves with tires worn by 2 %, 100 kg of fuel and one stop more |
| RaceLaws.EveryCarStops | src/simulation/telemetry_generator.cpp:134-193 | whatever the noise, every car has made its one stop and left the pits after the ticks that wear its tires out at the slowest speed, those of one more lap, and eleven |
| RaceLaws.SeasonStops | src/common/season_data.h:11-32 | on the default track every driver with the season's aggression and tire management has done so after 3838 ticks |
| RaceLaws.ARaceWithAStop | src/simulation/telemetry_generator.cpp:134-193 | a legal race from the grid of the default track in which a car stops and leaves again |
| RaceLaws.DrivingTick | src/simulation/telemetry_generator.cpp:92-132 | in any race a tick on the track drives the car on by 2.4 s at its speed, with throttle, brake, wear and fuel in proportion; it completes a lap if and only if that takes it to the line, timed by the clock; otherwise the sector is the third of the lap it is in |
| RaceLaws.FramesPushed | src/simulation/telemetry_generator.cpp:150-156 | a tick pushes one frame per car in order, equal to the car's frame after the tick except for gap and DRS, which are still the old ones |
| RaceLaws.FuelAndTiresFollowDistance | src/simulation/telemetry_generator.cpp:106-115 | over any race fuel and wear are functions of the distance since the start or the stop, and before the stop of the distance from the grid |
| RaceLaws.LapTimesAddUp | src/simulation/telemetry_generator.cpp:122-127 | over any race the lap times in a car's frames add up to the clock time from the start to its last crossing of the line |
| TelemetryGeneratorClass.TelemetryGenerator.constructor | src/simulation/telemetry_generator.cpp:9-33 | the loop over the drivers builds the grid, which satisfies the race invariant |
| TelemetryGeneratorClass.TelemetryGenerator.HandlePit | src/simulation/telemetry_generator.cpp:164-182 | the field-by-field updates amount to the pit tick that `RaceLaws.StandingTick` describes |
| TelemetryGeneratorClass.TelemetryGenerator.Drive | src/simulation/telemetry_generator.cpp:74-139 | the sequence of updates amounts to the moving tick that `RaceLaws.DrivingTick` and `RaceLaws.PitDecision` describe, and reports a crossing if and only if a lap was completed |
| TelemetryGeneratorClass.TelemetryGenerator.TickCar | src/simulation/telemetry_generator.cpp:64-154 | changes only the i-th car, and the race lap and finished flag as `Race.RaceLapIsMax` and `RaceLaws.FinishedExactly` say for the cars up to it |
| TelemetryGeneratorClass.TelemetryGenerator.Tick | src/simulation/telemetry_generator.cpp:63-160 | the loop over the cars and the ranking are one tick of the race, to which every law above applies, and every car's frame is pushed before the ranking |
| TelemetryGeneratorClass.TelemetryGenerator.AssignPositions | src/simulation/telemetry_generator.cpp:210-230 | the first pass gives every place its position and the gap `RaceLaws.GapIsTimeBehind` describes, and nothing else, although it updates cars it later reads |
| TelemetryGeneratorClass.TelemetryGenerator.AssignDrs | src/simulation/telemetry_generator.cpp:232-237 | the second pass completes the placement |
| TelemetryGeneratorClass.TelemetryGenerator.UpdatePositionsAndDrs | src/simulation/telemetry_generator.cpp:197-238 | the two passes in place yield the unique placement of the stable order, with the gaps and DRS flags of `RaceLaws.GapIsTimeBehind` and `RaceLaws.DrsWithinASecond` |
| LapClaims.ClaimFramesIsClaimAll | src/simulation/lap_time_consumer.cpp:21-27 | claiming frame by frame is claiming the offers among the frames in order |
| LapClaims.ClaimFramesConcat | src/simulation/lap_time_consumer.cpp:33-42 | the final drain goes on where the live loop left off |
| LapTimeConsumerClass.LapTimeConsumer.constructor | src/simulation/lap_time_consumer.cpp:6-7 | holds the given queue and race state |
| LapTimeConsumerClass.LapTimeConsumer.Claim | src/simulation/lap_time_consumer.cpp:22-27 | a frame counts if and only if its lap time is positive and its driver is known |
| LapTimeConsumerClass.LapTimeConsumer.PopAndClaim | src/simulation/lap_time_consumer.cpp:21-30 | takes the oldest frame and claims it, or finds the ring empty and does nothing |
| LapTimeConsumerClass.LapTimeConsumer.DrainQueue | src/simulation/lap_time_consumer.cpp:35-42 | ends with an empty ring and every frame that was in it claimed once, in order |
| LapTimeConsumerClass.LapTimeConsumer.Look | src/simulation/lap_time_consumer.cpp:21-30 | after a burst, one look claims at most the oldest frame and loses none |
| LapTimeConsumerClass.LapTimeConsumer.Watch | src/simulation/lap_time_consumer.cpp:20-31 | with frames arriving between its looks, frames claimed followed by frames left are the frames accepted |
| LapTimeConsumerClass.LapTimeConsumer.Run | src/simulation/lap_time_consumer.cpp:18-43 | afterwards the ring is empty and the pair accounts for every accepted frame, in order, once; no frame is dropped if all fit |
| LeaderboardClass.Leaderboard.constructor | src/common/leaderboard.h:96-98 | empty standings and no writer |
| LeaderboardClass.Leaderboard.Update | src/common/leaderboard.h:47-56 | the first writer claims the board for good; any other thread is refused with no effect |
| LeaderboardClass.Leaderboard.AtPosition | src/common/leaderboard.h:73-79 | the first entry with the position, or the default record if there is none |
| LeaderboardClass.Leaderboard.FastestLapHolder | src/common/leaderboard.h:82-93 | the scan names the holder that claiming the best laps in board order would leave |
| PipelineSteps.ConsumerClaimsAll | src/simulation/lap_time_consumer.cpp:18-43 | in every interleaving, when the consumer thread has ended the ring is empty, each frame of the generator was refused or claimed once, and the pair is what claiming the accepted ones in order yields |
| PipelineSteps.StepInv | src/simulation/lap_time_consumer.cpp:18-43 | every step of generator, consumer and main thread keeps frames offered, in flight, refused, popped and claimed in account |
| PipelineSteps.SomeRunEnds | src/simulation/lap_time_consumer.cpp:18-43 | any frames pass any ring in some run that refuses none and ends the consumer |
| EndToEnd.ClaimsNameFastest | src/simulation/lap_time_consumer.cpp:18-43 | claiming all frames of a race yields the least best lap of the field and a driver who has it |
| EndToEnd.ScanNamesFastest | src/common/leaderboard.h:82-93 | scanning the board in any order names a driver with the least best lap of the field |
| EndToEnd.FastestLapEndToEnd | src/main.cpp:196-198 | for every race and every interleaving of its pushes, pops, claims and the stop request, with stale loads and spurious failures: once the consumer has ended with no frame refused and lap times sane, the shared pair is the least of all best laps and its driver, and the scan agrees whenever one driver has it |
| EndToEnd.SomeRunsFinish | src/main.cpp:196-198 | every race and every ring capacity have such a run: nothing is refused and the consumer ends |
| EndToEnd.OffersAreLaps | src/simulation/lap_time_consumer.cpp:22-27 | the offers among the frames are exactly the lap times of the known drivers |
| PenaltySteps.AtMostOnePenalty | src/race_control/penalty_enforcer.cpp:45-69 | with any number of processing threads, a driver is announced at most once, from the one `fetch_add` that yields three; the compare-exchange from NONE never fails; a penalty implies three warnings |
| PenaltySteps.QuietPenalties | src/race_control/penalty_enforcer.cpp:45-69 | with no thread in the middle of an event, announced once and penalised are exactly the drivers with three warnings |
| PenaltySteps.StatesMoveForward | src/race_control/penalty_enforcer.cpp:74-94 | no step moves a driver back or skips a stage of NONE, PENDING, SERVING, SERVED |
| PenaltySteps.OneDriverMoves | src/race_control/penalty_enforcer.cpp:45-94 | a pit entry takes exactly its driver from PENDING to SERVING, a pit exit from SERVING to SERVED, the exchange for a third warning from NONE to PENDING; nothing else moves a driver, and only its own count adds a warning |
| PenaltySteps.StagesFollowActions | src/race_control/penalty_enforcer.cpp:45-94 | in every run of any number of threads a driver's counter is the number of its warnings counted, and it has served if and only if the exchange for its third, a later pit entry and a still later pit exit have happened; likewise for serving and pending |
| PenaltySteps.StepInv | src/race_control/penalty_enforcer.cpp:45-94 | every atomic step, pit calls included, keeps the invariant on drivers and threads |
| PenaltyBatches.ProcessOneIsThreadSteps | src/race_control/penalty_enforcer.cpp:39-70 | processing one event is what a thread does in three undisturbed atomic steps, and announces at most the driver and lap of that event |
| PenaltyBatches.BatchIsFed | src/race_control/penalty_enforcer.cpp:39-71 | a batch has the effect of its track-limits events fed one at a time |
| PenaltyBatches.BatchingIndependent | src/race_control/penalty_enforcer.cpp:25-94 | any two schedules that process the same warnings and pit calls in the same order agree on warnings, states and announcements, however they cut the stream |
| PenaltyBatches.StreamKept | src/race_control/penalty_enforcer.cpp:35-37 | warnings processed so far followed by those still queued are those that arrived, in order, whatever a drain could see |
| PenaltyBatches.SameArrivalsSameOutcome | src/race_control/penalty_enforcer.cpp:25-72 | without pit calls the arrivals alone decide the outcome |
| PenaltyBatches.CallLeavesItsAnnouncements | src/race_control/penalty_enforcer.cpp:26-37 | with no other producer a call leaves exactly its own announcements queued, and the next call leaves nothing and changes nothing |
| PenaltyLaws.BatchesAnnounceThirds | src/race_control/penalty_enforcer.cpp:45-67 | in every schedule the announcements are, in order, one per known driver with three warnings handled, with the driver and lap of its third; its counter is the number of its warnings, and its extra pit time 3 from then on |
| PenaltyLaws.BatchesStage | src/race_control/penalty_enforcer.cpp:45-94 | in every schedule a driver has served its penalty if and only if its third warning, a later pit entry and a still later pit exit were processed; it is serving, or has one pending, if and only if just the first two, or just the first, were |
| PenaltyLaws.QueueAnnouncesThirds | src/race_control/penalty_enforcer.cpp:25-72 | the law of announcements with any number of other threads pushing at any time |
| PenaltyLaws.QueueStage | src/race_control/penalty_enforcer.cpp:25-94 | the law of penalty stages with any number of other threads pushing at any time |
| PenaltyQueueSteps.ProcessedInExchangeOrder | src/race_control/penalty_enforcer.cpp:25-72 | with any number of threads pushing during and between calls: events are processed once each in exchange order, the rest of the batch next, and the outcome is that of feeding their warnings one at a time |
| PenaltyQueueSteps.InterleavingIndependent | src/race_control/penalty_enforcer.cpp:25-94 | two such runs that processed the same warnings and pit calls in the same order agree on warnings, states and announcements |
| PenaltyQueueSteps.SameEventsSameOutcome | src/race_control/penalty_enforcer.cpp:25-72 | without pit calls the warnings processed decide the outcome, however pushes and batches interleave |
| PenaltyQueueSteps.AnnouncedOnce | src/race_control/penalty_enforcer.cpp:57-64 | announcements enter the shared queue once each, in the order decided, and are all in whenever no push of one is under way |
| PenaltyQueueSteps.EnforcerGetsOn | src/race_control/penalty_enforcer.cpp:35-72 | a drain ends exactly when the next node is not linked, the batch is then handled event by event, every push is followed through, and the call returns with the batch empty |
| PenaltyQueueSteps.StepInv | src/main.cpp:95-98 | every atomic step of drain, processing, announcement, pit calls and foreign pushes keeps the accounts |
| PenaltyEnforcerClass.PenaltyEnforcer.constructor | src/race_control/penalty_enforcer.cpp:9-16 | fresh arrays, no warnings, no penalties, the shared queue |
| PenaltyEnforcerClass.PenaltyEnforcer.DrainEvents | src/race_control/penalty_enforcer.cpp:35-37 | the batch is what draining the linked queue returns, in order |
| PenaltyEnforcerClass.PenaltyEnforcer.ProcessEvent | src/race_control/penalty_enforcer.cpp:39-70 | the arrays change as the step does that `PenaltyLaws.BatchesAnnounceThirds` is about, and the announcement it makes, if any, goes into the same queue |
| PenaltyEnforcerClass.PenaltyEnforcer.ProcessBatch | src/race_control/penalty_enforcer.cpp:39-71 | the loop processes the whole batch in order, each event once, and its announcements enter the queue in that order |
| PenaltyEnforcerClass.PenaltyEnforcer.ProcessEvents | src/race_control/penalty_enforcer.cpp:25-72 | the batch is the linked front of what was waiting; afterwards the queue holds the rest and then the announcements; the call is one step of the batch schedule |
| PenaltyEnforcerClass.PenaltyEnforcer.DriverEnteredPits | src/race_control/penalty_enforcer.cpp:74-83 | a known PENDING driver becomes SERVING; no other driver, state or field changes |
| PenaltyEnforcerClass.PenaltyEnforcer.DriverExitedPits | src/race_control/penalty_enforcer.cpp:85-94 | a known SERVING driver becomes SERVED; no other driver, state or field changes |

## Left out

- Console output, the half-second render loop, its wall-clock timeout and `benchmarks/`: input and output, real time and
  performance.
- The C++ memory model beyond interleaving of atomic steps: only the ring's index loads may be stale; relaxed executions
  in general are not enumerated.
- Rounding of `float`, the random generator and its distributions: quantities are exact reals, noise is an arbitrary input,
  and `TrackLimitsMonitor::check` appears only as some sequence of TRACK_LIMITS events.
- Width of machine integers other than the ring's indices: warning counters, laps and counts do not wrap.
- `WeatherSystem`: a throttle and a three-state cycle; to the rest of the program it is one more producer of events.
- Whether `race_finished_` is ever set: under arbitrary noise the car crossing the line need not be the previous tick's
  leader, so `RaceLaws.RaceFinishedExactly` says when it is and `RaceResults.LapsWithin` bounds laps.
- Whether gaps grow with position: they use a different average speed per car, so neighbouring differences may be negative.
- Who reads `extra_pit_time_`: nobody in the modelled files; the store itself is modelled.
- Start and stop flags, the safety car, getters, snapshots, driver and car tables, messages and timestamps.
- Exceptions and futures: a refused `submit` or `update` returns false, and a future is the submission it belongs to;
  tasks are values that finish.
- `Telemetry.ClockOk`: a lap takes a positive time on the clock; a zero lap time would carry no completion marker.
- `LapTimeConsumerClass.LapTimeConsumer.Watch`: given what arrives between its looks, since a method runs undisturbed; the
  interleaved form is `PipelineSteps.ConsumerClaimsAll`. The sleep between looks is left out.
- `LapTimeConsumerClass.LapTimeConsumer.Run`: the same, with the same interleaved form.
- `PenaltyEnforcerClass.PenaltyEnforcer.ProcessEvents`: nobody pushes during the call; the form with pushes during the call
  is `PenaltyQueueSteps.ProcessedInExchangeOrder`.
- `SpscQueueClass.SpscQueue.SizeApprox`: stated without interference; for any thread and any two loads,
  `SpscSteps.ReadersSeeRemainder`.
- `SpscQueueClass.SpscQueue.Empty`: likewise.
- `TelemetryGeneratorClass.TelemetryGenerator.Tick`: stated for at least one car, as the original indexes the leader unconditionally, and returns the frames it pushes instead of calling the ring.
- Destroying a pool, queue or generator while another thread still calls it: the original gives no meaning to that.
