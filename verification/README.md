# Verification of the grodyia runtime

This project models the stateful core of grodyia, a Go microservice framework, and proves
properties of whole runs of it. `dafny verify dfyconfig.toml` checks everything.

## What is modelled

**Outbound delivery of a WebSocket connection** (`Outbound`, `OutboundSafety`,
`OutboundProgress`, `OutboundFairness`, `WriterOrder`, `Connection`). Producers push into a direct and a
broadcast queue and race on the flag `writerRunning` for the right to be the one writer; the
writer drains, drops the flag, looks at the queues once more and may take the flag back.
`Outbound` is a transition system with any number of threads in which every channel operation,
every atomic operation and every socket write is one step; a run is any sequence of steps. The
class `Connection` has the loops as the source writes them, each proved to perform actions of
one thread of that system with other threads in between. The deferred clear of the flag also runs after the
voluntary one, so two writers can overlap; `TwoWritersCanOverlap` gives the run, and
`WriterOverlap` says exactly by how much in every reachable state.

**Heartbeats** (`Ping`, `Spacing`), **admission slots and the connection table** (`Slots`,
`SlotsAlone`, `WebSocketServer`, `ConnectionIds`) and **parallel broadcast** (`Fanout`) of the WebSocket
server. `Slots` is again a transition system, and the class `Server` runs in it.

**The token bucket** (`RateLimiter`): the incremental refill-and-cap rule is the rule that
every window stays within burst plus rate times its length, over reals.

**The snake room** (`Snakes`, `SnakeLaws`, `Game`): the geometric invariant of a tick for every iteration
order and every draw, and what a tick decides. Collision judgement depends on the order: the
first of two snakes that meet head-on dies, the second lives.

**The in-memory registry** (`Registry`, `MemoryRegistry`, `RegistryExpiry`, `RegistryReads`,
`RegistryOrder`): replaying events gives the table, cleanup rounds are invisible to readers, what
is registered can be read until it expires, and which two events a watcher may get in the wrong
order.

**Configuration** (`Config`, `ConfigInPlace`, `Strings`): deep merge, dotted lookup, several
sources; first on trees as values, then on mutable mappings merged in place, where the law of a
merge is also proved of the references: which mapping object a path leads to afterwards.

**The circuit breaker** (`Breaker`), **the event bus** (`Bus`, `BusLife`, `BusPublish`, `EventBus`),
**the HTTP router** (`Router`) and **the application lifecycle** (`Lifecycle`).

Where the code and its comments or the expectations around it differ, the model follows the code:

- `writePump` does not guarantee a single writer (above).
- A half-open circuit breaker admits every request, although its comment says "limited":
  `HalfOpenAdmitsAll`, and for all settings the run in `HalfOpenIsReached`.
- An event published on the topic `*` reaches each wildcard subscriber twice
  (`ServedOnceExactlyWhen`).
- A handler can start after `Close` of the bus has returned; `HandlersAfterClose` says exactly
  when, and `CloseCanComeTooEarly` that it happens.
- A second `Close` of the bus returns at once, also while the first is still waiting, and is not
  final: `SecondCloseIsNotFinal`, with the exact condition in `HandlersAfterSecondClose`.
- `sendBroadcastMessage` can answer with `ErrConnectionClosed` for a message it has queued:
  `QueuedAndClosed`, and the step that decides it in `SendBroadcast`.
- `SetDirection` is meant to rule out reversing, but compares with the stored direction only: two
  turns between two ticks reverse a snake (`TwoTurnsReverse`, `ReversesExactlyWhen`).
- `Load` does not clear the cache of the configuration: `ReadLoadRead` is such a read, and the
  contract of `Store.Load` says of every cached value, plain or mapping, exactly when it is still
  right (`StaysRight`).
- A player who leaves a waiting room and comes back, or who joins twice, may make two snakes start
  on the same cells; `JoinKeepsGoodIff` says exactly when, and `LeaveAndRejoin` and
  `JoinTwiceOverlaps` are such runs.
- A watcher of the registry can get the events of two overlapping calls in the wrong order and
  then believe in a service that is gone: `OvertakenRegistration`, with the exact condition in
  `SwappedNotifies`.
- After a completed `Stop` of the application no later `Start` succeeds: the bus stays closed.

## Reading the contracts

- A run is a sequence of events and `Exec` (or `Run`, `After`) is the state it leads to; a lemma
  about `Exec(Init(..), es)` for all `es` is a statement about every reachable state.
- Where a method has other threads in between, `Interfere` stands for them: its contract allows
  any finite number of their actions. A clause guarded by `budget == old(budget)` or
  `moves == old(moves)` speaks about calls during which nobody interfered.
- Clock readings, random draws, map iteration orders, socket outcomes and what callbacks answer
  are parameters.

## Model

| member | source | states |
|---|---|---|
| OutboundSafety.NoWakeupIsLost | transport/ws/connection.go:252-273 | in every reachable state of any number of producers and writers, a non-empty queue of an open connection has a thread that is draining, will still look at that queue, or has its flag attempt ahead |
| OutboundSafety.NoLostWakeupStep | transport/ws/connection.go:394-413 | each single step keeps that, given that a raised flag means its last taker is still draining |
| OutboundSafety.OwnedStep | transport/ws/connection.go:394-401 | a raised flag always belongs to a thread that took it last and has not put it down |
| OutboundSafety.WriterOverlap | transport/ws/connection.go:253-272 | flag holders plus wasted clears equal the flag plus stale clears; draining writers are at most flag plus stale clears; without a stale clear no two threads drain at once |
| OutboundSafety.TwoWritersCanOverlap | transport/ws/connection.go:253-267 | a concrete run with one stale clear in which two writers drain |
| OutboundSafety.MessagesAreConserved | transport/ws/connection.go:142-157 | per queue, accepted is received followed by queued, in order; received is written, lost at a write error or in hand; queues keep their capacity |
| OutboundSafety.DeliveryIsFifo | transport/ws/connection.go:285-343 | without stale clear and write error, accepted is written, then at most one message in hand, then the queue, per queue and in order |
| OutboundSafety.LossClosesStep | transport/ws/connection.go:258-262 | a write error leaves the connection closed, or the thread that had it about to close it |
| OutboundSafety.QueuedAndClosed | transport/ws/ws.go:386-396 | a concrete run in which a broadcast is queued and its sender then finds the connection closed |
| OutboundProgress.FuelBurns | transport/ws/connection.go:252-273 | every action of every unfinished thread lowers one measure of the whole system |
| OutboundProgress.SettlingIsFinite | transport/ws/connection.go:252-273 | without new sends every schedule ends, within that measure |
| OutboundProgress.CanFinish | transport/ws/connection.go:252-273 | and no state is stuck: some schedule finishes every thread |
| OutboundProgress.QuietMeansDelivered | transport/ws/connection.go:264-271 | when all threads have finished on an open connection both queues are empty, the flag is down, nothing was lost, and per queue exactly the accepted messages were written - in order unless a stale clear happened |
| OutboundProgress.EveryScheduleDelivers | transport/ws/connection.go:252-273 | from every reachable state and for every schedule and every outcome of the writes: bounded, and at its end the connection is closed or everything accepted was written, in order unless a stale clear happened |
| OutboundFairness.PotentialStep | transport/ws/connection.go:313-343 | no action of any thread can let more broadcasts past a queued direct message than the potential of the writers |
| OutboundFairness.DirectIsNotStarved | transport/ws/connection.go:15-22 | at most min(8 * ceil(p / 4), 32) broadcasts are written before the direct message at position p, none if the writer was between batches, whatever producers do |
| OutboundFairness.StarvationBoundPerWriter | transport/ws/connection.go:313-343 | with overlapping writers the bound is multiplied by flag plus stale clears |
| Connection.Connection.ReceiveSend | transport/ws/connection.go:289-306 | the non-blocking receive is one step of this thread; undisturbed it takes the first message, or finds the queue empty |
| Connection.Connection.ReceiveBroadcast | transport/ws/connection.go:326-338 | the same for the broadcast queue |
| Connection.Connection.WriteOutbound | transport/ws/connection.go:275-283 | the message is the last of what the socket took, or the writer is on its way to closing; undisturbed it is exactly appended |
| Connection.Connection.TryWriteDirectBurst | transport/ws/connection.go:285-311 | the thread takes at most 2 * limit steps, two for each message; undisturbed it takes exactly the first min(limit, queued) messages and writes them in order, up to a write error |
| Connection.Connection.BatchRound | transport/ws/connection.go:319-339 | one round of the batch loop, with its preemption point and its early end; undisturbed with no direct message queued it writes the first broadcast, and ends the batch only if there is none |
| Connection.Connection.FinishBatch | transport/ws/connection.go:319-342 | the batch loop is the walk of one writer through a batch |
| Connection.Connection.WriteBroadcastBatch | transport/ws/connection.go:313-343 | a batch ends at the priority check or in a write error |
| Connection.Connection.DrainPendingWrites | transport/ws/connection.go:422-444 | a drain that nobody disturbs and that writes nothing found both queues empty; what it writes is what comes next in the order direct, then broadcast |
| Connection.Connection.HasPendingMessages | transport/ws/connection.go:446-451 | the non-atomic look at two queues: yes leads to reclaiming, no to leaving; undisturbed it is exact |
| Connection.Connection.CompareAndSwap | transport/ws/connection.go:398-401 | wins exactly when the flag was down |
| Connection.Connection.ReleaseOrResume | transport/ws/connection.go:267-271 | after dropping the flag the writer resumes only by taking it back, and undisturbed not on empty queues or a closed connection |
| Connection.Connection.WritePump | transport/ws/connection.go:252-273 | terminates under any finite interference and ends as a finished thread; undisturbed without write error both queues are empty and the socket has taken first the direct messages, then the broadcasts, each in order |
| Connection.Connection.Enqueue | transport/ws/connection.go:142-157 | no error means accepted; undisturbed, the error is exactly closed or full, the message is then at the end of its queue or nothing has changed |
| Connection.Connection.TryServeWriterInline | transport/ws/connection.go:404-413 | an error only for a closed connection; undisturbed it leaves a closed connection, or one with a writer, alone, and otherwise does what writePump does |
| Connection.Connection.Send | transport/ws/connection.go:93-140 | no error means accepted for good, and the thread that took up the message has finished, writer included; undisturbed, the error is exactly closed or full, with a writer at work the message is just queued, and on an idle connection it is on the socket after all that was queued in its turn |
| Connection.Connection.SendBroadcast | transport/ws/ws.go:386-396 | as Send, but an accepted message is answered with the closed error exactly when the second look, a step of the trace that the contract names, finds the connection closed |
| WriterOrder.LoneBatch | transport/ws/connection.go:313-343 | alone, a writer of the transition system sends a batch of up to 32 broadcasts, lets up to four direct messages pass before every eighth and up to four at its end |
| WriterOrder.LoneDrain | transport/ws/connection.go:422-444 | one drain is a direct message, else such a batch, else idle |
| WriterOrder.PumpedIs | transport/ws/connection.go:252-273 | drains one after the other put everything queued on the socket: the direct messages, then the broadcasts, in order |
| Ping.PingTimer.SchedulePing | transport/ws/connection.go:355-385 | a round queues a ping only if it starts at least one interval after the start of the last round that did, whatever pongs do in between; undisturbed, it does so exactly when one is due and there is room, and the next deadline is exact |
| Ping.PingTimer.Deadline | transport/ws/connection.go:360-366 | a value that nextPingAt held during the call: one interval from the round for the first one, the stored deadline for later ones, or one that a pong set meanwhile - in particular when the swap loses |
| Ping.PingTimer.Push | transport/ws/connection.go:376-384 | a full queue gives the slot back unless a pong moved it meanwhile |
| Ping.PingTimer.BumpNextPing | transport/ws/connection.go:387-392 | a pong puts the next ping one interval after now |
| Ping.PingsInSpan | transport/ws/ws.go:468-473 | n + 1 rounds that queued a ping for one connection start over a span of at least n intervals |
| Ping.QueuedApart | transport/ws/connection.go:371-378 | the pings themselves are queued n intervals apart less what the earlier one was late in its round |
| ConnectionIds.ParseFormat | transport/ws/ws.go:513-515 | base-36 printing can be read back |
| ConnectionIds.FormatInjective | transport/ws/ws.go:513-515 | different counter values give different connection IDs |
| ConnectionIds.KnownNumbers | transport/ws/ws.go:513-515 | 9, 10, 35 and 36 print as 9, a, z and 10 |
| Slots.SlotsAreAccountedFor | transport/ws/ws.go:177-223 | in every interleaving activeCount is stored connections plus handshakes holding a slot plus deletions not yet subtracted, never above MaxConnections; every connection sits in the shard of its ID and only there |
| Slots.NoSlotLeaks | transport/ws/ws.go:215-223 | when every request has ended the counter is zero |
| Slots.StoreKeepsTable | transport/ws/ws.go:496-511 | storing never overwrites another connection |
| Slots.RemoveKeepsTable | transport/ws/ws.go:215-223 | a closing connection finds its own entry and removes just that |
| Slots.LimitedStep | transport/ws/ws.go:418-434 | the compare-and-swap loop never lets the counter pass the limit |
| SlotsAlone.SlotAlone | transport/ws/ws.go:418-434 | a request that nobody disturbs gets a slot exactly below the limit, in every state |
| SlotsAlone.UpgradeAlone | transport/ws/ws.go:183-207 | then a failed upgrade gives the slot back, and a good one is in the table under the next number |
| SlotsAlone.CloseAlone | transport/ws/ws.go:215-223 | a close gives back entry and slot, if the entry is there |
| WebSocketServer.Server.TryAcquireConnectionSlot | transport/ws/ws.go:418-434 | the loop ends under any finite interference and takes one slot or none; undisturbed it succeeds exactly below the limit |
| WebSocketServer.Server.ReleaseConnectionSlot | transport/ws/ws.go:436-438 | a failed upgrade gives its slot back |
| WebSocketServer.Server.NextConnectionID | transport/ws/ws.go:513-515 | the next number of the 64-bit counter |
| WebSocketServer.Server.StoreConnection | transport/ws/ws.go:506-511 | the connection is under its ID in the shard of its ID; nothing else changes |
| WebSocketServer.Server.HandleWebSocket | transport/ws/ws.go:183-207 | an accepted connection is in the table; undisturbed it is accepted exactly below the limit with a good upgrade, for one slot, and otherwise nothing changes |
| WebSocketServer.Server.Delete | transport/ws/ws.go:215-220 | afterwards the ID is not in its shard; found says whether it was |
| WebSocketServer.Server.RemoveConnection | transport/ws/ws.go:215-223 | one entry and one slot go, if the entry is there |
| WebSocketServer.Server.SnapshotConnections | transport/ws/ws.go:475-486 | with others at work between the shards: no connection twice, none that never was in the table, and all that are in it from beginning to end; undisturbed exactly the table |
| WebSocketServer.SeenMore | transport/ws/ws.go:475-486 | reading one more shard keeps that account |
| ConnectionIds.ConnectionShard | transport/ws/ws.go:496-504 | the loop over the bytes computes the FNV-1a bucket |
| ConnectionIds.KnownHashes | transport/ws/ws.go:500-502 | the hash has the published test vectors of 32-bit FNV-1a for the empty string and "a" |
| WebSocketServer.NewServer | transport/ws/ws.go:48-76 | a server whose shards are those buckets |
| WebSocketServer.Server.CountIsExact | transport/ws/ws.go:177-223 | at every moment the counter is the stored connections plus the slots held on the way in or out |
| Fanout.WorkerCount | transport/ws/ws.go:371-384 | the largest number that exceeds neither the connections nor four for each processor, but at least one |
| Fanout.Split | transport/ws/ws.go:332-341 | the chunks partition the connections, are never more than the workers, and none is longer than its share rounded up |
| Fanout.SendAll | transport/ws/ws.go:345-351 | sends to each of a chunk once, in order; nil exactly if all succeeded, otherwise the error of the last send that failed |
| Fanout.BroadcastParallel | transport/ws/ws.go:327-369 | for every finishing order no send on the error channel can block, each connection is sent to exactly once, and the result is nil exactly if all succeeded, otherwise the last error of some chunk |
| Fanout.Broadcast | transport/ws/ws.go:245-263 | the threshold chooses the schedule: below it the connections are served in order and the last error is returned, from it on as by the goroutines; each is sent to once either way |
| Fanout.BroadcastExcept | transport/ws/ws.go:266-300 | the same for exactly the connections that are not excluded, by the number of all connections |
| RateLimiter.Limiter.Allow | middleware/ratelimit.go:35-55 | admitted if and only if every window ending now, this request counted, stays within burst plus rate times its length |
| RateLimiter.Limiter.Wait | middleware/ratelimit.go:58-71 | polls until one is admitted, with others calling Allow in between: of its own polls exactly the last is admitted if it succeeds, and none if the context ends |
| RateLimiter.LeastAfterAllow | middleware/ratelimit.go:39-54 | the bucket holds the least slack of all windows, before and after every call |
| RateLimiter.NoWindowExceeds | middleware/ratelimit.go:25-55 | no window from creation or from a call admits more than burst plus rate times its length |
| RateLimiter.NoIntervalExceeds | middleware/ratelimit.go:25-55 | nor does any interval of time |
| RateLimiter.RefusedOnlyTooSoon | middleware/ratelimit.go:35-55 | a refusal means less than one token accrued since any call after which nothing was admitted |
| Snakes.TickKeepsGood | examples/snake_battle/game/game.go:274-343 | for every order and every draw a tick keeps: living snakes in the grid, self-avoiding, adjacent, pairwise disjoint; at most 3 distinct foods in the grid off every living snake; length plus pending growth is 3 plus score / 10 |
| Snakes.FateInATick | examples/snake_battle/game/game.go:282-343 | who dies hit the wall, itself or a snake alive at the start of the tick; who survives hit neither wall nor itself, and grows and scores 10 exactly when its head moved onto a food of the start of the tick |
| Snakes.TwoPlayerFate | examples/snake_battle/game/game.go:289-320 | with two players, exactly who lives, by the order of judgement |
| Snakes.HeadOnKillsTheFirst | examples/snake_battle/game/game.go:289-320 | head-on, the one judged first dies and the other lives |
| Snakes.TurnKeepsGood | examples/snake_battle/game/game.go:105-120 | turning keeps the invariant and never reverses the stored direction |
| Snakes.ReversesExactlyWhen | examples/snake_battle/game/game.go:75-120 | the next head lands on the neck exactly when the stored direction is opposite to the last step, and then a snake of three cells hits itself |
| Snakes.OneTurnNeverReverses | examples/snake_battle/game/game.go:104-120 | a single turn after a move cannot bring that about |
| Snakes.TwoTurnsReverse | examples/snake_battle/game/game.go:104-120 | two turns between two ticks can: any new snake that turns sideways and back hits itself |
| Snakes.SpawnKeepsGood | examples/snake_battle/game/game.go:365-397 | new food keeps the invariant whatever is drawn |
| SnakeLaws.SpawnedFeeds | examples/snake_battle/game/game.go:365-397 | the first draw that hits no body, dead or alive, and no food is added; without one nothing is |
| SnakeLaws.FedIsExact | examples/snake_battle/game/game.go:365-397 | and that leaves no other result |
| SnakeLaws.StartedFoods | examples/snake_battle/game/game.go:224-238 | a start does that three times |
| SnakeLaws.JudgeIs | examples/snake_battle/game/game.go:289-343 | one iteration of the collision loop in terms of cells: who is dead is passed over, who is out of the grid, on its own body or on another living snake dies, who is on a food grows, scores 10 and has it replaced, and nothing else changes |
| SnakeLaws.MovedIs | examples/snake_battle/game/game.go:75-102 | a move puts one cell before the old ones and drops the last unless the snake has eaten |
| SnakeLaws.StraightIntoTheWall | examples/snake_battle/game/game.go:81-143 | straight on, a snake hits the wall exactly after the cells between its head and that edge, row 0 being at the top |
| SnakeLaws.OppositeCancels | examples/snake_battle/game/game.go:105-120 | a step and its opposite cancel |
| SnakeLaws.TurnedIs | examples/snake_battle/game/game.go:105-120 | a turn changes the direction, exactly unless it points back |
| SnakeLaws.JoinedAre | examples/snake_battle/game/game.go:184-202 | the cells and directions of the two players of a room; a third changes nothing |
| Snakes.TwoJoinsStartGood | examples/snake_battle/game/game.go:184-250 | two joins and a start establish the invariant |
| Snakes.JoinKeepsGoodIff | examples/snake_battle/game/game.go:184-202 | a join keeps it exactly unless the only player left sits on the right |
| Snakes.RejoinOverlaps | examples/snake_battle/game/game.go:184-209 | such a join: the first of two players leaves, a third comes, and two snakes lie on the same cells |
| Snakes.JoinTwiceOverlaps | examples/snake_battle/game/game.go:184-202 | another: one player joins twice, a second once |
| Game.Snake.constructor | examples/snake_battle/game/game.go:43-67 | the loop with its switch over the direction lays three distinct cells in a row, cell i lying i steps behind the head |
| Game.Snake.Move | examples/snake_battle/game/game.go:75-102 | the new state of the snake is the moved one |
| Game.Snake.SetDirection | examples/snake_battle/game/game.go:105-120 | a turn into the opposite direction is ignored |
| Game.Snake.CheckSelfCollision | examples/snake_battle/game/game.go:129-137 | whether the head is on the rest of the body |
| Game.Snake.CheckWallCollision | examples/snake_battle/game/game.go:140-143 | whether the head is outside the grid |
| Game.Room.AddPlayer | examples/snake_battle/game/game.go:184-202 | refused exactly with two players in the room; otherwise left first, right second |
| Game.Room.SpawnFood | examples/snake_battle/game/game.go:365-397 | the first draw that hits no body and no food is added, or nothing |
| Game.Room.Start | examples/snake_battle/game/game.go:224-238 | only a waiting room starts; it then plays, with food from three spawns |
| Game.Room.JudgePlayer | examples/snake_battle/game/game.go:289-343 | one iteration of the collision loop: dies, eats or goes on |
| Game.Room.CountAlive | examples/snake_battle/game/game.go:345-352 | how many live, and who if it is one |
| Game.Room.Update | examples/snake_battle/game/game.go:274-362 | the in-place tick is the tick of the rules for any two iteration orders; the room plays on exactly while two players live, and otherwise the winner is the one who lives, if any |
| Game.Match | examples/snake_battle/game/game.go:184-362 | a whole match on objects goes exactly through the rounds of the rules and keeps the invariant, with any number of turns between the ticks and separate orders for the two map loops |
| Game.LeaveAndRejoin | examples/snake_battle/game/game.go:184-209 | on a waiting room: join, join, leave, join puts two snakes on the same cells |
| Registry.RegisterTold | registry/memory.go:88-117 | the event of Register, applied to the table, is what Register did, and is Create exactly for an absent ID |
| Registry.DeregisterTold | registry/memory.go:119-137 | the same for a Deregister that finds its service |
| Registry.CleanupTold | registry/memory.go:217-240 | the Delete events of a cleanup round take one list to its live part and leave the others |
| Registry.ReplayByName | registry/memory.go:250-261 | a name's list depends only on the events about that name |
| Registry.FilteredReplay | registry/memory.go:250-261 | a filtered log rebuilds the lists of its name |
| Registry.FilteredFit | registry/memory.go:250-261 | and its events still fit: Create for absent, the others for present IDs |
| MemoryRegistry.WatcherCanRebuild | registry/memory.go:182-210 | a watcher that lost nothing can replay its log over the table at Watch and has the current table of the names it watches |
| RegistryOrder.SwappedNotifies | registry/memory.go:88-137 | when two calls tell their events in the wrong order, a watcher still rebuilds the right lists exactly if the events are about different names or IDs, not two Creates of one name, or about one ID with the Delete first, an Update before the Delete, or the same service twice |
| RegistryOrder.OvertakenRegistration | registry/memory.go:88-137 | a run in which it does not: a Deregister overtakes the Register it follows, and the service stays in the watcher's list |
| MemoryRegistry.Store.ReplayEqualsTable | registry/memory.go:182-210 | that, at any moment between calls |
| MemoryRegistry.Store.Register | registry/memory.go:88-117 | the service, stamped and healthy, takes the place of the first one of its ID or comes at the end, nothing else changes, and exactly one event tells it |
| MemoryRegistry.Store.Deregister | registry/memory.go:119-137 | removes the first service of that ID, leaving the rest in order, and tells it, or changes nothing |
| MemoryRegistry.Store.SweepAll | registry/memory.go:212-240 | for any order of the names, exactly the unexpired services stay and the events tell the rest |
| MemoryRegistry.Store.CleanupRound | registry/memory.go:212-248 | a cleanup round, told to the watchers |
| MemoryRegistry.Store.Notify | registry/memory.go:199-210 | a watcher that asked for the name gets the event if fewer than 1024 wait in its channel, and drops it otherwise |
| MemoryRegistry.Store.GetService | registry/memory.go:139-162 | exactly the healthy, unexpired services in order, or not found if there is none |
| MemoryRegistry.Store.ListServices | registry/memory.go:164-180 | exactly the healthy, unexpired services under any name, and nothing twice |
| MemoryRegistry.Store.Watch | registry/memory.go:182-197 | a new watcher starts from the current table |
| MemoryRegistry.Store.Next | registry/memory.go:273-280 | hands out the oldest event that was not read |
| RegistryReads.FindsMeans | registry/memory.go:139-162 | a lookup finds exactly the healthy services of the name that were seen less than their time to live ago |
| RegistryReads.LiveInOrder | registry/memory.go:152-156 | in the order in which they are stored |
| RegistryReads.RegisterThenGet | registry/memory.go:88-162 | after Register a lookup finds that service, stamped and healthy, exactly until its time to live has passed, no other of its ID, and everybody else as before |
| RegistryReads.DeregisterThenGet | registry/memory.go:119-162 | after Deregister it finds none of that ID, and everybody else as before |
| RegistryReads.CleanupLeaves | registry/memory.go:217-240 | a cleanup round leaves exactly what has not outlived its time to live |
| RegistryReads.RegisterAndGet | registry/memory.go:88-162 | the round trip on the object |
| RegistryExpiry.LastAnswer | registry/memory.go:139-180 | in a run of calls each query answers from what the calls before it have left |
| RegistryExpiry.CleanupIsInvisible | registry/memory.go:212-248 | two tables with the same usable services answer alike for ever, with and without cleanup rounds |
| RegistryExpiry.EagerExpiryRefinesLazyExpiry | registry/memory.go:139-180 | runs that differ only in their cleanup rounds return the same services at every query |
| Config.MergeLaw | config/config.go:261-271 | what a path leads to after a merge, for every path, from what the two trees say about it |
| Config.MergeTwice | config/config.go:261-271 | merging the same source again changes nothing |
| Config.GroupingMatters | config/config.go:261-271 | three sources may be regrouped exactly if none puts a plain value between two mappings of which the later does not cover the earlier |
| Config.CoveredIsReplaced | config/config.go:261-271 | a merge gives just the source exactly if that overrides everything |
| Config.LastWordWins | config/config.go:92-104 | the last document with something to say about a path decides: a plain value replaces what the earlier ones made of it, a mapping is merged over a mapping |
| Config.LastWordTells | config/config.go:92-104 | what a path leads to after any number of documents is told by the last one with a word about it: that plain value, nothing below a plain value, or some mapping; without one it is what it was |
| Config.AbsorbMeans | config/config.go:92-104 | loading merges the documents before the first unreadable one |
| Config.UnreadableStops | config/config.go:92-104 | a document that cannot be read ends a Load, with what came before it merged, and is skipped by a watched change |
| Config.ReadableCounts | config/config.go:190-209 | every other one takes part in its place |
| Config.DocumentsSplit | config/config.go:92-104 | sources are worked through in order, a failed one ending the Load like an unreadable document |
| ConfigInPlace.Mapping.MergeInto | config/config.go:261-271 | on mutable mappings, for any order of the keys: every mapping object of the destination stays where both have one, and those of the source are taken over elsewhere; only the destination's own are written to |
| ConfigInPlace.BlendErases | config/config.go:261-271 | without the objects that is the merge of the two trees |
| ConfigInPlace.BlendLaw | config/config.go:261-271 | which value or mapping object a path leads to after such a merge, for every path |
| ConfigInPlace.Mapping.MergeAt | config/config.go:263-267 | two mappings under one key are merged into the object that was there, and the other keys keep objects and contents |
| ConfigInPlace.Mapping.Adopt | config/config.go:269-269 | a mapping of the source is taken over by reference |
| ConfigInPlace.FindLooksUp | config/config.go:148-165 | going down mappings gives what looking up in the tree gives |
| ConfigInPlace.GetValue | config/config.go:148-165 | the loop over the parts of a dotted key finds the very value or mapping object at the end of that path |
| ConfigInPlace.Store.Decode | config/config.go:234-258 | a readable document is merged over the data, an unreadable one changes nothing |
| ConfigInPlace.Store.Load | config/config.go:92-114 | every document up to the first failure is merged and no more, then the resolver runs; success exactly if no source and no document failed, and no resolver; unless a resolver ran, each cached value is right afterwards exactly if StaysRight |
| ConfigInPlace.PlainStays | config/config.go:92-104 | a plain value read before some documents is right after them exactly if the last of them with a word about its path says the same value |
| ConfigInPlace.MappingStays | config/config.go:92-104 | a mapping read before them is still the live one exactly if each is silent at its path or says a mapping there |
| ConfigInPlace.Store.Resolve | config/config.go:106-110 | the data becomes what the resolver makes of it, also when it fails |
| ConfigInPlace.ReadLoadRead | config/config.go:92-145 | a value read before a second Load is returned after it although the data has changed |
| ConfigInPlace.Store.Update | config/config.go:190-209 | a watched change merges every readable document and clears the cache |
| ConfigInPlace.Store.Get | config/config.go:128-145 | a coherent cache answers like a lookup, and stays coherent; null is never cached |
| Breaker.CountersFoldTheHistory | middleware/circuitbreaker.go:92-157 | state and counters are what the calls since the last change of state say, for all thresholds |
| Breaker.OpensExactlyWhen | middleware/circuitbreaker.go:131-145 | opens exactly on a half-open failure or on the failure that completes a row of FailureThreshold |
| Breaker.ClosesExactlyWhen | middleware/circuitbreaker.go:115-128 | closes exactly on the last of SuccessThreshold half-open successes without a failure |
| Breaker.NothingAdmittedBeforeTimeout | middleware/circuitbreaker.go:92-112 | after any opening nothing is admitted for Timeout |
| Breaker.AdmittedExactlyAfterTimeout | middleware/circuitbreaker.go:92-112 | and while it stays open a request is admitted exactly from the end of Timeout on |
| Breaker.OpeningsAreSpaced | middleware/circuitbreaker.go:147-157 | openings are at least Timeout apart |
| Breaker.OpeningsInSpan | middleware/circuitbreaker.go:147-157 | a span T holds at most 1 + T / Timeout of them |
| Breaker.CircuitBreaker.Allow | middleware/circuitbreaker.go:92-112 | refuses exactly an open breaker that has not rested, and half-opens one that has |
| Breaker.HalfOpenAdmitsAll | middleware/circuitbreaker.go:92-112 | any number of requests that ask a half-open breaker are all admitted and leave it as it was |
| Breaker.HalfOpenIsReached | middleware/circuitbreaker.go:92-145 | a run from creation, for all settings, that gets half-open and then admits any number |
| Breaker.CircuitBreaker.RecordSuccess | middleware/circuitbreaker.go:115-128 | the fields stay what the history says |
| Breaker.CircuitBreaker.RecordFailure | middleware/circuitbreaker.go:131-145 | the fields stay what the history says |
| Breaker.CircuitBreaker.Execute | middleware/circuitbreaker.go:160-173 | a refused call runs nothing and records nothing; an admitted one records its outcome, last of all |
| Bus.InvStep | events/events.go:208-245 | every step keeps queue, counters and flags of the bus consistent |
| BusLife.JobsAreConserved | events/events.go:208-245 | accepted jobs are buffered, held or handled, each once; handlers start in acceptance order, on at most WorkerCount workers |
| BusLife.OneWorkerHandlesInOrder | events/events.go:234-245 | one worker handles the jobs in the order of acceptance |
| BusLife.CloseIsFinal | events/events.go:191-206 | for the Close that closed the bus: no handler starts after it has returned if nobody had a worker left to start when it took the lock |
| BusLife.StartedWorkersMakeCloseFinal | events/events.go:225-232 | which is so if the workers had all been started |
| BusLife.HandlersAfterClose | events/events.go:191-232 | and only then, for that Close: otherwise there is a run in which a handler starts after it has returned |
| BusLife.CloseCanComeTooEarly | events/events.go:102-118 | a reachable state in which it is otherwise: a publisher has passed the closed check and started no worker yet |
| BusLife.HandlersAfterSecondClose | events/events.go:191-196 | after a Close that found the bus closed, a handler can start exactly if a worker is left or to come and a job is left or to come |
| BusLife.SecondCloseIsNotFinal | events/events.go:191-205 | a run in which it does, although the workers had all been started before either Close |
| BusPublish.PublishTakesUp | events/events.go:102-147 | a publication on an open bus is a job for each subscriber of the topic, then one for each of "*", in order |
| BusPublish.PublisherSelects | events/events.go:217-222 | its select sends when there is room, gives up when the bus is done, may do either when both, and waits when neither |
| BusPublish.WorkerSelects | events/events.go:237-244 | a worker's select likewise takes the oldest job, leaves, either, or waits |
| BusPublish.CloseWaits | events/events.go:201-204 | the Close that shut the bus ends exactly when no worker is left |
| BusPublish.PublisherSendsItsJobs | events/events.go:118-223 | in every run a publisher sends exactly these jobs in this order, and ends early only when the bus is done |
| BusPublish.WorkersStay | events/events.go:225-245 | in every reachable state, until the bus is done all workers that were started are there |
| BusPublish.QuietMeansHandled | events/events.go:191-245 | nothing gets stuck: when no thread can move, all publishers and Closes have ended, and either the bus is open and every accepted job was handled, or it is done and no worker is left |
| EventBus.UnsubscribedForGood | events/events.go:172-189 | in every run a cancelled subscription is never served again, and no other is affected |
| EventBus.ServedAsListed | events/events.go:108-109 | for every topic a publication is for its own subscribers and for those of "*", as often as each is listed |
| EventBus.ServedOnceExactlyWhen | events/events.go:102-143 | in every reachable state a publication is for distinct subscribers exactly unless its topic is "*" and has subscribers, and there each is served twice |
| EventBus.EventBus.Subscribe | events/events.go:152-170 | a fresh ID at the end of the topic's list, or refused on a closed bus |
| EventBus.EventBus.Unsubscribe | events/events.go:172-189 | removes the first subscription with that ID and leaves the rest in order |
| EventBus.EventBus.Publish | events/events.go:102-150 | without workers, calls topic then wildcard handlers in order up to the first call that fails, whatever each single call answers; if none fails, every one of both lists was called |
| EventBus.EventBus.Close | events/events.go:191-206 | without workers closing is this lock region, and closing twice is closing once; the signal and the wait for workers are steps of Bus |
| Router.RouteRoundTrip | transport/http/server.go:74-129 | a path made from a pattern matches the first fitting route, and if that is the pattern's own, with exactly the values put in |
| Router.CutJoin | transport/http/server.go:75-97 | cutting a joined path gives its parts back exactly if neither end of several parts is empty |
| Router.CutIgnoresSlashes | transport/http/server.go:97-97 | slashes around a path do not matter |
| Router.FilledSolid | transport/http/server.go:74-94 | non-empty values always leave such a path |
| Router.PartIs | transport/http/server.go:77-85 | a part that starts with a colon is a parameter of the name that follows, any other stands for itself |
| Router.ParamsAre | transport/http/server.go:111-117 | a parameter has the value at its last occurrence, and nothing else is bound |
| Router.Router.RegisterRoute | transport/http/server.go:74-94 | appends a route that carries the parts of its pattern |
| Router.Router.MatchParts | transport/http/server.go:108-122 | matches exactly if every literal part agrees |
| Router.Router.MatchRoute | transport/http/server.go:96-129 | the first route of that verb that fits, with its parameters, or none fits |
| Lifecycle.TransportsBalance | grodyia.go:233-393 | in every run that binds only while stopped, each binding of a transport is up once when running and down otherwise, and never at any moment stopped more often than started |
| Lifecycle.BindKeepsBalance | grodyia.go:182-187 | binding keeps the balance exactly if the application is stopped or nothing of that transport is bound |
| Lifecycle.StartIsAllOrNothing | grodyia.go:245-268 | a failed Start takes back exactly what it did, in reverse order |
| Lifecycle.FailedStartUndone | grodyia.go:245-268 | and leaves every transport's balance as it was |
| Lifecycle.StoppedForGood | grodyia.go:342-393 | after a completed Stop every Start, ever, fails and undoes itself |
| Lifecycle.RegistryIsReleased | grodyia.go:233-393 | in every run an application that is not running has no connection to the registry left |
| Lifecycle.StartLinks | grodyia.go:245-290 | a Start that comes up is connected exactly if there is a registry that could be reached |
| Lifecycle.Application.Start | grodyia.go:233-339 | the guarded body with its deferred rollback is that transition; it succeeds exactly if logger, every hook, every transport and the publication do |
| Lifecycle.Application.StartTransports | grodyia.go:292-296 | starts in order up to the first refusal |
| Lifecycle.Application.Rollback | grodyia.go:256-267 | stops what was started, last first, then closes a connected registry |
| Lifecycle.Application.Stop | grodyia.go:342-393 | closes the registry, stops every transport in order whatever the others answered, closes the bus, and returns the last error |
| Strings.SplitJoin | transport/http/server.go:75-97 | strings.Split undoes joining parts without separators |
| Strings.JoinSplit | config/config.go:149-149 | joining undoes strings.Split |

## Left out

- ConfigInPlace.Mapping.MergeInto: for a source that shares no mapping with the destination, as freshly parsed documents do.
- ConfigInPlace.Store.Load: the resolver is any function of the loaded tree; when one ran, the data is what it answered, and whether a cached mapping is still part of that data is left open.
- Registry.RegisterTold: services are values; changing a service through a retained pointer is not modelled.
- MemoryRegistry.WatcherCanRebuild: for calls that tell their events in the order of their table changes; notify runs after the unlock, and what two swapped events do is in SwappedNotifies. A closed registry closes its watchers without telling them.
- Slots.SlotsAreAccountedFor: while fewer than 2^64 connection IDs were issued, after which the counter repeats; deleting from a shard and subtracting are two steps, which allows more interleavings than the shard lock does.
- Snakes.TickKeepsGood: assumes two joins before the start and none after it; RemovePlayer is modelled without a claim about later joins beyond JoinKeepsGoodIff.
- Fanout.BroadcastParallel: goroutines finish in any order, but the sends of two of them are not interleaved.
- Ping.PingTimer.SchedulePing: bounds the start times of rounds, and QueuedApart what that means for the pings; one scheduler per server, as the source has; the clock read and the store of a pong are one step.
- OutboundFairness.DirectIsNotStarved: excludes runs with a write error, after which the connection closes, and with a stale clear; StarvationBoundPerWriter covers the latter.
- Lifecycle.TransportsBalance: calls one at a time, with hooks that do not call back; registering services, the registry watcher and after-start hooks only warn and are left out.
- EventBus.EventBus.Publish: what handlers do to the bus meanwhile only affects later publications and is left out.
- EventBus.EventBus.Close: the done channel and the wait for workers, which are steps of Bus.
- Scanning the configuration into a struct: parsing.
- A missing broadcast queue is treated as an empty one; the channels are never closed by the source, so the branches for a closed channel are left out.
- The stopping flag of the WebSocket server: a handshake past its check can still be stored during shutdown.
- Payload encoding, deadlines, sockets, TLS, logging, metrics, the remote registries, the clients, the gRPC server: remote calls and library wrappers.
- Per-method limiter and breaker maps, interceptors, retry loops, the room manager and getters: easy members.
- Data races on unsynchronised reads and goroutine panics.
