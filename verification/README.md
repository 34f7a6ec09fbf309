# A verified model of the Hiactor runtime

Hiactor runs trees of actors on the shards of a machine, one single-threaded reactor per shard, and
connects shards and machines by message channels. This project models its hardest parts in Dafny and
proves what the runtime relies on. `dafny verify dfyconfig.toml` checks everything.

## What is modelled

* **The actor tree of one shard** (`ActorTree`, `ActorRuns`, `ActorOrder`, `ActorDrain`, `ActorEffects`,
  `ActorLaws`). Every piece of
  straight-line code of `actor`, `actor_group` and `root_actor_group` is a function on a tree state;
  a step system interleaves routing and creation, continuations becoming ready, run slices cut short
  by `need_yield` at any point, both kinds of stop, self-deletion and system shutdown. One inductive
  invariant (`ActorTree.Inv`) is kept by every step, and the theorems of `ActorRuns` hold in every
  reachable state of every run, at every depth. `ActorEffects` says node by node what each step does to
  mailboxes, tasks, chains and stop status, without the functions that carry it out, and `ActorLaws`
  derives conservation laws of runs from that. Which queued child a group runs next, what user code
  sends while it runs and when a chain ends are arbitrary.
* **The run loops as code** (`ShardEngine`). Class `Shard` has the methods of the runtime, with loops
  and in-place updates. It records each step, and its invariant says that the record is a run of
  `ActorRuns`, so the theorems about runs are theorems about these methods. Everything from outside
  (user code, `need_yield`, the choice of the queue) comes from an arbitrary finite script.
* **Channels** (`LocalChannel`, `Wakeup`): the batched shard-to-shard queue as a class, and the
  sleep/wake handshake of any number of shards as atomic steps under sequential consistency.
* **Requests** (`Promises`): the promise table with its intrusive free list, as values and as a
  class, and the request/response protocol above it.
* **Shutdown** (`Shutdown`): all shards of a machine, each with its actor tree, and the exit barrier.
* **Code generation** (`Codegen`, `Address`): what a generated reference method sends and what the
  generated `do_work` runs, through inheritance, over byte-level addresses.
* **Network** (`Wire`, `NetworkPlan`, `RoutingTable`): message framing on byte streams, the node list
  and connection plan, and the routing table in its one-array layout.
* **Containers** (`SerializableQueue`, `ColumnBatch`, `TaskQueue`) and the **GPU stream tokens**
  (`GpuTokens`).

### Hypotheses of the actor tree

* Every task on a leaf's queue belongs to a chain counted in `_cur_concurrency`: the deletion test at
  `src/core/actor-template.cc:275` ignores queued tasks.
* `set_max_concurrency` is called before the first message only: the tests at lines 217 and 243 of
  the same file use equality.
* The activation semaphore never blocks; its initial count is the largest the type holds.

### Where the code departs from what one would expect

The model follows the code; each of these is stated with its exact condition.

* `docs/tutorial.md:121` allows nested inheritance, but with a third level the middle class's methods
  fall through to the top class's switch, because `do_work` compares the stamp with the type id in the
  actor's address (`Codegen.DispatchPreservesIff`, `Codegen.ThreeLevelsFail`).
* With eight address layers the method type id overwrites the top half of the actor id
  (`Address.TidKeepsRouteIff`).
* The shutdown sweep releases promise ids that the waiting requests release again
  (`Promises.SweepThenContinueBreaks`); releasing is sound exactly for active ids
  (`Promises.RemoveSoundIffActive`). The protocol theorems describe runs up to the start of shutdown.
* The round-robin cursor moves three places, so it covers all proxies exactly when 3 does not divide
  their number (`RoutingTable.RoundRobinCoversIff`).
* `peek` reads outside a drained list head, a move forgets the array's read position and the list's
  node count (`SerializableQueue.Queue.Peek`, `SerializableQueue.MoveKeepsPopsIff`,
  `SerializableQueue.Queue.Push`; reached in `SerializableQueue.PeekFails`,
  `SerializableQueue.MoveFails` and `SerializableQueue.PushAfterMoveDrops`).
* `ensure_space` does not end when none of its first 31 doublings reaches the required space
  (`ColumnBatch.GrowthEndsIff`): up to half the 32-bit range only from an empty reserve, which is what
  reloading a batch of empty rows leaves (`ColumnBatch.HalfRangeEndsIff`, `ColumnBatch.LoadedGrowsIff`),
  above it also from some positive ones (`ColumnBatch.GrowthFailsAboveHalf`).
* Reloading a dumped batch without rows reads the entry before the first (`ColumnBatch.Reload`).
* A row pushed after a share survives a push on the other copy only if both are equally long and are
  equal or outgrow the buffer (`ColumnBatch.LaterRowSurvivesIff`).
* A per-stream GPU limit of zero loses streams (`GpuTokens.NoStreamLostIff`).
* A connection that ends inside a message body makes the receiver parse a short buffer
  (`Wire.CutFrameOverruns`).

## Model

| member | source | states |
|---|---|---|
| `ActorTree.StepOk` | src/core/actor-template.cc:106-309 | every step of the tree (receive, resume, each part of both run loops, stops, deletion, shutdown) keeps the whole invariant, and never reopens, refills or revives a sealed address |
| `ActorTree.ActivateOk` | src/core/actor_core.cc:56-61 | activating a node discharges its pending work: it ends up scheduled and its whole ancestor chain satisfies the invariant again |
| `ActorTree.ActivateFrame` | src/core/actor_core.cc:56-61 | activation changes nothing but schedule status and queues |
| `ActorTree.EnqueueOk` | src/core/actor_core.cc:40-48 | mailing a node, at the front for stops and at the back for user messages, keeps the invariant |
| `ActorTree.CreateOk` | src/core/actor-template.cc:80-88 | a new child is counted, linked and scheduled with its ancestors |
| `ActorTree.RouteOk` | src/core/root_actor_group.cc:173-213 | routing and creation at any depth keep the invariant and the seals, and the node reached is live and not sealed |
| `ActorTree.StopNodeOk` | src/core/actor-template.cc:148-182 | stopping a leaf or a group with all its children, then the tombstone, keeps the invariant and writes only what a stop may write |
| `ActorTree.ShutdownOk` | src/core/root_actor_group.cc:59-80 | stopping every root child in any map order keeps the invariant, including the barrier count |
| `ActorTree.DeleteOk` | src/core/actor-template.cc:131-139 | self-deletion keeps the parent's count equal to its live children and leaves no reference behind |
| `ActorTree.SealedForever` | src/core/actor-template.cc:71-75 | a sealed address stays sealed over any step |
| `ActorTree.StepKeys` | src/core/actor-template.cc:79-103 | only a receive creates nodes, and only along its destination's path |
| `ActorEffects.ReceiveEffect` | src/core/root_actor_group.cc:171-225 | a received message ends up exactly once in the mailbox of its addressee, last if from a user and first otherwise, also when the addressee is created for it, with its concurrency limit; a tombstone on the way or a shutdown refuses it and changes nothing; no other node changes |
| `ActorEffects.ResumeEffect` | src/core/actor-template.cc:287-295 | a ready continuation is queued last, or first if urgent, its actor is scheduled, and no other node changes |
| `ActorEffects.StepEffect` | src/core/actor-template.cc:106-321 | every step changes mailbox, tasks, chains, counters, stop status and records of every surviving node exactly as a pointwise description of that step says |
| `ActorEffects.DeletedIff` | src/core/actor-template.cc:131-139 | a node goes exactly when its slice ends with it stopping, its mailbox empty, and no chain in flight or no live child left |
| `ActorLaws.StopObeyed` | src/core/actor-template.cc:255-264 | a stop message or stop reaction stops a running node in its own kind and leaves a stopping one as it is |
| `ActorLaws.ActorStops` | src/core/actor-template.cc:297-321 | a forced stop leaves an actor no waiting mail and no queued task, a peaceful one keeps mail, tasks and chains |
| `ActorLaws.GroupStops` | src/core/actor-template.cc:148-173 | a stopped group tells each child in its map, first in the mailbox and in the same kind, and drops its own mail when forced |
| `ActorLaws.TallyLaw` | src/core/actor-template.cc:209-243 | in every run each continuation that became ready has run or is queued, and each suspended chain has ended or is in flight, exactly once, for every actor not stopped by force |
| `ActorLaws.ArrivalLaw` | src/core/root_actor_group.cc:171-225 | a node's record of arrivals is the sequence of user messages received for it and not refused |
| `ActorLaws.MessageLaw` | src/core/actor-template.cc:223-253 | in every run the user messages received for an actor not stopped by force are those it started, in order, followed by those waiting |
| `ActorLaws.PeacefulCompletes` | src/core/actor-template.cc:275-278 | an actor deleted without a forced stop has started every message and ended every chain it ever had |
| `ActorLaws.ForcedDrops` | src/core/actor-template.cc:299-302 | nothing that waited at a forced stop is ever started, over the rest of any run |
| `ActorRuns.RunInv` | src/core/actor-template.cc:106-309 | the invariant holds in every state of every run |
| `ActorRuns.RunSeals` | src/core/actor-template.cc:67-79 | over any stretch of a run, sealed addresses take no user message and get no node, and tombstones are permanent |
| `ActorRuns.NoLostActivation` | src/core/actor-template.cc:106-146 | in every reachable state a node with work is scheduled and so is each of its ancestors, each queued at its parent or on the call stack |
| `ActorRuns.Quiescent` | src/core/actor-template.cc:198-295 | when the reactor has nothing queued, no node at any depth has runnable work |
| `ActorRuns.ReferenceSafety` | src/core/actor_core.cc:56-61 | maps and queues name live nodes only, a live node is queued exactly once iff it is scheduled and not running, and the managed count is the number of live children |
| `ActorRuns.StopClosure` | src/core/actor-template.cc:175-182 | once a node is stopping, no user message, child or new instance ever enters its subtree again |
| `ActorRuns.StopSpreads` | src/core/actor-template.cc:148-173 | in every reachable state each live child of a stopping group is stopping or holds a stop message, and a stopping node is scheduled, has a chain in flight or has live children |
| `ActorRuns.InstantiatedOnce` | src/core/actor-template.cc:71-75 | an address whose actor was deleted never gets another one |
| `ActorRuns.NeverStuck` | src/core/actor-template.cc:297-309 | below a node that is stopping or holds a stop message, something is scheduled or has a chain in flight |
| `ActorRuns.ConcurrencyCap` | src/core/actor-template.cc:217-243 | the counter equals the unfinished chains and stays within the cap, user messages start in arrival order, and with cap one a message starts only when no chain is left |
| `ActorOrder.StopsOvertake` | src/core/root_actor_group.cc:183-188 | in every mailbox of every reachable state stop messages come before user messages, so a waiting stop is always the next message handled |
| `ActorRuns.ExitOnce` | src/core/root_actor_group.cc:302-307 | a shard enters the exit barrier at most once, with an empty tree, and no actor exists afterwards |
| `ActorRuns.ExitStays` | src/core/root_actor_group.cc:196-199 | after the barrier no step, including a receive, enters it again |
| `ActorDrain.DrainStep` | src/core/actor-template.cc:198-309 | below a stopping node every unit of work strictly lowers a lexicographic measure, and no step but the resumption of a chain there raises it |
| `ActorDrain.DrainRun` | src/core/actor-template.cc:148-162 | over any stretch of any run from a stopping node on, the measure (nodes not yet stopping; messages, chains and nodes; chain resumptions still to come; queued tasks) never rises, and has fallen if any work was done or any chain resumed below the node |
| `ActorDrain.LoadZeroIffGone` | src/core/actor-template.cc:275-278 | the second part of the measure is zero exactly when the node and everything below it are deleted |
| `ActorDrain.DrainedToNothing` | src/core/actor-template.cc:131-139 | once the reactor is idle and no chain is in flight below it, a stopped subtree has been deleted completely, for good |
| `ActorDrain.ResumeOnlyTasks` | src/core/actor-template.cc:287-295 | a resumption changes neither the number of nodes not yet stopping nor the load of messages, chains and nodes |
| `ShardEngine.Shard.Activate` | src/core/actor_core.cc:56-61 | the loop up the tree has the effect of the specification function |
| `ShardEngine.Shard.Enque` | src/core/actor_core.cc:40-48 | the message is in the mailbox, at the right end, no other mailbox changes, and the node is activated |
| `ShardEngine.Shard.Locate` | src/core/actor-template.cc:67-104 | the descent with creation reaches the node the specification routes to, and leaves its state |
| `ShardEngine.Shard.Receive` | src/core/root_actor_group.cc:171-225 | one recorded step, after which the addressee has the message as ReceiveEffect says |
| `ShardEngine.Shard.AddReady` | src/core/actor-template.cc:287-295 | one recorded step, after which the continuation is queued as ResumeEffect says |
| `ShardEngine.Shard.StopAllChildren` | src/core/actor-template.cc:164-173 | the loop mails a stop to exactly the children in the given order |
| `ShardEngine.Shard.StopAndDisable` | src/core/actor-template.cc:148-182 | a stop and its tombstone, as the specification says |
| `ShardEngine.Shard.StopActorSystem` | src/core/root_actor_group.cc:59-80 | shutdown is exactly one recorded step, over the children present in some order |
| `ShardEngine.Shard.UserCode` | src/core/actor-template.cc:212-227 | each possible call of user code into the engine is carried out once, in order, and nothing else |
| `ShardEngine.Shard.RunTask` | src/core/actor-template.cc:209-215 | the front task runs, with its user code, and its outcome is recorded |
| `ShardEngine.Shard.EndTask` | src/core/actor-template.cc:230-238 | the chain ends if its task says so, and a stop reaction is obeyed |
| `ShardEngine.Shard.RunMessage` | src/core/actor-template.cc:223-270 | the first message is a stop that is obeyed, or a user message handed to `do_work` with its user code |
| `ShardEngine.Shard.EndWork` | src/core/actor-template.cc:227-253 | an unfinished `do_work` becomes a chain in flight; a finished one with a stop reaction stops the actor |
| `ShardEngine.Shard.DeleteSelf` | src/core/actor-template.cc:184-187 | the parent's count and the barrier entry after a self-deletion |
| `ShardEngine.Shard.RunActor` | src/core/actor-template.cc:198-285 | a leaf's slice is a non-empty stretch of a run that returns to the parent, with quota ends anywhere |
| `ShardEngine.Shard.RunGroup` | src/core/actor-template.cc:106-146 | a group's slice, with all nested slices, is a stretch of a run that returns to the parent |
| `ShardEngine.Shard.RunReactor` | src/core/root_actor_group.cc:124-130 | answers of the outside world are used in order and only for steps taken; when the reactor stops with some left, no node has runnable work |
| `Shutdown.MoveOk` | src/core/coordinator.cc:27-50 | every move of the machine keeps the signal count equal to the shards that have arrived |
| `Shutdown.MachineRunInv` | src/core/coordinator.cc:27-50 | that holds in every state of every run of any number of shards |
| `Shutdown.ClearedMeansEmpty` | src/core/root_actor_group.cc:82-110 | shard 0 clears the system only after every shard has arrived once with an empty tree, and no shard ever holds an actor again |
| `Shutdown.ArrivedClears` | src/core/coordinator.cc:34-47 | once every shard has arrived, pending signals get through and then shard 0 clears the system |
| `LocalChannel.MessageQueue.Send` | src/core/local_channel.cc:127-132 | the message joins the end of the flow, with nothing lost, duplicated or reordered, and a batch of 16 moves on unless the ring is full |
| `LocalChannel.MessageQueue.SendUrgent` | src/core/local_channel.cc:148-155 | the message overtakes exactly what is still at the sender |
| `LocalChannel.MessageQueue.MovePending` | src/core/local_channel.cc:208-221 | the longest prefix that fits moves; the ring stays within 128 |
| `LocalChannel.MessageQueue.Flush` | src/core/local_channel.cc:223-227 | the flow from sender to receiver is unchanged |
| `LocalChannel.MessageQueue.ProcessIncoming` | src/core/local_channel.cc:179-202 | all of the ring, and what raced in, is delivered once and in order; at most 129 messages |
| `LocalChannel.MessageQueue.Pipeline` | src/core/local_channel.cc:189-196 | the prefetching loop delivers the first and the buffered messages exactly, reading inside its buffer |
| `Wakeup.StepOk` | include/hiactor/core/actor_pollfn.hh:41-57 | every load and store of the handshake keeps the invariant, for any number of shards |
| `Wakeup.NoLostWakeup` | src/core/local_channel.cc:84-97 | in every run, behind a non-empty ring of a sleeping shard there is a wakeup outstanding or a producer about to cause one |
| `Wakeup.WakeupComes` | src/core/local_channel.cc:93-95 | at most three steps of producers alone make the wakeup happen |
| `Wakeup.WokenWorks` | include/hiactor/core/actor_pollfn.hh:55-57 | a woken shard works again with its flag down and can drain the ring |
| `Wakeup.SleeperDrains` | src/core/local_channel.cc:84-97 | from sleep on a non-empty ring at most five steps lead to that ring drained |
| `Wakeup.OneWakeup` | src/core/local_channel.cc:93-95 | the flag goes down with the first wakeup, so another producer that pushed meanwhile does not wake again |
| `Wakeup.QuietSleeps` | include/hiactor/core/actor_pollfn.hh:41-54 | a working shard that finds all its rings empty falls asleep with its flag up |
| `Wakeup.RingLaw` | src/core/local_channel.cc:208-214 | in every run a ring holds what was pushed into it and not taken out |
| `Promises.AcquireOk` | include/hiactor/core/promise_manager.hh:59-68 | acquiring returns a fresh non-zero id, activates only it and keeps the free list |
| `Promises.RemoveSoundIffActive` | include/hiactor/core/promise_manager.hh:70-74 | releasing keeps the free list sound exactly when the id is active |
| `Promises.DoubleRemoveAliases` | include/hiactor/core/promise_manager.hh:70-74 | releasing twice hands one id to the next two requests |
| `Promises.SweepOk` | src/core/root_actor_group.cc:63-70 | the sweep keeps the free list and leaves no id from its start on active |
| `Promises.SweepThenContinueBreaks` | include/hiactor/core/actor_client.hh:59-62 | after the sweep, any waiting request's own release breaks the free list |
| `Promises.PrManager.AcquirePr` | include/hiactor/core/promise_manager.hh:59-68 | the method computes the specification and keeps the table well formed |
| `Promises.PrManager.RemovePr` | include/hiactor/core/promise_manager.hh:70-74 | likewise for release of an active id |
| `Promises.PrManager.CancelAll` | src/core/root_actor_group.cc:63-70 | the sweep loop leaves no id active |
| `Promises.StepOk` | include/hiactor/core/actor_client.hh:42-66 | issue, serve, deliver and continue keep: each active id has one request, response or resolved promise outstanding at most, owned by its holder |
| `Promises.ResponsesMatch` | src/core/root_actor_group.cc:137-154 | in every run each response resolves the request that allocated its id, never a later holder, and no request completes twice |
| `Promises.DeliveryResolves` | src/core/root_actor_group.cc:137-154 | every delivered response resolves its own request's promise, and the request can go on |
| `Promises.RequestsConserved` | include/hiactor/core/actor_client.hh:42-66 | in every run each request issued is in exactly one place: on the wire as request or response, resolved, done, or served without a reply |
| `Promises.RequestsCounted` | include/hiactor/core/actor_client.hh:42-66 | every issue numbers a new request and every continuation completes one |
| `Address.AppendReads` | include/hiactor/core/reference_base.hh:28-37 | an appended layer reads back, and the shard and lower layers are unchanged |
| `Address.OnShardReads` | include/hiactor/core/reference_base.hh:80-83 | the shard id reads back |
| `Address.MethodTidRoundTrip` | include/hiactor/core/actor_message.hh:76-83 | the method type id reads back as written |
| `Address.TidKeepsRouteIff` | include/hiactor/core/actor_message.hh:76-79 | writing it leaves the route alone exactly for up to seven layers, or when the bytes already agree |
| `Address.EightLayersClash` | include/hiactor/core/reference_base.hh:28-37 | eight-layer addresses can be built, and there the stamp changes the route; the same address with seven layers is safe |
| `Codegen.Index` | codegen/generator.py:67-76 | a method's number is the first position of its name |
| `Codegen.LookupNearest` | codegen/generator.py:46-64 | the method found is that of the nearest class that declares the name |
| `Codegen.RefCallIff` | codegen/generator.py:79-109 | a reference method exists exactly when the nearest class that declares the name declares it with a body; its stamp and number are that class's and that method's |
| `Codegen.ForeignGoesToTop` | codegen/generator.py:112-118 | a stamp that is not the actor's own sends the call to the top class |
| `Codegen.DispatchPreservesIff` | codegen/generator.py:79-178 | the generated pair runs the method C++ lookup selects exactly when it is the actor's own or the top class's, or the top class has that virtual under the same number |
| `Codegen.TwoLevelsPreserve` | codegen/generator.py:79-178 | with at most two levels every call runs the selected method |
| `Codegen.ThreeLevelsFail` | codegen/generator.py:112-118 | a three-level chain where another method runs |
| `Codegen.CallReachesMethod` | codegen/generator.py:99-107 | for up to seven layers the call keeps its route and runs the selected method there |
| `Wire.Serialize` | include/hiactor/core/actor_message.hh:187-209 | draining the payload produces the frame: length, header, count, length-prefixed buffers |
| `Wire.PrefixTrueIff` | include/hiactor/core/actor_message.hh:190-193 | the announced length is the number of bytes that follow exactly when it fits 32 bits |
| `Wire.Deserialize` | src/net/connection.cc:26-43 | the loop over the buffer parses what the specification parses, or reports a read past the buffer |
| `Wire.BodyParsesIffWhole` | src/net/connection.cc:26-43 | every proper prefix of a body fails to parse; the whole body gives the message marked as from the network |
| `Wire.RunReceiver` | src/net/connection.cc:189-206 | the read loop hands on what the specification receives from the stream |
| `Wire.FramingRoundTrip` | src/net/connection.cc:189-206 | any list of sendable messages arrives complete, in order, with payloads intact |
| `Wire.CutFrameOverruns` | src/net/connection.cc:191-199 | a stream cut inside a body delivers the whole frames before it and then overruns |
| `NetworkPlan.LoadNodeList` | src/core/actor-app.cc:111-135 | a list is accepted exactly when the machine is in it, its cores match and ids are numbered; otherwise which check fails |
| `NetworkPlan.RangesPartition` | src/core/actor-app.cc:163-177 | each global shard id lies in exactly one machine's range |
| `NetworkPlan.SendAgrees` | src/core/root_actor_group.cc:278-289 | each of the three branches is taken exactly for the destinations it serves, with an in-range local index that is the destination |
| `NetworkPlan.OneNetworkHop` | src/core/root_actor_group.cc:278-289 | a message that goes to the network is at most one local hop from its shard, whichever shard of the owning machine it comes in on |
| `NetworkPlan.SetNetworkConfig` | src/core/actor-app.cc:137-178 | the loops compute the anchor, the shard count, the awaited connections, the dealt-out client connections and the first accepting shard per address |
| `NetworkPlan.DealConserves` | src/core/actor-app.cc:167-171 | dealing connections to shards loses and invents none |
| `NetworkPlan.AcceptedEqualsOpened` | src/core/actor-app.cc:153-173 | a machine waits for exactly the connections all others open to it |
| `NetworkPlan.OpensToEachLower` | src/core/actor-app.cc:167-171 | exactly the configured number to each lower machine, none to others |
| `NetworkPlan.EvenLoad` | src/core/actor-app.cc:167-171 | client connections of two shards differ by at most one |
| `RoutingTable.ConnectionTable.Add` | include/hiactor/net/connection.hh:45-51 | the managed list names each connected machine once |
| `RoutingTable.ProxiesManage` | include/hiactor/net/network_channel.hh:184-188 | a shard is a proxy of a machine exactly when it manages a connection to it, and is listed once |
| `RoutingTable.LowerMachinesHaveProxies` | src/core/actor-app.cc:167-171 | with at least one connection per pair every lower machine has a proxy |
| `RoutingTable.Table.Build` | include/hiactor/net/network_channel.hh:158-189 | the map is the inverse of the shard ranges and every cell lists exactly its machine's proxies, with no write outside a cell |
| `RoutingTable.Table.Insert` | include/hiactor/net/network_channel.hh:209-214 | one proxy is appended to one cell and nothing else changes |
| `RoutingTable.Table.FixedDestination` | include/hiactor/net/network_channel.hh:192-206 | the owner of the shard, and a proxy that manages a connection to it, fixed per destination |
| `RoutingTable.Table.RoundRobinDestination` | include/hiactor/net/network_channel.hh:196-199 | likewise at the cursor, which stays in range and moves three places, other cells untouched |
| `RoutingTable.RoundRobinCoversIff` | include/hiactor/net/network_channel.hh:196-199 | n consecutive sends use each of the n proxies exactly once if and only if 3 does not divide n |
| `SerializableQueue.Queue.Push` | include/hiactor/net/serializable_queue.hh:184-191 | the buffer joins the end of the contents, except that a moved queue with a full array drops its list |
| `SerializableQueue.Queue.Pop` | include/hiactor/net/serializable_queue.hh:204-211 | first in, first out across the spill and drained nodes |
| `SerializableQueue.Queue.ListPop` | include/hiactor/net/serializable_queue.hh:141-154 | drained nodes are skipped, the oldest buffer is returned |
| `SerializableQueue.Queue.Peek` | include/hiactor/net/serializable_queue.hh:195-200 | the next pop exactly while the list head is not drained, otherwise a read outside the node |
| `SerializableQueue.Queue.BufferSize` | include/hiactor/net/serializable_queue.hh:221-223 | the total size of the contents, cut to 32 bits |
| `SerializableQueue.Queue.Moved` | include/hiactor/net/serializable_queue.hh:105-108 | what a move takes over, what it forgets, and what it leaves in the source queue |
| `SerializableQueue.Queue.Drain` | include/hiactor/core/actor_message.hh:199-206 | popping until empty returns the contents in order |
| `SerializableQueue.Queue.PopMany` | include/hiactor/net/serializable_queue.hh:204-211 | the next n pops of any queue, moved or not |
| `SerializableQueue.MoveKeepsPopsIff` | include/hiactor/net/serializable_queue.hh:35-39 | a moved queue pops what the original would exactly when its array was never read, or only empty buffers are left |
| `SerializableQueue.PeekFails` | include/hiactor/net/serializable_queue.hh:157-159 | after nine pushes and eight pops peek reads outside its node |
| `SerializableQueue.MoveFails` | include/hiactor/net/serializable_queue.hh:35-39 | after two pushes, a pop and a move the next pop is an empty buffer instead of the one owed |
| `SerializableQueue.PushAfterMoveDrops` | include/hiactor/net/serializable_queue.hh:121-131 | after five pushes, a move and a push the queue announces six buffers and holds five |
| `ColumnBatch.GrowthEndsIff` | include/hiactor/core/column_batch.hh:249-255 | for every 32-bit size, the doubling loop ends exactly when one of its first 31 doublings reaches the required space |
| `ColumnBatch.HalfRangeEndsIff` | include/hiactor/core/column_batch.hh:253-255 | up to half the 32-bit range that is the case exactly when something was reserved |
| `ColumnBatch.GrowthFailsAboveHalf` | include/hiactor/core/column_batch.hh:253-255 | above it a positive reserve can fail: from one, the loop for 2^31 + 1 never ends |
| `ColumnBatch.Batch.EnsureSpace` | include/hiactor/core/column_batch.hh:249-262 | whenever the loop ends, the row fits, the data is kept, the reserve is the first doubling large enough and stays below twice the required space |
| `ColumnBatch.Batch.Push` | include/hiactor/core/column_batch.hh:414-419 | exactly one entry and the row's own range are written, in shared buffers too |
| `ColumnBatch.Batch.PushWith` | include/hiactor/core/column_batch.hh:423-430 | the same for a row with one more element |
| `ColumnBatch.Batch.Append` | include/hiactor/core/column_batch.hh:414-419 | rows stay contiguous and the new one is appended |
| `ColumnBatch.Batch.AppendWith` | include/hiactor/core/column_batch.hh:423-430 | likewise for a row with one more element |
| `ColumnBatch.Reload` | include/hiactor/core/column_batch.hh:206-208 | reloading gives a batch with the dumped rows exactly when there is a row; otherwise it reads the entry before the first |
| `ColumnBatch.DumpAndLoad` | include/hiactor/core/column_batch.hh:391-401 | dumping and reloading returns every row, exactly when the batch has a row |
| `ColumnBatch.LoadedGrowsIff` | include/hiactor/core/column_batch.hh:295-298 | a reloaded batch can grow exactly when some row was not empty |
| `ColumnBatch.ShareAndPush` | include/hiactor/core/column_batch.hh:229-231 | rows present at the share stay in both copies under any later pushes on either |
| `ColumnBatch.LaterRowSurvivesIff` | include/hiactor/core/column_batch.hh:414-419 | for every batch, a row pushed on one copy after the share still reads back after a push on the other exactly when both rows are equally long and are equal or had to move to a larger buffer; otherwise a row of the other's length is read, or outside the data, and when |
| `ColumnBatch.LaterRowsClash` | include/hiactor/core/column_batch.hh:229-231 | such a loss on the smallest batch |
| `TaskQueue.SinkHeap` | include/hiactor/core/actor_scheduling.hh:74-80 | letting one element sink restores the heap |
| `TaskQueue.MakeHeap` | include/hiactor/core/actor_scheduling.hh:74-77 | a heap with the same elements |
| `TaskQueue.PopHeap` | include/hiactor/core/actor_scheduling.hh:78-80 | the root is taken, the rest is a heap of the other elements |
| `TaskQueue.RootIsMaximal` | include/hiactor/core/actor_scheduling.hh:78-80 | nothing in a heap outranks its root |
| `TaskQueue.Queue.PushUrgent` | include/hiactor/core/actor_scheduling.hh:56-58 | the entry joins the end of the urgent ones |
| `TaskQueue.Queue.Push` | include/hiactor/core/actor_scheduling.hh:60-63 | the entry joins the end and the rebuild flag is set |
| `TaskQueue.Queue.Pop` | include/hiactor/core/actor_scheduling.hh:65-83 | urgent tasks first in order, else the oldest without a comparator, else one that nothing queued outranks; the others stay queued and the heap stays valid while the flag is clear |
| `TaskQueue.Queue.IsEmpty` | include/hiactor/core/actor_scheduling.hh:94-96 | neither part holds an entry |
| `GpuTokens.StepOk` | include/hiactor/core/gpu_resource_pool.hh:84-101 | every atomic step keeps one token per stream below the limit and none at it |
| `GpuTokens.NoDuplicates` | src/core/gpu_resource_pool.cc:110-124 | in every run the candidate queue holds no stream twice and no stream exceeds the limit |
| `GpuTokens.TaskLaw` | include/hiactor/core/gpu_resource_pool.hh:90-99 | in every run a stream's counter is the number of tasks submitted to it and not completed |
| `GpuTokens.NoStreamLostIff` | include/hiactor/core/gpu_resource_pool.hh:90-101 | every stream of every run stays usable exactly when the limit is at least one |

## Left out

- ActorTree.DeleteOk: leaves out the response a group sends when a cancel request has finished
  (`cancel_request_sid`, `cancel_request_pr_id`); a later stop message overwrites the two fields.
- ActorTree.StopNodeOk: messages that user code sends while `clean_task_queue` cancels its tasks are
  mail that the stopping actor finds afterwards, not nested receives by other actors.
- ActorTree.ShutdownOk: the promise sweep at the start of shutdown is a step of module `Promises` only.
- ActorDrain.DrainRun: counts the resumptions a run still has in store; that user code lets its chains
  end is a property of user code.
- "Every request is answered": a forced stop drops mailboxes without replies, so only at-most-once and
  matching are proved, and only up to the start of shutdown.
- In `LocalChannel` a batch leaves the deque in the same step in which it enters the ring. The wake
  guarantee is about ring contents: a sender whose ring was full keeps messages that nobody wakes it for.
- Weak memory ordering, the reactor, futures, sockets and the lock-free rings themselves: atomic steps
  on bounded sequences and a sticky wake token stand for them.
- The service-group variant of `send`, the network message queue (a copy of the local one) and metrics.
- Connection setup, timeouts, listeners and which shard an accepted connection lands on; the routing
  theorems hold for any set of managed machines per shard.
- 32-bit overflow of shard counts and of the list's node count; message lengths, buffer totals and the
  batch reserve do wrap in the model.
- The linked nodes of the buffer list are a sequence of chunks, so aliasing of nodes is not captured,
  and neither are the memory leaks of its `pop`.
- The library's heap operations are modelled by sinking elements; the order among equals may differ.
- Reusing one barrier id for several rounds, and barriers across machines: the exit barrier is used once
  and for one machine.
- Replacing the comparator of a task queue in use: it is set at construction only.
- `simple_string` serialisation, `thread_resource_pool`, `alien_thread_pool`, `fixed_column_batch`,
  `cb_table`, CUDA calls, the capture of a local in `get_stream`, logging, demos and the libclang
  traversal.
