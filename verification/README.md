# A verified model of the slot consensus and of the chain it feeds

Nodes of the network agree, slot by slot, on one block of messages. In every slot a node takes
a block from its buffer, announces whether it contributes, exchanges election values with all
others until its own value is unique, nominates a validator, uploads its block to it, and
finally saves the merged block that the validator publishes. This project models that protocol
for any number of nodes, the storage, buffer and chain it works on, and the composition of any
number of slots, and proves what the nodes agree on.

## The model

* `Types`, `Totals`, `StorageSpec`: messages, blocks, packets, what a node knows of another one
  in a slot, sums and unions over maps, and the questions asked of a slot.
* `Storage`, `Buffers`, `Redis`: the classes that are updated in place, each method proved
  against a function of the old state. Loops over an unordered map pick the entries in any order.
* `SlotHandlers`: one node in one slot, as a class whose methods act on the three classes above.
  A wait is a method that tries its gate once and reports whether it passed. `RunNext` runs the
  handler at the position of the node; it is proved to be an enabled step of the transition
  system, or to wait exactly where none is enabled. `Refinement` says what that means.
* `Protocol`: the transition system of one slot. A node is at one of the positions of its list of
  handlers; the election loop takes eight positions, so that packets arrive between any two looks
  at the storage. What a node has published is a log per peer, and what it has received is a
  count per peer, so a channel is the part of the log not yet received, first in, first out.
* `Invariants`, `Links`: what holds in every reachable state, about one node and about a receiver
  and a sender.
* `Agreement`, `Settlement`, `Conservation`, `Slot`, `Clearing`, `Progress`, `Waking`, `Termination`:
  the results about one slot.
* `Schedules`: elections on demand. A node is sketched by what decides an election, and every
  move that is possible on sketches is carried out by a run.
* `Disagreement`, `Standstill`, `Relocking`: built from schedules, exactly which first draws allow
  two nodes to nominate different validators, the slot to come to a standstill, and a node to lock
  a mutex it holds.
* `World`, `ReplicatedLog`: any number of slots, each node taking them one at a time, with buffers
  and chains, and the results about the chains.
* `Adoption`: the last handlers of a node against its consume callback, call by call.
* `Timers`, `Framing`: the timer under all interleavings, and the text framing of packets.

A state of a slot is *settled* if no node has drawn beyond the round of a node that has left the
election, and that round has no collision. What saved blocks and chains hold is proved for all
runs; that all marks and all saved blocks are the very same, for settled states. Two conditions
that need no knowledge of rounds imply it: all nodes have left the election, or the first draws
are pairwise distinct. `Disagreement.AgreementExactly` says for which first draws agreement holds
in all runs: with at most two nodes for all of them, otherwise exactly for distinct ones.

What the model assumes:

* all nodes have the same configuration, with distinct addresses; the storage of a node knows the
  addresses of all nodes from the start, and a slot is initialised at a node before its handlers
  run there; the slot number in a packet is that of the slot under way;
* packets between two nodes in one slot arrive in the order of publication, none is lost (packets
  of different slots may overtake each other, which only adds runs);
* condition variables are guards, and a notified handler wakes (`Waking` says who notifies it);
* a handler, or one position of the election loop, is one step, and so is the callback for one
  packet; publishing to all peers is part of its step. `Adoption` drops this for published blocks;
* a node is done with a slot before it begins its next one;
* draws, clock readings, the order of unordered maps and the order `std::sort` gives to equal
  timestamps are arbitrary: they are parameters (`Choice`) or any value meeting the relation
  (`IsNominee`, `IsMerge`);
* the serializers are injective, so texts stand for the values they encode.

Where names and code disagree the code is followed: `removeElectionValueDuplicates` resets every
value, `isElectionValueUnique` looks at the caller's own value only, the election loop holds its
lock when it goes round without a collision, and locking it again is a crash.

Reading an entry that does not exist inserts a fresh one in the program; fresh and absent entries
are not distinguished here. Integers are unbounded except for the sum that decides between the
largest and the smallest value, which is computed in the widths of the program.

## Model

| member | source | states |
|---|---|---|
| Slot.ElectionAgreement | node/src/slot/ElectionWaiter.cpp:27-48 | Through any number of collision rounds and any interleaving: once every node has left the election, all nodes that have nominated marked the same node, and it is the nominee of everybody's last draw. |
| Agreement.AllNominatedSettled | node/src/slot/ElectionWaiter.cpp:27-43 | If all nodes have left the election, they all drew equally often and the values of that last round are pairwise distinct, although each node checked only its own. |
| Agreement.RoundDiscipline | node/src/slot/ElectionWaiter.cpp:27-48 | In every run, collisions included: draw counts of two nodes differ by at most one; after r draws at least r-1 values of every peer have been received; a value held is the one its peer drew in a round not before the own one; two nodes that have left the election did so in the same round with different values. |
| Disagreement.AgreementExactly | node/src/slot/ElectionWaiter.cpp:27-48 | Agreement, exactly: given the first draw of every node, for any number of nodes, all marks agree in all runs if and only if there are at most two nodes or the first draws are pairwise distinct. |
| Disagreement.CollisionDisagrees | node/src/db/ConsensusStorage.cpp:37-53 | The failing half, for every set of three nodes or more and all first draws with a collision: a run in which one node leaves with the values of a round and another, whose rivals have drawn again, with later ones, and the two mark different validators. |
| Disagreement.NominatorsDisagree | node/src/db/ConsensusStorage.cpp:37-53 | An input: three nodes that draw 5, 1 and 5. |
| Standstill.StandstillExactly | node/src/slot/ElectionWaiter.cpp:27-48 | Progress, exactly: given the first draws, some run reaches a state in which no step is possible although not every node is done, if and only if two first draws are equal. |
| Relocking.RelockExactly | node/src/slot/ElectionWaiter.cpp:27-43 | The second lock, exactly: given the first draws, some run lets a node lock the mutex it holds if and only if there are at least three nodes and two first draws are equal. |
| Relocking.TwoNeverRelock | node/src/slot/ElectionWaiter.cpp:27-43 | With two nodes or fewer no run locks twice, however often they collide. |
| Schedules.Performs | node/src/slot/ElectionWaiter.cpp:27-48 | Every move that is possible on the sketch of an election (begin, receive, draw, leave, collide and draw again, sleep, wake) is carried out by some run of the handlers and packets. |
| Schedules.PerformAll | node/src/slot/ElectionWaiter.cpp:27-48 | Moves of different nodes do not disturb each other: any set of nodes can make the moves possible at the start, one after the other. |
| StorageSpec.OwnUniquenessIsNotEnough | node/src/db/ConsensusStorage.cpp:37-53 | A node whose own value is unique can hold two nominees, because others collide. |
| Slot.SettledElection | node/src/db/ConsensusStorage.cpp:165-195 | In every reachable settled state all marks are the same node, the nominee of the last draws, whatever the order in which each node walked its map. |
| Slot.SameValidator | node/src/slot/DataRelay.cpp:17-19 | In every reachable settled state all nodes that have taken a validator, cleared or not, have taken the same one, and only this node takes itself for it. |
| Conservation.SavedIsComplete | node/src/db/ConsensusStorage.cpp:217-241 | In every run, collisions and disagreement included: every block that a node saves is sorted by timestamp and consists of exactly the messages of the contributing nodes, so any two saved blocks hold the same messages. |
| Conservation.BroadcasterIsAlone | node/src/db/ConsensusStorage.cpp:94-104 | Two validators of one slot cannot spoil each other's blocks: if a validator finds all data collected and another contributor is a validator that has published, that one is the only contributor. |
| Slot.SlotAgreement | node/src/slot/SlotHandler.hpp:46-59 | In every reachable settled state any two nodes that are about to save, or have saved, hold the same completed block; it is sorted by timestamp and consists of exactly the messages of the contributing nodes. |
| Slot.StampedByValidator | node/src/db/ConsensusStorage.cpp:217-241 | In every reachable settled state the block a node saves is completed and carries the timestamp and the slot number of the block its validator took from its buffer. |
| Slot.DistinctDrawsSettle | node/src/slot/ElectionWaiter.cpp:27-48 | With pairwise distinct first draws every reachable state is settled, no node draws twice, and no node ever crashes. |
| Slot.ClearingIsFinal | node/src/slot/CompleteBlockSaver.cpp:15-23 | Along reachable settled states: when a node clears a slot, every packet of that slot to it has been received, and the next step sends it none and delivers none to it. |
| Clearing.StaysCleared | node/src/slot/CompleteBlockSaver.cpp:22 | In every reachable settled state a node past saving holds nothing of its slot: every entry is fresh, there is no mark and no synchronization context, and none comes back. |
| Clearing.ClearedForgets | node/src/db/ConsensusStorage.cpp:143-149 | In every run, settled or not, and whatever still arrives: a node past saving has no synchronization context, no mark, no known contribution and a fresh entry of its own. |
| Clearing.LatePacketCrashes | node/src/App.cpp:139-167 | In every run, exactly which packet to a node that has cleared its slot crashes it: an upload on an unknown contribution, a published block on the missing synchronization context, an election value not at all. |
| Agreement.CausalSafety | node/src/db/ConsensusStorage.cpp:22-28 | In every run, until a node clears its slot: no unknown contribution and no missing synchronization context is ever read, not even for an upload that arrives early; the only crash is locking the held lock, and `Relocking.RelockExactly` says when that happens. |
| Agreement.ContributionsAgree | node/src/slot/InspectionWaiter.cpp:18-39 | Nodes past inspection hold the same contributions, namely those the nodes announced. |
| Agreement.UnanimousRemoval | node/src/slot/PendingBlockRemover.cpp:15-29 | If one node drops its placeholder, no node contributes and none goes on to the election, ever. |
| Progress.NoDeadlock | node/src/slot/SlotHandler.cpp:31-39 | With distinct first draws some step is possible in every reachable state until every node is done. |
| Waking.NoLostWakeUp | node/src/App.cpp:102-167 | In every run: if a node cannot go on before a packet and can after it, the packet has raised the flag of the slot, whichever gate it waits at. |
| Waking.WokenExactly | node/src/App.cpp:118-153 | In every run: a packet of the kind a node waits for (contribution, election value, upload) raises the lowered flag exactly if the node can then go on. |
| Termination.StepUsesBudget | node/src/slot/SlotHandler.cpp:31-39 | Collisions or not: as long as no node draws more than a given number of values, every step, of a handler or of a packet, strictly decreases a measure of handlers, draws and packets left. |
| Termination.RunIsBounded | node/src/slot/SlotHandler.cpp:31-39 | A run of n nodes in which no node draws more than r values has at most n(5 + 16r + n(r + 2)) steps; only drawing again and again can go on. |
| Termination.DistinctRunIsBounded | node/src/slot/SlotHandler.cpp:31-39 | With distinct first draws no run of n nodes is longer than n(21 + 3n) steps. |
| Invariants.HandleLocal | node/src/slot/SlotHandler.hpp:46-59 | Every handler keeps the facts about its node: what it has published, its own entry, at most one mark, and what each gate it passed has established. |
| Links.InvReachable | node/src/App.cpp:88-168 | In every reachable state the storage of a receiver is what the packets it has taken from each peer say, and held election values are of its own round or a later one. |
| Links.DeliverPair | node/src/App.cpp:102-167 | Receiving a packet keeps the relation between the receiver's storage and the sender's log. |
| Settlement.AgreedReachable | node/src/slot/ContributorsDataWaiter.cpp:16-51 | In every reachable settled state nominations, merged blocks and adopted blocks are those of the last draws and of the validator. |
| Slot.MergesEverything | node/src/db/ConsensusStorage.cpp:94-104 | In every reachable settled state, when the validator finds all data collected, what it merges is every contribution, and each contributor's upload has arrived. |
| ReplicatedLog.PrefixRelated | node/src/slot/CompleteBlockSaver.cpp:15-23 | In every reachable world, collisions included, over any number of slots: the completed blocks of any two chains hold the same messages block by block, up to how far each node is, even if the nodes are in different slots; if all slots are settled the blocks themselves are the same. |
| ReplicatedLog.AppendOnly | node/src/db/RedisDB.cpp:11-32 | In every reachable world, collisions included, every step leaves the completed blocks of a chain where they are, and only the last entry can be a placeholder. |
| ReplicatedLog.PlaceholderInPlace | node/src/slot/PendingBlockRemover.cpp:24-26 | In every reachable world, collisions included, the remembered index of a slot under way is that of the placeholder at the end of the chain; removing the placeholder by value removes exactly this entry, and overwriting replaces exactly this entry. |
| ReplicatedLog.ExactlyOnce | node/src/Buffer.cpp:3-30 | In every reachable world, when all nodes are done with the same slots, each chain together with all buffers holds exactly the messages ever pushed to any buffer, each as often as it was pushed. |
| World.ContributesExactly | node/src/slot/PendingBlockSaver.cpp:14-36 | In every reachable world a node contributes to a slot exactly if its buffer holds a message; it contributes its oldest block, or all loose messages as one block. |
| World.WorldOkReachable | node/src/slot/PendingBlockSaver.cpp:14-36 | In every reachable world each chain is the log of the slots done plus what the slot under way has put there, and each buffer accounts for what was pushed. |
| World.DistinctDrawsSettleAll | node/src/App.cpp:61-75 | A world is settled if each of its slots has distinct first draws or has been left by all nodes. |
| Adoption.AdoptsPublished | node/src/slot/BroadcastWaiter.cpp:29-45 | With callback and handler interleaved call by call: the mark is never seen before the block is stored, and after either exit of the wait the node holds, and then saves, the block its validator published. |
| Adoption.WaitingCanLeave | node/src/slot/BroadcastWaiter.cpp:37-45 | When the callback is through, a node still waiting can leave. |
| Adoption.CrashesExactlyIfCleared | node/src/App.cpp:155-167 | When the callback has ended, it has followed a null pointer if and only if the slot was cleared before the second of its two lookups; without clearing it does not. |
| Adoption.CallbackOvertaken | node/src/App.cpp:163-166 | Such a run exists from every start: the early exit lets the handler save and clear before the callback has woken it. |
| Adoption.AtomicCallback | node/src/App.cpp:155-167 | Without interleaving, the calls of the callback have the effect of the receiving step of the slot. |
| Adoption.AtomicEarlyExit | node/src/slot/BroadcastWaiter.cpp:29-35 | Without interleaving, the early exit has the effect of the step of the slot. |
| Adoption.AtomicWait | node/src/slot/BroadcastWaiter.cpp:37-45 | Without interleaving, a turn of the wait with flag and mark has the effect of the step of the slot; without the mark it waits on. |
| Storage.ConsensusStorage.MarkValidator | node/src/db/ConsensusStorage.cpp:165-195 | For every iteration order, marks a maximum of the values if their exact sum is odd and a minimum if it is even, and changes nothing else. |
| Storage.AccumulateParity | node/src/db/ConsensusStorage.cpp:167-172 | The parity of the sum survives every wrap of the accumulation, 64 bits without sign into an `int`. |
| StorageSpec.NomineeUnique | node/src/db/ConsensusStorage.cpp:165-195 | For pairwise distinct values there is only one nominee. |
| Storage.ConsensusStorage.MergeContributors | node/src/db/ConsensusStorage.cpp:217-241 | The validator's block becomes, in place, a sorted permutation of its own data and that of all other contributors; this is the block returned; no other entry changes. |
| Storage.ConsensusStorage.AppendContributors | node/src/db/ConsensusStorage.cpp:223-232 | Walking the contexts in any order appends exactly the data of the other contributors. |
| Storage.SortByTimestamp | node/src/db/ConsensusStorage.cpp:234-237 | The result is sorted by timestamp and a permutation. |
| Storage.ConsensusStorage.RemoveElectionValueDuplicates | node/src/db/ConsensusStorage.cpp:55-76 | Resets the value of every node in the slot and nothing else. |
| Storage.ConsensusStorage.IsElectionValueUnique | node/src/db/ConsensusStorage.cpp:37-53 | True exactly if no other node has the value of the given one. |
| Storage.ConsensusStorage.AreAllContributorsConfirmed | node/src/db/ConsensusStorage.cpp:14-20 | True exactly if every contribution of the slot is known. |
| Storage.ConsensusStorage.IsAnyNodeContributing | node/src/db/ConsensusStorage.cpp:22-28 | Exact when all contributions are known; otherwise it may throw, and never answers no. |
| Storage.ConsensusStorage.AreAllElectionValuesPresent | node/src/db/ConsensusStorage.cpp:30-35 | True exactly if every value is positive. |
| Storage.ConsensusStorage.IsAllContributorsDataCollected | node/src/db/ConsensusStorage.cpp:94-104 | Exact when all contributions are known; otherwise it may throw, and never answers yes. |
| Storage.ConsensusStorage.GetValidator | node/src/db/ConsensusStorage.cpp:78-92 | Finds a marked node exactly if there is one. |
| Storage.ConsensusStorage.ClearSlot | node/src/db/ConsensusStorage.cpp:143-149 | Forgets everything about the slot and nothing about others. |
| SlotHandlers.SlotHandler.RunNext | node/src/slot/SlotHandler.cpp:31-39 | The handler at the position of a node, acting in place, refines the transition system: given only what holds of every node in every run, its effect is that of an enabled step, on buffer and chain too; or it waits, changes nothing, and no step is enabled. Entries and synchronization contexts of all other slots and all other lists stay as they were; after saving nothing of the slot is left. |
| Refinement.LocalReady | node/src/slot/SlotHandler.hpp:46-59 | What the methods ask of their caller (synchronization context, known contributions, a marked node and no other) holds at their positions in every run. |
| Refinement.CollectIsStep | node/src/slot/ContributorsDataWaiter.cpp:16-51 | Where the validator waits for data no step is enabled; a merge of all data is an enabled step. |
| SlotHandlers.SlotHandler.SavePendingBlock | node/src/slot/PendingBlockSaver.cpp:14-43 | Takes the block that saving and popping the buffer yields, appends it to the chain, remembers its index, and keeps the block as its own. |
| SlotHandlers.SlotHandler.TryRemove | node/src/slot/PendingBlockRemover.cpp:15-29 | Removes the placeholder and stops exactly if all are known not to contribute; with unknown contributions it throws or goes on. |
| SlotHandlers.SlotHandler.NominateValidator | node/src/slot/SlotHandler.cpp:81-84 | Marks a nominee of the values held, for every iteration order, and nothing else, in this slot or another. |
| SlotHandlers.SlotHandler.TransferData | node/src/slot/DataRelay.cpp:13-36 | Takes a marked node as validator; only a contributor that is not the validator uploads. |
| SlotHandlers.SlotHandler.CollectData | node/src/slot/ContributorsDataWaiter.cpp:16-51 | The validator passes exactly if all data is collected; the data is merged into the block of a marked node, which is the validator if nobody else is marked; with unknown contributions it throws or waits; the others pass. |
| SlotHandlers.SlotHandler.SaveCompleteBlock | node/src/slot/CompleteBlockSaver.cpp:15-23 | Overwrites exactly the remembered entry and clears the slot: every entry of it is fresh and its synchronization context is gone, those of other slots stay; an index out of range is an exception that leaves all alone. |
| SlotHandlers.SlotHandler.Consume | node/src/App.cpp:88-168 | Is the receiving step of the transition system for all four kinds of packets, in the slot of the packet alone: entries and synchronization contexts of all other slots stay as they were; for an upload with unknown contributions the program may also get away without the exception. |
| Buffers.BufferConservation | node/src/Buffer.cpp:3-30 | Over every sequence of calls: popped blocks, queued blocks and loose messages hold every pushed message exactly once; no block is empty; blocks leave in the order they were saved. |
| Buffers.LooseMessages | node/src/Buffer.cpp:3-12 | After every sequence of calls the loose messages are the batches pushed since the last save, latest first, followed by the single messages in the order they were pushed. |
| Buffers.SavedInOrder | node/src/Buffer.cpp:14-20 | A save after any sequence of calls makes one pending block of exactly these messages in this order, stamped with the time and its slot, or none if there are none. |
| Buffers.FirstInFirstOut | node/src/Buffer.cpp:3-30 | Without batches the data of popped and queued blocks and the loose messages, one after the other, are the pushed messages in order. |
| Buffers.Buffer.Save | node/src/Buffer.cpp:14-20 | Turns the loose messages, if any, into one block behind the queue. |
| Buffers.Buffer.Pop | node/src/Buffer.cpp:22-30 | Takes the block at the front of the queue, if any. |
| Redis.RemovedAt | node/src/db/RedisDB.cpp:26-31 | Removing by value removes exactly one index if no earlier entry is equal. |
| Redis.RedisDB.Add | node/src/db/RedisDB.cpp:11-17 | Appends to one list, returns its new length, and leaves other lists alone. |
| Redis.RedisDB.Update | node/src/db/RedisDB.cpp:19-24 | Overwrites one entry, counted from the end if negative; fails exactly if it is out of range. |
| Timers.ActivationsDoNotOverlap | common/utils/Timer.hpp:36-96 | Under every interleaving callbacks come one at a time, in the order of their activations, and none of an earlier activation begins or ends once a later one has its thread. |
| Timers.CounterIsExact | common/utils/Timer.hpp:85-96 | The counter is the number of threads still to decrement it, with the one about to be started, and is at most one. |
| Timers.IntervalGoesOn | common/utils/Timer.hpp:58-74 | A safely started interval that nobody stops is in its loop in every state it can reach: its thread never leaves. |
| Timers.IntervalRepeats | common/utils/Timer.hpp:58-74 | A safely started interval can call back any number of times without being stopped. |
| Timers.TimeoutOnce | common/utils/Timer.hpp:36-55 | A timeout calls back at most once in every run. |
| Timers.StopEnds | common/utils/Timer.hpp:76 | Once stopped, and not started again, no callback begins that has not begun. |
| Timers.StartFailsExactlyIfActive | common/utils/Timer.hpp:79-83 | Starting throws exactly if the timer is active, and then changes nothing else. |
| Timers.SafeStartExactly | common/utils/Timer.hpp:36-55 | Starting a timer, exactly: in every reachable state in which it can be started, every activation that nobody stops runs its callback, under all interleavings, if and only if no earlier thread will still clear `active` (a timeout in its callback or past it). |
| Timers.HarmfulStart | common/utils/Timer.hpp:50-52 | The failing half: from every state with such a thread there is an interleaving in which the new activation leaves without its callback although nobody stops it. |
| Timers.LateStop | common/utils/Timer.hpp:50-52 | An instance from the start: a timeout stopped after its callback and started again in between switches the new activation off. |
| Framing.RoundTrip | node/src/io/Utils.hpp:7-16 | Splitting a merged text gives back header and body if and only if the header does not contain the separator; the body may be anything. |
| Framing.MergeOfSplit | node/src/io/Utils.hpp:7-16 | Merging the parts of a text gives the text back if and only if it has a separator; otherwise the body starts at the thirteenth character, and a shorter text is an exception. |
| Framing.SplitOfMerge | node/src/io/Utils.hpp:7-16 | In general splitting breaks at the first separator of the header, if it has one. |
| Framing.NoStraddling | node/src/io/Utils.hpp:7 | No occurrence of the separator straddles the end of the header. |

## Left out

- Messaging, event loop, Redis connection, configuration files and logging; channels are logs and counts, a Redis list is a sequence.
- The serializers, including the overloads for vectors; an injective codec is assumed.
- `Consumer`, `Producer`, the client and the graphical interface; publishing a block to them is a step without effect.
- `TimerWheel`, `Time`, `ChannelStore`, `ConnectionStore`: they would add only easy members.
- Lost wake-ups, sleeping times and clock drift.
- The quality of the random generator: a draw is any value from 1 to 65535.
- Overlapping slots at one node: stored indices shift when an earlier placeholder is removed, so a node takes its slots one at a time.
- Blocks whose slot number, taken from the clock when they were saved, differs from the slot under way.
- Runs in which two first draws are equal and all goes well all the same: which interleavings these are is not characterised, only that others exist.
- Slot.SettledElection: is about nodes that have not cleared the slot yet, since clearing erases the marks.
- SlotHandlers.SlotHandler.SaveCompleteBlock: omits the assignment to the state of the pending block, which nothing reads afterwards.
- SlotHandlers.SlotHandler.RunNext: runs one handler; the loop of `SlotHandler::handle` around it is the position of the node, since a wait may last.
- Slot.SlotAgreement: in states that are not settled only the messages of saved blocks are shown to agree (`Conservation.SavedIsComplete`), not their timestamps and slot numbers, which a second validator takes from its own block.
- Slot.ClearingIsFinal: is about settled states.
- The name a packet gives its sender, which only logs use.
- The timer is a transition system and not a class, because its threads meet between any two accesses; its destructor and the delay are not modelled.
