/**
  One node process in one slot: the handlers of `SlotHandler` and the consume callback,
  acting in place on the storage, the buffer and the chain. Every method has exactly the
  effect that the transition system gives to its step.
 */
module SlotHandlers {
  import opened Types
  import opened StorageSpec
  import opened Buffers
  import opened Redis
  import opened Storage
  import opened Invariants
  import opened Refinement
  import W = World
  import P = Protocol

  const DEFAULT_BLOCKCHAIN := "DEFAULT_BLOCKCHAIN"

  class SlotHandler {
    const self: Address
    const nodes: set<Address>
    const slot: nat
    const storage: ConsensusStorage
    const redis: RedisDB
    const buffer: Buffer

    // SlotContext
    var block: Block
    var contributing: bool
    var blockIndex: int
    var validator: Address
    var isValidator: bool
    var broadcastBlock: Block

    // the position in the list of handlers
    var pc: nat
    var lockHeld: bool
    var status: P.Status
    // what has been published to each peer, and how much has been received from it
    var sent: map<Address, seq<Packet>>
    ghost var taken: map<Address, nat>
    ghost var draws: seq<nat>

    ghost predicate Valid()
      reads this, storage
    {
      && self in nodes && storage.contexts.Keys == nodes
      && sent.Keys == taken.Keys == nodes - {self}
    }

    /** The record of this node in the transition system. */
    ghost function View(): P.Node
      reads this, storage
    {
      P.Node(pc, status, lockHeld, storage.View(slot),
             slot in storage.conditions && storage.conditions[slot], slot in storage.conditions,
             block, contributing, validator, isValidator, broadcastBlock, draws, sent, taken)
    }

    ghost function Chain(): seq<Block>
      reads redis
    {
      redis.List(DEFAULT_BLOCKCHAIN)
    }

    constructor (self: Address, nodes: set<Address>, slot: nat,
                 storage: ConsensusStorage, redis: RedisDB, buffer: Buffer)
      requires self in nodes && storage.contexts.Keys == nodes
      requires slot !in storage.conditions && forall a :: storage.Entry(a, slot) == FRESH_CONTEXT
      ensures this.self == self && this.nodes == nodes && this.slot == slot
      ensures this.storage == storage && this.redis == redis && this.buffer == buffer
      ensures Valid() && View() == P.InitialNode(nodes, self)
    {
      this.self, this.nodes, this.slot := self, nodes, slot;
      this.storage, this.redis, this.buffer := storage, redis, buffer;
      block, contributing, blockIndex := EMPTY_BLOCK, false, 0;
      validator, isValidator, broadcastBlock := Address(""), false, EMPTY_BLOCK;
      lockHeld, status := false, P.Running;
      sent := map a | a in nodes - {self} :: [];
      taken := map a | a in nodes - {self} :: 0;
      draws, pc := [], P.INIT;
    }

    /** Publishes to every remote channel. */
    method PublishAll(p: Packet)
      modifies this`sent
      ensures sent == P.ToAll(old(sent), p)
    {
      var todo := sent.Keys;
      while todo != {}
        invariant todo <= sent.Keys == old(sent.Keys)
        invariant forall a | a in sent :: sent[a] == if a in todo then old(sent)[a] else old(sent)[a] + [p]
      {
        var a :| a in todo;
        sent := sent[a := sent[a] + [p]];
        todo := todo - {a};
      }
    }

    // ----- small steps -----

    lemma ViewAt()
      requires Valid()
      ensures View().store == storage.View(slot) && View().store.Keys == nodes
      ensures View().isValidator == isValidator && View().validator == validator
      ensures View().pc == pc && View().status == status
      ensures View().condition == (slot in storage.conditions) && View().sent == sent
    {
    }

    /** What the frames of the methods say: other slots and other lists are as they were. */
    twostate lemma OnlyHere()
      requires storage.Elsewhere(slot) == old(storage.Elsewhere(slot))
      requires redis.OtherLists(DEFAULT_BLOCKCHAIN) == old(redis.OtherLists(DEFAULT_BLOCKCHAIN))
      ensures forall a, t | t != slot :: storage.Entry(a, t) == old(storage.Entry(a, t))
      ensures storage.conditions - {slot} == old(storage.conditions) - {slot}
      ensures forall key | key != DEFAULT_BLOCKCHAIN :: redis.List(key) == old(redis.List(key))
    {
      hide RedisDB.List, ConsensusStorage.Entry;
      forall a, t | t != slot
        ensures storage.Entry(a, t) == old(storage.Entry(a, t))
      {
        assert storage.Elsewhere(slot).0[(a, t)] == old(storage.Elsewhere(slot)).0[(a, t)];
      }
      forall key | key != DEFAULT_BLOCKCHAIN
        ensures redis.List(key) == old(redis.List(key))
      {
        assert redis.OtherLists(DEFAULT_BLOCKCHAIN)[key] == old(redis.OtherLists(DEFAULT_BLOCKCHAIN))[key];
      }
    }

    method Advance(to: nat)
      modifies this`pc
      ensures View() == old(View()).(pc := to)
    {
      hide ConsensusStorage.View, ConsensusStorage.Entry, ConsensusStorage.Elsewhere;
      pc := to;
    }

    method Fail(reason: P.CrashReason)
      modifies this`status
      ensures View() == old(View()).(status := P.Crashed(reason))
    {
      hide ConsensusStorage.View, ConsensusStorage.Entry, ConsensusStorage.Elsewhere;
      status := P.Crashed(reason);
    }

    method Stop()
      modifies this`status
      ensures View() == old(View()).(status := P.Stopped)
    {
      hide ConsensusStorage.View, ConsensusStorage.Entry, ConsensusStorage.Elsewhere;
      status := P.Stopped;
    }

    // ----- inspection -----

    method Initialise()
      requires Valid() && pc == P.INIT
      modifies this, storage
      ensures Valid() && View() == P.Initialise(old(View()))
      ensures blockIndex == old(blockIndex)
      ensures storage.Elsewhere(slot) == old(storage.Elsewhere(slot))
    {
      hide ConsensusStorage.View, ConsensusStorage.Entry, ConsensusStorage.Elsewhere;
      storage.InitConditions(slot);
      storage.InitContexts(nodes, slot);
      pc := P.SAVE_PENDING;
    }

    method PopBlock(now: nat)
      requires Valid()
      modifies this`block, this`contributing, buffer
      ensures Valid() && buffer.Value() == Popped(Saved(old(buffer.Value()), now))
      ensures var input := Front(Saved(old(buffer.Value()), now));
        View() == old(View()).(contributing := input.Some?,
                               block := if input.Some? then input.value else NewBlock([], now))
    {
      hide Saved, Front, Popped, NewBlock, ConsensusStorage.View, ConsensusStorage.Entry, ConsensusStorage.Elsewhere;
      buffer.Save(now);
      var popped := buffer.Pop();
      contributing := popped.Some?;
      block := if popped.Some? then popped.value else NewBlock([], now);
    }

    method SaveBlockToDb()
      modifies this`blockIndex, redis
      ensures Chain() == Appended(old(Chain()), block) && blockIndex == |old(Chain())|
      ensures View() == old(View())
      ensures redis.OtherLists(DEFAULT_BLOCKCHAIN) == old(redis.OtherLists(DEFAULT_BLOCKCHAIN))
    {
      hide ConsensusStorage.View, ConsensusStorage.Entry, ConsensusStorage.Elsewhere;
      var length := redis.Add(block, DEFAULT_BLOCKCHAIN);
      blockIndex := length - 1;
    }

    method KeepBlock()
      requires Valid()
      modifies this`pc, storage
      ensures Valid()
      ensures View() == old(View()).(pc := P.NOTIFY,
              store := old(View()).store[self := old(View()).store[self].(block := old(View()).block)])
      ensures storage.Elsewhere(slot) == old(storage.Elsewhere(slot))
    {
      hide ConsensusStorage.View, ConsensusStorage.Entry, ConsensusStorage.Elsewhere;
      storage.AddBlock(self, slot, block);
      pc := P.NOTIFY;
    }

    method SavePendingBlock(now: nat)
      requires Valid() && pc == P.SAVE_PENDING
      modifies this, storage, redis, buffer
      ensures Valid()
      ensures View() == P.SavePendingBlock(self, old(View()),
                P.Choice(Front(Saved(old(buffer.Value()), now)), NewBlock([], now), 0, self, EMPTY_BLOCK))
      ensures buffer.Value() == Popped(Saved(old(buffer.Value()), now))
      ensures Chain() == Appended(old(Chain()), block) && blockIndex == |old(Chain())|
      ensures storage.Elsewhere(slot) == old(storage.Elsewhere(slot))
      ensures redis.OtherLists(DEFAULT_BLOCKCHAIN) == old(redis.OtherLists(DEFAULT_BLOCKCHAIN))
    {
      hide Saved, Front, Popped, Appended, NewBlock, View, ConsensusStorage.View, ConsensusStorage.Entry,
        ConsensusStorage.Elsewhere, RedisDB.List, RedisDB.OtherLists;
      PopBlock(now);
      SaveBlockToDb();
      KeepBlock();
    }

    method NotifyContribution()
      requires Valid() && pc == P.NOTIFY
      modifies this, storage
      ensures Valid() && View() == P.NotifyContribution(self, old(View()))
      ensures blockIndex == old(blockIndex)
      ensures storage.Elsewhere(slot) == old(storage.Elsewhere(slot))
    {
      hide P.ToAll, ConsensusStorage.View, ConsensusStorage.Entry, ConsensusStorage.Elsewhere;
      storage.SetContribution(self, slot, contributing);
      PublishAll(Inspection(contributing));
      pc := P.WAIT_INSPECTION;
    }

    /** Tries the gate once; a node that does not pass waits and tries again. */
    method PassInspection() returns (passed: bool)
      requires Valid() && pc == P.WAIT_INSPECTION && slot in storage.conditions
      modifies this, storage
      ensures Valid() && (passed <==> old(AllConfirmed(storage.View(slot))))
      ensures View() == if passed then P.PassInspection(old(View())) else old(View())
      ensures blockIndex == old(blockIndex)
      ensures passed ==> slot in storage.conditions && !storage.conditions[slot]
      ensures storage.Elsewhere(slot) == old(storage.Elsewhere(slot))
    {
      hide AllConfirmed, ConsensusStorage.View, ConsensusStorage.Entry, ConsensusStorage.Elsewhere;
      passed := storage.AreAllContributorsConfirmed(slot);
      if passed {
        var ok := storage.SetSynchronized(slot, false);
        pc := P.TRY_REMOVE;
      }
    }

    method RemovePlaceholder() returns (found: bool)
      modifies redis
      ensures found <==> InRange(old(Chain()), blockIndex)
      ensures Chain() == if found then Removed(old(Chain()), At(old(Chain()), blockIndex).value) else old(Chain())
      ensures View() == old(View())
      ensures redis.OtherLists(DEFAULT_BLOCKCHAIN) == old(redis.OtherLists(DEFAULT_BLOCKCHAIN))
    {
      hide Removed, ConsensusStorage.View, ConsensusStorage.Entry, ConsensusStorage.Elsewhere;
      var placeholder := redis.GetByIndex(blockIndex, DEFAULT_BLOCKCHAIN);
      found := placeholder.Some?;
      if found {
        redis.Remove(placeholder.value, DEFAULT_BLOCKCHAIN);
      }
    }

    /** Nobody contributes: the placeholder goes, and the remaining handlers are not called. */
    method TryRemove()
      requires Valid() && pc == P.TRY_REMOVE && status == P.Running
      modifies this`pc, this`status, redis
      ensures Valid()
      ensures AllConfirmed(View().store) && (AnyContributing(View().store) || InRange(old(Chain()), blockIndex)) ==>
                View() == P.TryRemove(old(View()))
      ensures AllConfirmed(View().store) && !AnyContributing(View().store) ==>
                View() == old(View()).(status :=
                  if InRange(old(Chain()), blockIndex) then P.Stopped else P.Crashed(P.EmptyOptional))
      ensures !AllConfirmed(View().store) || AnyContributing(View().store) ==>
                || (AnyContributing(View().store) && View() == old(View()).(pc := P.SEND_ELECTION))
                || (!AllConfirmed(View().store) && View() == old(View()).(status := P.Crashed(P.EmptyOptional)))
      ensures Chain() == if View().status.Stopped? && InRange(old(Chain()), blockIndex) then
                           Removed(old(Chain()), At(old(Chain()), blockIndex).value)
                         else old(Chain())
      ensures redis.OtherLists(DEFAULT_BLOCKCHAIN) == old(redis.OtherLists(DEFAULT_BLOCKCHAIN))
    {
      hide AllConfirmed, AnyContributing, Removed, InRange, At, View, ConsensusStorage.View, ConsensusStorage.Entry,
        ConsensusStorage.Elsewhere, RedisDB.List, RedisDB.OtherLists;
      ViewAt();
      var any := storage.IsAnyNodeContributing(slot);
      match any
      case None => Fail(P.EmptyOptional);
      case Some(contributing) =>
        if contributing {
          Advance(P.SEND_ELECTION);
        } else {
          var found := RemovePlaceholder();
          if found {
            Stop();
          } else {
            Fail(P.EmptyOptional);
          }
        }
    }

    // ----- election -----

    method DrawValue(draw: nat)
      requires Valid()
      modifies this`draws, storage
      ensures Valid() && storage.conditions == old(storage.conditions)
      ensures View() == old(View()).(draws := old(View()).draws + [draw],
              store := old(View()).store[self := old(View()).store[self].(electionValue := draw)])
      ensures storage.Elsewhere(slot) == old(storage.Elsewhere(slot))
    {
      hide ConsensusStorage.View, ConsensusStorage.Entry, ConsensusStorage.Elsewhere;
      storage.FillElectionValue(self, slot, draw);
      draws := draws + [draw];
    }

    method PublishValue(draw: nat)
      requires Valid()
      modifies this`pc, this`sent
      ensures Valid()
      ensures View() == old(View()).(pc := P.LOOP_PRESENT, sent := P.ToAll(old(View()).sent, Election(draw)))
    {
      hide P.ToAll, ConsensusStorage.View, ConsensusStorage.Entry, ConsensusStorage.Elsewhere;
      PublishAll(Election(draw));
      pc := P.LOOP_PRESENT;
    }

    method SendElectionValue(draw: nat)
      requires Valid() && (pc == P.SEND_ELECTION || pc == P.REDRAW)
      modifies this, storage
      ensures Valid() && View() == P.SendElection(self, old(View()), draw)
      ensures blockIndex == old(blockIndex)
      ensures storage.Elsewhere(slot) == old(storage.Elsewhere(slot))
    {
      hide P.ToAll, View, ConsensusStorage.View, ConsensusStorage.Entry, ConsensusStorage.Elsewhere;
      DrawValue(draw);
      PublishValue(draw);
    }

    method ReadPresent()
      requires Valid() && pc == P.LOOP_PRESENT
      modifies this
      ensures Valid() && View() == P.ReadPresent(old(View()))
      ensures blockIndex == old(blockIndex)
    {
      hide AllPresent, ConsensusStorage.View, ConsensusStorage.Entry, ConsensusStorage.Elsewhere;
      var present := storage.AreAllElectionValuesPresent(slot);
      pc := if present then P.LOOP_UNIQUE else P.LOCK;
    }

    method ReadUnique()
      requires Valid() && pc == P.LOOP_UNIQUE
      modifies this
      ensures Valid() && View() == P.ReadUnique(self, old(View()))
      ensures blockIndex == old(blockIndex)
    {
      hide IsUnique, ConsensusStorage.View, ConsensusStorage.Entry, ConsensusStorage.Elsewhere;
      var unique := storage.IsElectionValueUnique(self, slot);
      pc := if unique then P.NOMINATE else P.LOCK;
      lockHeld := lockHeld && !unique;
    }

    method TakeLock()
      requires Valid() && pc == P.LOCK
      modifies this
      ensures Valid() && View() == P.TakeLock(old(View()))
      ensures blockIndex == old(blockIndex)
    {
      if lockHeld {
        status := P.Crashed(P.Relock);
      } else {
        lockHeld := true;
        pc := P.WAIT_PRESENT;
      }
    }

    method PassValues() returns (passed: bool)
      requires Valid() && pc == P.WAIT_PRESENT
      modifies this
      ensures Valid() && (passed <==> AllPresent(storage.View(slot)))
      ensures View() == if passed then P.PassValues(old(View())) else old(View())
      ensures blockIndex == old(blockIndex)
    {
      passed := storage.AreAllElectionValuesPresent(slot);
      if passed {
        pc := P.CHECK_UNIQUE;
      }
    }

    method Recheck()
      requires Valid() && pc == P.CHECK_UNIQUE
      modifies this
      ensures Valid() && View() == P.Recheck(self, old(View()))
      ensures blockIndex == old(blockIndex)
    {
      hide IsUnique, ConsensusStorage.View, ConsensusStorage.Entry, ConsensusStorage.Elsewhere;
      var unique := storage.IsElectionValueUnique(self, slot);
      pc := if unique then P.LOOP_PRESENT else P.RESET;
    }

    method ResetValues()
      requires Valid() && pc == P.RESET
      modifies this, storage
      ensures Valid() && View() == P.ResetValues(old(View()))
      ensures blockIndex == old(blockIndex)
      ensures storage.Elsewhere(slot) == old(storage.Elsewhere(slot))
    {
      hide ResetAll, ConsensusStorage.View, ConsensusStorage.Entry, ConsensusStorage.Elsewhere;
      storage.RemoveElectionValueDuplicates(slot);
      pc := P.UNLOCK;
    }

    method ReleaseLock()
      requires Valid() && pc == P.UNLOCK && slot in storage.conditions
      modifies this, storage
      ensures Valid() && View() == P.ReleaseLock(old(View()))
      ensures blockIndex == old(blockIndex)
      ensures slot in storage.conditions && !storage.conditions[slot]
      ensures storage.Elsewhere(slot) == old(storage.Elsewhere(slot))
    {
      hide ConsensusStorage.View, ConsensusStorage.Entry, ConsensusStorage.Elsewhere;
      var ok := storage.SetSynchronized(slot, false);
      lockHeld := false;
      pc := P.REDRAW;
    }

    /** For every iteration order the node marked is a nominee of the values held. */
    method NominateValidator() returns (nominee: Address)
      requires Valid() && pc == P.NOMINATE
      modifies this, storage
      ensures Valid() && IsNominee(Values(old(storage.View(slot))), nominee)
      ensures View() == P.NominateValidator(old(View()), nominee)
      ensures blockIndex == old(blockIndex)
      ensures storage.Elsewhere(slot) == old(storage.Elsewhere(slot))
    {
      hide IsNominee, Values, ConsensusStorage.View, ConsensusStorage.Entry, ConsensusStorage.Elsewhere;
      nominee := storage.MarkValidator(slot);
      pc := P.TRANSFER;
    }

    // ----- data -----

    /** Stores the own block, uploads it to the validator, and is done with it. */
    method UploadBlock()
      requires Valid() && validator in sent
      modifies this`sent, storage
      ensures Valid() && sent == old(sent)[validator := old(sent)[validator] + [Upload(block)]]
      ensures storage.conditions == old(storage.conditions)
      ensures storage.View(slot) == old(storage.View(slot))[self :=
                old(storage.View(slot)[self]).(block := block, isResolved := true)]
      ensures storage.Elsewhere(slot) == old(storage.Elsewhere(slot))
    {
      hide ConsensusStorage.View, ConsensusStorage.Entry, ConsensusStorage.Elsewhere;
      storage.AddBlock(self, slot, block);
      sent := sent[validator := sent[validator] + [Upload(block)]];
      storage.MarkAsResolved(self, slot);
    }

    method ReadValidator()
      requires Valid() && HasValidator(storage.View(slot))
      modifies this`validator, this`isValidator
      ensures Valid() && validator in nodes && old(storage.View(slot))[validator].isValidator
      ensures isValidator <==> validator == self
      ensures View() == old(View()).(validator := validator, isValidator := isValidator)
    {
      hide ConsensusStorage.View, ConsensusStorage.Entry, ConsensusStorage.Elsewhere;
      var marked := storage.GetValidator(slot);
      validator := marked.value;
      isValidator := validator == self;
    }

    /** Only a contributor that is not the validator uploads. */
    method Relay()
      requires Valid() && validator in nodes && (isValidator <==> validator == self)
      modifies this`pc, this`sent, storage
      ensures Valid() && View() == P.TransferData(self, old(View()), validator)
      ensures storage.Elsewhere(slot) == old(storage.Elsewhere(slot))
    {
      hide ConsensusStorage.View, ConsensusStorage.Entry, ConsensusStorage.Elsewhere, P.TransferData;
      ghost var before := View();
      if !isValidator && contributing {
        UploadBlock();
      }
      pc := P.WAIT_DATA;
      TransferIs(self, before, View());
    }

    method TransferData()
      requires Valid() && pc == P.TRANSFER && HasValidator(storage.View(slot))
      modifies this, storage
      ensures Valid() && validator in old(storage.View(slot)) && old(storage.View(slot))[validator].isValidator
      ensures View() == P.TransferData(self, old(View()), validator)
      ensures blockIndex == old(blockIndex)
      ensures storage.Elsewhere(slot) == old(storage.Elsewhere(slot))
    {
      hide HasValidator, View, ConsensusStorage.View, ConsensusStorage.Entry, ConsensusStorage.Elsewhere;
      ReadValidator();
      Relay();
    }

    /** The validator's part of the wait: merge into the block of the node marked, and be resolved. */
    method MergeData() returns (merger: Address)
      requires Valid() && slot in storage.conditions && HasValidator(storage.View(slot))
      requires AllConfirmed(storage.View(slot))
      modifies this`broadcastBlock, storage
      ensures Valid() && merger in old(storage.View(slot)) && old(storage.View(slot))[merger].isValidator
      ensures IsMerge(old(storage.View(slot)), merger, broadcastBlock)
      ensures storage.conditions == old(storage.conditions)[slot := false]
      ensures storage.View(slot) == Kept(old(storage.View(slot)), merger, self, broadcastBlock)
      ensures storage.Elsewhere(slot) == old(storage.Elsewhere(slot))
    {
      hide IsMerge, AllConfirmed, HasValidator, ConsensusStorage.View, ConsensusStorage.Entry,
        ConsensusStorage.Elsewhere;
      var merged: Option<Block>;
      merged, merger := storage.MergeContributors(slot);
      broadcastBlock := merged.value;
      storage.MarkAsResolved(self, slot);
      var ok := storage.SetSynchronized(slot, false);
    }

    method KeepMerged() returns (merger: Address)
      requires Valid() && slot in storage.conditions && HasValidator(storage.View(slot))
      requires AllConfirmed(storage.View(slot))
      modifies this`broadcastBlock, this`pc, storage
      ensures Valid() && merger in old(View()).store && old(View()).store[merger].isValidator
      ensures IsMerge(old(View()).store, merger, broadcastBlock)
      ensures View() == Merged(self, old(View()), merger, broadcastBlock)
      ensures slot in storage.conditions && !storage.conditions[slot]
      ensures storage.Elsewhere(slot) == old(storage.Elsewhere(slot))
    {
      hide IsMerge, AllConfirmed, HasValidator, Kept, ConsensusStorage.View, ConsensusStorage.Entry,
        ConsensusStorage.Elsewhere;
      merger := MergeData();
      pc := P.BROADCAST;
    }

    /**
      For the validator a gate, which is tried once; the others pass. `merger` is the node
      whose block took the data, which is the validator if nobody else is marked.
     */
    method CollectData() returns (passed: bool, merger: Address)
      requires Valid() && pc == P.WAIT_DATA && slot in storage.conditions && validator in nodes
      requires isValidator ==> validator == self && HasValidator(storage.View(slot))
      modifies this, storage
      ensures Valid() && validator in old(View()).store && merger in old(View()).store
      ensures passed <==> !isValidator || (AllConfirmed(old(View()).store) && Collected(old(View()).store))
      ensures !passed ==> View() == old(View()) || View() == P.CollectData(self, old(View()), broadcastBlock)
      ensures !passed && AllConfirmed(old(View()).store) ==> View() == old(View())
      ensures passed && !isValidator ==> View() == P.CollectData(self, old(View()), broadcastBlock)
      ensures passed && isValidator ==>
                && old(View()).store[merger].isValidator && IsMerge(old(View()).store, merger, broadcastBlock)
                && View() == Merged(self, old(View()), merger, broadcastBlock)
      ensures blockIndex == old(blockIndex)
      ensures passed && isValidator ==> slot in storage.conditions && !storage.conditions[slot]
      ensures storage.Elsewhere(slot) == old(storage.Elsewhere(slot))
    {
      hide IsMerge, Collected, AllConfirmed, HasValidator, View, Merged, ConsensusStorage.View, ConsensusStorage.Entry,
        ConsensusStorage.Elsewhere;
      ViewAt();
      passed, merger := true, self;
      if isValidator {
        var collected := storage.IsAllContributorsDataCollected(slot);
        passed := collected == Some(true);
        if passed {
          merger := KeepMerged();
        } else if collected == None {
          Fail(P.EmptyOptional);
        }
      } else {
        Advance(P.BROADCAST);
      }
    }

    // ----- broadcast -----

    method BroadcastMerged()
      requires Valid() && pc == P.BROADCAST
      modifies this
      ensures Valid() && View() == P.BroadcastBlock(old(View()))
      ensures blockIndex == old(blockIndex)
    {
      hide P.ToAll, ConsensusStorage.View, ConsensusStorage.Entry, ConsensusStorage.Elsewhere;
      if isValidator {
        PublishAll(Broadcast(broadcastBlock));
      }
      pc := P.CHECK_BROADCAST;
    }

    method CheckBroadcast()
      requires Valid() && pc == P.CHECK_BROADCAST && slot in storage.conditions && validator in nodes
      modifies this, storage
      ensures Valid() && View() == P.CheckBroadcast(old(View()))
      ensures blockIndex == old(blockIndex)
      ensures !isValidator && pc == P.SAVE_COMPLETE ==> slot in storage.conditions && !storage.conditions[slot]
      ensures storage.Elsewhere(slot) == old(storage.Elsewhere(slot))
    {
      pc := P.WAIT_BROADCAST;
      if isValidator {
        pc := P.SAVE_COMPLETE;
      } else {
        var resolved := storage.IsResolved(validator, slot);
        if resolved {
          broadcastBlock := storage.GetBlock(validator, slot);
          var ok := storage.SetSynchronized(slot, false);
          pc := P.SAVE_COMPLETE;
        }
      }
    }

    method WaitBroadcast() returns (passed: bool)
      requires Valid() && pc == P.WAIT_BROADCAST && slot in storage.conditions && validator in nodes
      modifies this, storage
      ensures Valid()
      ensures validator in old(View()).store
      ensures passed <==> old(View()).synchronized && old(View()).store[validator].isResolved
      ensures View() == if passed then P.AdoptBroadcast(old(View())) else old(View())
      ensures blockIndex == old(blockIndex)
      ensures passed ==> slot in storage.conditions && !storage.conditions[slot]
      ensures storage.Elsewhere(slot) == old(storage.Elsewhere(slot))
    {
      var resolved := storage.IsResolved(validator, slot);
      passed := storage.conditions[slot] && resolved;
      if passed {
        broadcastBlock := storage.GetBlock(validator, slot);
        var ok := storage.SetSynchronized(slot, false);
        pc := P.SAVE_COMPLETE;
      }
    }

    method SaveCompleteBlock()
      requires Valid() && pc == P.SAVE_COMPLETE
      modifies this, storage, redis
      ensures Valid()
      ensures InRange(old(Chain()), blockIndex) ==>
                && View() == P.SaveCompleteBlock(old(View()))
                && Chain() == Overwritten(old(Chain()), blockIndex, broadcastBlock).value
      ensures !InRange(old(Chain()), blockIndex) ==>
                View() == old(View()).(status := P.Crashed(P.NoSuchEntry)) && Chain() == old(Chain())
      ensures InRange(old(Chain()), blockIndex) ==>
                slot !in storage.conditions && forall a :: storage.Entry(a, slot) == FRESH_CONTEXT
      ensures blockIndex == old(blockIndex)
      ensures storage.Elsewhere(slot) == old(storage.Elsewhere(slot))
      ensures redis.OtherLists(DEFAULT_BLOCKCHAIN) == old(redis.OtherLists(DEFAULT_BLOCKCHAIN))
    {
      var ok := redis.Update(broadcastBlock, blockIndex, DEFAULT_BLOCKCHAIN);
      if ok {
        storage.ClearSlot(slot);
        pc := P.PUBLISH;
      } else {
        status := P.Crashed(P.NoSuchEntry);
      }
    }

    method PublishBlock()
      requires Valid() && pc == P.PUBLISH
      modifies this`pc
      ensures Valid() && View() == P.PublishBlock(old(View()))
    {
      hide ConsensusStorage.View, ConsensusStorage.Entry, ConsensusStorage.Elsewhere;
      pc := P.FINISHED;
    }

    // ----- the handlers in their order -----

    /** Buffer, chain and index of the node; slots done and messages pushed are not counted here. */
    ghost function SiteView(): W.Site
      reads this, redis, buffer
    {
      W.Site(0, buffer.Value(), Chain(), blockIndex, multiset{})
    }

    method RunSave(now: nat)
      requires Valid() && Ready(nodes, self, View()) && status == P.Running && pc == P.SAVE_PENDING
      requires NoneEmpty(buffer.Value().blocks)
      modifies this, storage, redis, buffer
      ensures Valid() && IsStep(self, old(View()), View())
      ensures SiteView() == W.SiteAfter(old(SiteView()), old(View()), View(), now)
      ensures storage.Elsewhere(slot) == old(storage.Elsewhere(slot))
      ensures redis.OtherLists(DEFAULT_BLOCKCHAIN) == old(redis.OtherLists(DEFAULT_BLOCKCHAIN))
    {
      ghost var n, site := View(), SiteView();
      ViewAt();
      FrontIsInput(buffer.Value(), now);
      ghost var c := P.Choice(Front(Saved(buffer.Value(), now)), NewBlock([], now), 0, self, EMPTY_BLOCK);
      SaveIsStep(self, n, c);
      hide IsStep, Ready, Saved, Front, Popped, Appended, NewBlock, P.SavePendingBlock, ConsensusStorage.View,
        ConsensusStorage.Entry, ConsensusStorage.Elsewhere, RedisDB.List, RedisDB.OtherLists;
      SavePendingBlock(now);
      SiteSaved(site, n, View(), now);
    }

    method RunRemove(now: nat)
      requires Valid() && Ready(nodes, self, View()) && status == P.Running && pc == P.TRY_REMOVE
      requires InRange(Chain(), blockIndex)
      modifies this`pc, this`status, redis
      ensures Valid() && IsStep(self, old(View()), View())
      ensures SiteView() == W.SiteAfter(old(SiteView()), old(View()), View(), now).(current := 0)
      ensures redis.OtherLists(DEFAULT_BLOCKCHAIN) == old(redis.OtherLists(DEFAULT_BLOCKCHAIN))
    {
      hide Ready, IsStep, IsBlocked, Removed, At, InRange, P.TryRemove, P.Initialise, P.NotifyContribution,
        P.PassInspection, W.SiteAfter, AllConfirmed, AnyContributing, ConsensusStorage.View, ConsensusStorage.Entry,
        ConsensusStorage.Elsewhere, RedisDB.List, RedisDB.OtherLists;
      ghost var n, site := View(), SiteView();
      ViewAt();
      ReadyToRemove(nodes, self, n);
      InspectionIsStep(self, n);
      TryRemove();
      SiteRemoved(site, n, View(), now);
    }

    /** The other handlers leave the buffer and the chain alone. */
    method RunQuiet(draw: nat) returns (ran: bool)
      requires Valid() && Ready(nodes, self, View()) && status == P.Running && pc <= P.SEND_ELECTION
      requires pc != P.SAVE_PENDING && pc != P.TRY_REMOVE && MIN_DRAW <= draw <= MAX_DRAW
      modifies this, storage
      ensures Valid() && Stepped(self, ran, old(View()), View()) && blockIndex == old(blockIndex)
      ensures storage.Elsewhere(slot) == old(storage.Elsewhere(slot))
    {
      ghost var n := View();
      ViewAt();
      InspectionIsStep(self, n);
      assert pc == P.WAIT_INSPECTION ==> slot in storage.conditions;
      hide View, Ready, IsStep, IsBlocked, AllConfirmed, P.Initialise, P.NotifyContribution, P.PassInspection,
        P.SendElection, ConsensusStorage.View, ConsensusStorage.Entry, ConsensusStorage.Elsewhere;
      ran := true;
      if pc == P.INIT {
        Initialise();
      } else if pc == P.NOTIFY {
        NotifyContribution();
      } else if pc == P.WAIT_INSPECTION {
        ran := PassInspection();
      } else {
        DrawIsStep(self, n, draw);
        SendElectionValue(draw);
      }
    }

    method RunElection(draw: nat) returns (ran: bool)
      requires Valid() && Ready(nodes, self, View()) && status == P.Running && P.LOOP_PRESENT <= pc <= P.REDRAW
      requires MIN_DRAW <= draw <= MAX_DRAW
      modifies this, storage
      ensures Valid() && Stepped(self, ran, old(View()), View()) && blockIndex == old(blockIndex)
      ensures storage.Elsewhere(slot) == old(storage.Elsewhere(slot))
    {
      ghost var n := View();
      ViewAt();
      LoopIsStep(self, n);
      ResetIsStep(self, n);
      assert pc == P.UNLOCK ==> slot in storage.conditions;
      hide View, Ready, IsStep, IsBlocked, AllPresent, P.ReadPresent, P.ReadUnique, P.TakeLock, P.PassValues,
        P.Recheck, P.ResetValues, P.ReleaseLock, ConsensusStorage.View, ConsensusStorage.Entry,
        ConsensusStorage.Elsewhere;
      ran := true;
      if pc == P.LOOP_PRESENT {
        ReadPresent();
      } else if pc == P.LOOP_UNIQUE {
        ReadUnique();
      } else if pc == P.LOCK {
        TakeLock();
      } else if pc == P.WAIT_PRESENT {
        ran := PassValues();
      } else if pc == P.CHECK_UNIQUE {
        Recheck();
      } else if pc == P.RESET {
        ResetValues();
      } else if pc == P.UNLOCK {
        ReleaseLock();
      } else {
        DrawIsStep(self, n, draw);
        SendElectionValue(draw);
      }
    }

    method RunTransfer()
      requires Valid() && Ready(nodes, self, View()) && status == P.Running && pc == P.TRANSFER
      modifies this, storage
      ensures Valid() && IsStep(self, old(View()), View()) && blockIndex == old(blockIndex)
      ensures storage.Elsewhere(slot) == old(storage.Elsewhere(slot))
    {
      ghost var n := View();
      ViewAt();
      hide View, IsStep, HasValidator, P.TransferData, ConsensusStorage.View, ConsensusStorage.Entry,
        ConsensusStorage.Elsewhere;
      TransferData();
      TransferIsStep(self, n, validator);
    }

    method RunCollect() returns (ran: bool)
      requires Valid() && Ready(nodes, self, View()) && status == P.Running && pc == P.WAIT_DATA
      modifies this, storage
      ensures Valid() && Stepped(self, ran, old(View()), View()) && blockIndex == old(blockIndex)
      ensures storage.Elsewhere(slot) == old(storage.Elsewhere(slot))
    {
      ghost var n := View();
      ViewAt();
      hide View, IsStep, IsBlocked, HasValidator, IsMerge, AllConfirmed, Collected, Merged, P.CollectData,
        ConsensusStorage.View, ConsensusStorage.Entry, ConsensusStorage.Elsewhere;
      var merger: Address;
      ran, merger := CollectData();
      if n.isValidator && ran {
        assert merger == self;
        MergedIs(self, n, broadcastBlock);
      }
      CollectIsStep(self, n, broadcastBlock);
    }

    method RunNominate()
      requires Valid() && Ready(nodes, self, View()) && status == P.Running && pc == P.NOMINATE
      modifies this, storage
      ensures Valid() && IsStep(self, old(View()), View()) && blockIndex == old(blockIndex)
      ensures storage.Elsewhere(slot) == old(storage.Elsewhere(slot))
    {
      ghost var n := View();
      ViewAt();
      hide View, IsStep, IsNominee, Values, P.NominateValidator, ConsensusStorage.View, ConsensusStorage.Entry,
        ConsensusStorage.Elsewhere;
      var nominee := NominateValidator();
      NominateIsStep(self, n, nominee);
    }

    method RunBroadcast() returns (ran: bool)
      requires Valid() && Ready(nodes, self, View()) && status == P.Running && P.BROADCAST <= pc <= P.WAIT_BROADCAST
      modifies this, storage
      ensures Valid() && Stepped(self, ran, old(View()), View()) && blockIndex == old(blockIndex)
      ensures storage.Elsewhere(slot) == old(storage.Elsewhere(slot))
    {
      ghost var n := View();
      ViewAt();
      BroadcastIsStep(self, n);
      hide View, IsStep, IsBlocked, P.BroadcastBlock, P.CheckBroadcast, P.AdoptBroadcast, ConsensusStorage.View,
        ConsensusStorage.Entry, ConsensusStorage.Elsewhere;
      ran := true;
      if pc == P.BROADCAST {
        BroadcastMerged();
      } else if pc == P.CHECK_BROADCAST {
        CheckBroadcast();
      } else {
        ran := WaitBroadcast();
      }
    }

    method RunComplete(now: nat)
      requires Valid() && Ready(nodes, self, View()) && status == P.Running && pc == P.SAVE_COMPLETE
      requires InRange(Chain(), blockIndex)
      modifies this, storage, redis
      ensures Valid() && IsStep(self, old(View()), View())
      ensures SiteView() == W.SiteAfter(old(SiteView()), old(View()), View(), now)
      ensures slot !in storage.conditions && forall a :: storage.Entry(a, slot) == FRESH_CONTEXT
      ensures storage.Elsewhere(slot) == old(storage.Elsewhere(slot))
      ensures redis.OtherLists(DEFAULT_BLOCKCHAIN) == old(redis.OtherLists(DEFAULT_BLOCKCHAIN))
    {
      ghost var n, site := View(), SiteView();
      ViewAt();
      BroadcastIsStep(self, n);
      hide IsStep, IsBlocked, P.SaveCompleteBlock, ConsensusStorage.View, ConsensusStorage.Entry,
        ConsensusStorage.Elsewhere, RedisDB.List, RedisDB.OtherLists;
      SaveCompleteBlock();
    }

    /**
      The next handler, whichever it is. In a state that occurs in a run, with the remembered
      entry in the chain, its effect on the node is that of an enabled step of the transition
      system and on buffer and chain that of the step of the world; or it waits, changes
      nothing, and no step is enabled.
     */
    method RunNext(now: nat, draw: nat) returns (ran: bool)
      requires Valid() && Local(nodes, self, View()) && status == P.Running && pc < P.FINISHED
      requires MIN_DRAW <= draw <= MAX_DRAW && NoneEmpty(buffer.Value().blocks)
      requires pc == P.TRY_REMOVE || pc == P.SAVE_COMPLETE ==> InRange(Chain(), blockIndex)
      modifies this, storage, redis, buffer
      ensures Valid() && Stepped(self, ran, old(View()), View())
      ensures ran ==> SiteView() == W.SiteAfter(old(SiteView()), old(View()), View(), now).(current := 0)
      ensures !ran ==> SiteView() == old(SiteView())
      ensures old(pc) == P.SAVE_COMPLETE ==>
                slot !in storage.conditions && forall a :: storage.Entry(a, slot) == FRESH_CONTEXT
      ensures forall a, t | t != slot :: storage.Entry(a, t) == old(storage.Entry(a, t))
      ensures storage.conditions - {slot} == old(storage.conditions) - {slot}
      ensures forall key | key != DEFAULT_BLOCKCHAIN :: redis.List(key) == old(redis.List(key))
    {
      ghost var n, site := View(), SiteView();
      LocalReady(nodes, self, n);
      ViewAt();
      hide Local, Ready, View, IsStep, IsBlocked, W.SiteAfter, InRange, NoneEmpty, ConsensusStorage.View,
        ConsensusStorage.Entry, ConsensusStorage.Elsewhere, RedisDB.List, RedisDB.OtherLists;
      ran := true;
      if pc == P.SAVE_PENDING {
        RunSave(now);
      } else if pc == P.TRY_REMOVE {
        RunRemove(now);
      } else if pc == P.SAVE_COMPLETE {
        RunComplete(now);
      } else {
        ran := RunOther(draw);
        SiteQuiet(site, n, View(), now);
      }
      OnlyHere();
    }

    method RunOther(draw: nat) returns (ran: bool)
      requires Valid() && Ready(nodes, self, View()) && status == P.Running && pc < P.FINISHED
      requires pc != P.SAVE_PENDING && pc != P.TRY_REMOVE && pc != P.SAVE_COMPLETE && MIN_DRAW <= draw <= MAX_DRAW
      modifies this, storage
      ensures Valid() && Stepped(self, ran, old(View()), View()) && blockIndex == old(blockIndex)
      ensures storage.Elsewhere(slot) == old(storage.Elsewhere(slot))
    {
      ghost var n := View();
      ViewAt();
      if pc > P.TRANSFER {
        BroadcastIsStep(self, n);
      }
      hide Ready, View, IsStep, IsBlocked, ConsensusStorage.View, ConsensusStorage.Entry, ConsensusStorage.Elsewhere;
      ran := true;
      if pc <= P.SEND_ELECTION {
        ran := RunQuiet(draw);
      } else if pc <= P.REDRAW {
        ran := RunElection(draw);
      } else if pc == P.NOMINATE {
        RunNominate();
      } else if pc == P.TRANSFER {
        RunTransfer();
      } else if pc == P.WAIT_DATA {
        ran := RunCollect();
      } else if pc <= P.WAIT_BROADCAST {
        ran := RunBroadcast();
      } else {
        PublishBlock();
      }
    }

    // ----- the consume callback -----

    method Signal()
      modifies this`status, storage`conditions
      ensures if slot in old(storage.conditions) then
                storage.conditions == old(storage.conditions)[slot := true] && status == old(status)
              else storage.conditions == old(storage.conditions) && status == P.Crashed(P.NullCondition)
      ensures storage.Elsewhere(slot) == old(storage.Elsewhere(slot))
    {
      var ok := storage.SetSynchronized(slot, true);
      if !ok {
        status := P.Crashed(P.NullCondition);
      }
    }

    /** Writes what a packet says into the entry of its sender. */
    method Record(from: Address, p: Packet)
      requires Valid() && from in nodes
      modifies storage
      ensures Valid()
      ensures storage.View(slot) == old(storage.View(slot))[from := P.Recorded(old(storage.View(slot)[from]), p)]
      ensures storage.conditions ==
              if p.Inspection? && slot !in old(storage.conditions) then old(storage.conditions)[slot := false]
              else old(storage.conditions)
      ensures storage.Elsewhere(slot) == old(storage.Elsewhere(slot))
    {
      hide ConsensusStorage.View, ConsensusStorage.Entry, ConsensusStorage.Elsewhere;
      match p
      case Inspection(isContributing) =>
        storage.InitConditions(slot);
        storage.SetContribution(from, slot, isContributing);
      case Election(value) =>
        storage.FillElectionValue(from, slot, value);
      case Upload(data) =>
        storage.AddBlock(from, slot, data);
      case Broadcast(data) =>
        storage.AddBlock(from, slot, data);
        storage.MarkAsResolved(from, slot);
    }

    method AskWakes(p: Packet) returns (wakes: Option<bool>)
      ensures p.Upload? && !AllConfirmed(storage.View(slot)) ==> wakes != Some(true)
      ensures !p.Upload? || AllConfirmed(storage.View(slot)) ==> wakes == Some(P.Wakes(storage.View(slot), p))
    {
      hide AllConfirmed, AllPresent, Collected, ConsensusStorage.View, ConsensusStorage.Entry,
        ConsensusStorage.Elsewhere;
      match p
      case Inspection(_) =>
        var all := storage.AreAllContributorsConfirmed(slot);
        wakes := Some(all);
      case Election(_) =>
        var all := storage.AreAllElectionValuesPresent(slot);
        wakes := Some(all);
      case Upload(_) => wakes := storage.IsAllContributorsDataCollected(slot);
      case Broadcast(_) => wakes := Some(true);
    }

    /** Nothing the callback asks about is unknown. */
    ghost predicate Answerable(p: Packet)
      reads storage
    {
      p.Upload? ==> AllConfirmed(storage.View(slot))
    }

    /** Wakes the handler if the packet lets it pass. */
    method Wake(p: Packet)
      modifies this`status, storage`conditions
      ensures var wakes := P.Wakes(storage.View(slot), p); var exists' := slot in old(storage.conditions);
        && storage.conditions ==
           (if wakes && exists' then old(storage.conditions)[slot := true] else old(storage.conditions))
        && (Answerable(p) ==> status == if wakes && !exists' then P.Crashed(P.NullCondition) else old(status))
      ensures !Answerable(p) ==> status == old(status) || status == P.Crashed(P.EmptyOptional)
      ensures storage.Elsewhere(slot) == old(storage.Elsewhere(slot))
    {
      hide AllConfirmed, ConsensusStorage.View, ConsensusStorage.Entry, ConsensusStorage.Elsewhere;
      var wakes := AskWakes(p);
      match wakes
      case None => status := P.Crashed(P.EmptyOptional);
      case Some(yes) =>
        if yes {
          Signal();
        }
    }

    method RecordAndWake(from: Address, p: Packet)
      requires Valid() && from in nodes
      modifies this`status, storage
      ensures Valid() && TurnsInto(old(View()), View(), from, p)
      ensures storage.Elsewhere(slot) == old(storage.Elsewhere(slot))
    {
      hide AllConfirmed, P.Recorded, P.Wakes, ConsensusStorage.View, ConsensusStorage.Entry, ConsensusStorage.Elsewhere;
      Record(from, p);
      Wake(p);
    }

    method Count(from: Address)
      requires Valid() && from in taken
      modifies this`taken
      ensures Valid() && from in old(View()).taken
      ensures View() == old(View()).(taken := old(View()).taken[from := old(View()).taken[from] + 1])
    {
      hide ConsensusStorage.View, ConsensusStorage.Entry, ConsensusStorage.Elsewhere;
      taken := taken[from := taken[from] + 1];
    }

    method Consume(from: Address, p: Packet)
      requires Valid() && from in nodes && from != self
      modifies this`taken, this`status, storage
      ensures Valid()
      ensures (p.Upload? ==> AllConfirmed(View().store)) ==> View() == P.Receive(old(View()), from, p)
      ensures || View() == P.Receive(old(View()), from, p)
              || View() == P.Receive(old(View()), from, p).(status := old(View()).status)
      ensures forall a, t | t != slot :: storage.Entry(a, t) == old(storage.Entry(a, t))
      ensures storage.conditions - {slot} == old(storage.conditions) - {slot}
    {
      hide AllConfirmed, P.Receive, TurnsInto, View, ConsensusStorage.View, ConsensusStorage.Entry,
        ConsensusStorage.Elsewhere;
      ghost var n := View();
      Count(from);
      ghost var k := View();
      RecordAndWake(from, p);
      ReceiveIs(n, k, View(), from, p);
      OnlyHere();
    }
  }

  lemma TransferIs(self: Address, n: P.Node, n': P.Node)
    requires self in n.store && (n'.validator == self || n'.validator in n.sent)
    requires n' == n.(pc := P.WAIT_DATA, validator := n'.validator, isValidator := n'.validator == self,
                      store := n'.store, sent := n'.sent)
    requires n'.isValidator || !n.contributing ==> n'.store == n.store && n'.sent == n.sent
    requires !n'.isValidator && n.contributing ==>
               && n'.store == n.store[self := n.store[self].(block := n.block, isResolved := true)]
               && n'.sent == n.sent[n'.validator := n.sent[n'.validator] + [Upload(n.block)]]
    ensures n' == P.TransferData(self, n, n'.validator)
  {
  }

  /** The effect is that of an enabled step, or there is none and no step is enabled. */
  ghost predicate Stepped(self: Address, ran: bool, n: P.Node, n': P.Node) {
    if ran then IsStep(self, n, n') else n' == n && IsBlocked(self, n)
  }

  lemma SiteSaved(site: W.Site, n: P.Node, n': P.Node, now: nat)
    requires n.pc == P.SAVE_PENDING
    ensures W.SiteAfter(site, n, n', now)
         == site.(buffer := Popped(Saved(site.buffer, now)), chain := Appended(site.chain, n'.block),
                  blockIndex := |site.chain|)
  {
  }

  lemma SiteRemoved(site: W.Site, n: P.Node, n': P.Node, now: nat)
    requires n.pc == P.TRY_REMOVE && InRange(site.chain, site.blockIndex) && n'.pc != P.FINISHED
    ensures W.SiteAfter(site, n, n', now)
         == if n'.status.Stopped? then
              site.(current := site.current + 1, chain := Removed(site.chain, At(site.chain, site.blockIndex).value))
            else site
  {
  }

  lemma SiteQuiet(site: W.Site, n: P.Node, n': P.Node, now: nat)
    requires n.pc != P.SAVE_PENDING && n.pc != P.TRY_REMOVE && n.pc != P.SAVE_COMPLETE && site.current == 0
    ensures W.SiteAfter(site, n, n', now).(current := 0) == site
  {
  }

  /** The storage after the block of `merger` has taken the data, and `self` is resolved. */
  function Kept(v: SlotView, merger: Address, self: Address, block: Block): SlotView
    requires merger in v && self in v
  {
    var w := v[merger := v[merger].(block := block)];
    w[self := w[self].(isResolved := true)]
  }

  function Merged(self: Address, n: P.Node, merger: Address, block: Block): P.Node
    requires merger in n.store && self in n.store
  {
    n.(pc := P.BROADCAST, broadcastBlock := block, store := Kept(n.store, merger, self, block), synchronized := false)
  }

  lemma MergedIs(self: Address, n: P.Node, block: Block)
    requires self in n.store && n.isValidator && n.validator == self && AllConfirmed(n.store)
    ensures Merged(self, n, self, block) == P.CollectData(self, n, block)
  {
  }

  /** What the callback does to a node apart from having taken the packet. */
  ghost predicate TurnsInto(n: P.Node, n': P.Node, from: Address, p: Packet) {
    && from in n.store
    && n' == n.(store := n'.store, condition := n'.condition, synchronized := n'.synchronized, status := n'.status)
    && n'.store == n.store[from := P.Recorded(n.store[from], p)]
    && n'.condition == (n.condition || p.Inspection?)
    && n'.synchronized == (n.synchronized || (P.Wakes(n'.store, p) && n'.condition))
    && if p.Upload? && !AllConfirmed(n'.store) then n'.status == n.status || n'.status == P.Crashed(P.EmptyOptional)
       else n'.status == if P.Wakes(n'.store, p) && !n'.condition then P.Crashed(P.NullCondition) else n.status
  }

  lemma ReceiveIs(n: P.Node, k: P.Node, n': P.Node, from: Address, p: Packet)
    requires from in n.taken && k == n.(taken := n.taken[from := n.taken[from] + 1])
    requires TurnsInto(k, n', from, p)
    ensures from in n.store
    ensures (p.Upload? ==> AllConfirmed(n'.store)) ==> n' == P.Receive(n, from, p)
    ensures n' == P.Receive(n, from, p) || n' == P.Receive(n, from, p).(status := n.status)
  {
    hide AllConfirmed, P.Wakes, P.Recorded;
    var r := P.Receive(n, from, p);
    assert r.store == n'.store && r.condition == n'.condition && r.synchronized == n'.synchronized;
    assert r == n'.(status := r.status);
  }
}
