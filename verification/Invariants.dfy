/**
  What holds in every reachable state of a slot, collisions included: facts about one
  node, and facts about one node and one of the peers it receives from.
 */
module Invariants {
  import opened Types
  import opened StorageSpec
  import opened Protocol

  /** The storage still holds this slot. */
  predicate Uncleared(n: Node) {
    n.pc <= SAVE_COMPLETE
  }

  function Last(s: seq<nat>): nat {
    if s == [] then 0 else s[|s| - 1]
  }

  predicate BetweenDraws(n: Node) {
    n.pc == UNLOCK || n.pc == REDRAW
  }

  /** The election round a node is in: a reset opens the next round before its draw. */
  function Round(n: Node): nat {
    if BetweenDraws(n) then |n.draws| + 1 else |n.draws|
  }

  /** How many election values of `m` have been received once `taken` packets have. */
  function ElectionsTaken(taken: nat, m: Node): nat {
    if taken == 0 then 0 else if taken - 1 <= |m.draws| then taken - 1 else |m.draws|
  }

  /** A node ends its packets to `p` with at most one block. */
  predicate HasTail(n: Node, p: Address) {
    if n.isValidator then n.pc > BROADCAST
    else n.pc > TRANSFER && n.contributing && n.validator == p
  }

  function TailBlock(n: Node): Block {
    if n.isValidator then n.broadcastBlock else n.block
  }

  function TailPacket(n: Node): Packet {
    if n.isValidator then Broadcast(n.broadcastBlock) else Upload(n.block)
  }

  // ----- facts about one node -----

  /** A merged block is completed and keeps the time and the slot of the block it was merged into. */
  predicate IsFrom(merged: Block, block: Block) {
    merged.state == COMPLETED && merged.timestamp == block.timestamp && merged.slot == block.slot
  }

  ghost predicate Shape(nodes: set<Address>, a: Address, n: Node) {
    && a in nodes && n.store.Keys == nodes
    && n.sent.Keys == n.taken.Keys == nodes - {a}
    && n.pc <= FINISHED
    && (n.pc <= SEND_ELECTION <==> n.draws == [])
    && (forall k | 0 <= k < |n.draws| :: MIN_DRAW <= n.draws[k] <= MAX_DRAW)
    && (n.pc > SAVE_PENDING ==>
          && n.block.state == PENDING
          && if n.contributing then |n.block.data| > 0 else n.block.data == [])
    && (n.pc <= TRANSFER ==> !n.isValidator)
    && (n.pc == WAIT_BROADCAST ==> !n.isValidator)
    && (n.pc > TRANSFER ==> n.validator in nodes && (n.isValidator <==> n.validator == a))
    && (n.isValidator && n.pc > WAIT_DATA ==> IsFrom(n.broadcastBlock, n.block))
  }

  /** What has been published is determined by how far the node is and what it drew. */
  ghost predicate SentTo(n: Node, p: Address)
    requires p in n.sent
  {
    var sent := n.sent[p];
    if n.pc <= NOTIFY then sent == []
    else
      && |sent| == 1 + |n.draws| + (if HasTail(n, p) then 1 else 0)
      && sent[0] == Inspection(n.contributing)
      && (forall k | 1 <= k <= |n.draws| :: sent[k] == Election(n.draws[k - 1]))
      && (HasTail(n, p) ==> sent[1 + |n.draws|] == TailPacket(n))
  }

  ghost predicate SentAll(n: Node) {
    forall p | p in n.sent :: SentTo(n, p)
  }

  /** What a node's storage says about the node itself. */
  ghost predicate OwnEntry(a: Address, n: Node)
    requires a in n.store
  {
    Uncleared(n) ==>
      && n.store[a].isContributing == (if n.pc > NOTIFY then Some(n.contributing) else None)
      && n.store[a].electionValue == (if BetweenDraws(n) then 0 else Last(n.draws))
      && (n.pc > SAVE_PENDING && !(n.isValidator && n.pc > WAIT_DATA) ==> n.store[a].block == n.block)
      && (n.isValidator && n.pc > WAIT_DATA ==> n.store[a].block == n.broadcastBlock)
      && (n.store[a].isResolved <==> if n.isValidator then n.pc > WAIT_DATA else n.pc > TRANSFER && n.contributing)
  }

  ghost predicate Flags(n: Node) {
    Uncleared(n) ==>
      && (n.pc <= NOMINATE ==> forall p | p in n.store :: !n.store[p].isValidator)
      && (n.pc > NOMINATE ==> exists p | p in n.store :: n.store[p].isValidator)
      && (forall p, q | p in n.store && q in n.store && n.store[p].isValidator && n.store[q].isValidator :: p == q)
      && (n.pc > TRANSFER ==> forall p | p in n.store && n.store[p].isValidator :: p == n.validator)
  }

  predicate HoldsValues(pc: nat, lockHeld: bool) {
    || pc == LOOP_UNIQUE || pc == CHECK_UNIQUE || pc == RESET || pc >= NOMINATE
    || (pc == LOOP_PRESENT && lockHeld)
  }

  ghost predicate Gates(n: Node) {
    && (n.status.Stopped? ==> n.pc == TRY_REMOVE && !AnyContributing(n.store))
    && ((n.pc == WAIT_PRESENT || n.pc == CHECK_UNIQUE || n.pc == RESET || n.pc == UNLOCK) ==> n.lockHeld)
    && (n.lockHeld ==> LOOP_PRESENT <= n.pc <= UNLOCK)
    && (Uncleared(n) ==>
          && (n.pc > INIT ==> n.condition)
          && (n.pc >= TRY_REMOVE ==> AllConfirmed(n.store))
          && (n.pc > TRY_REMOVE ==> AnyContributing(n.store))
          && (HoldsValues(n.pc, n.lockHeld) ==> AllPresent(n.store))
          && (n.pc == WAIT_BROADCAST && n.validator in n.store && n.store[n.validator].isResolved ==>
                n.synchronized))
  }

  ghost predicate Local(nodes: set<Address>, a: Address, n: Node) {
    Shape(nodes, a, n) && SentAll(n) && OwnEntry(a, n) && Flags(n) && Gates(n)
  }

  // ----- facts about a receiver `n` at `a` and a sender `m` at `b` -----

  ghost predicate Linked(a: Address, n: Node, b: Address, m: Node) {
    a in m.sent && b in n.taken && b in n.store && n.taken[b] <= |m.sent[a]|
  }

  /** The storage entry of `b` is what the received packets of `b` say. */
  ghost predicate Known(a: Address, n: Node, b: Address, m: Node)
    requires Linked(a, n, b, m)
  {
    var t := n.taken[b];
    Uncleared(n) ==>
      && (t >= 1 ==> n.condition)
      && n.store[b].isContributing == (if t >= 1 then Some(m.contributing) else None)
      && n.store[b].block == (if t >= 2 + |m.draws| then TailBlock(m) else EMPTY_BLOCK)
      && n.store[b].isResolved == (t >= 2 + |m.draws| && m.isValidator)
  }

  /** Election values are those of the receiver's round or a later one. */
  ghost predicate InRound(a: Address, n: Node, b: Address, m: Node)
    requires Linked(a, n, b, m)
  {
    var c := ElectionsTaken(n.taken[b], m);
    && c + 1 >= Round(n)
    && (Uncleared(n) && n.store[b].electionValue != 0 ==>
          1 <= c && Round(n) <= c && n.store[b].electionValue == m.draws[c - 1])
    && (Uncleared(n) && |n.draws| <= 1 && !BetweenDraws(n) && c >= 1 ==> n.store[b].electionValue != 0)
  }

  /** What a node has seen of its peers when it is past a gate. */
  ghost predicate Passed(a: Address, n: Node, b: Address, m: Node)
    requires Linked(a, n, b, m)
  {
    && (n.pc >= TRY_REMOVE ==> n.taken[b] >= 1)
    && (n.pc >= NOMINATE ==>
          && |n.draws| <= ElectionsTaken(n.taken[b], m)
          && (|m.draws| == |n.draws| ==> Last(m.draws) != Last(n.draws)))
  }

  ghost predicate Pair(a: Address, n: Node, b: Address, m: Node) {
    Linked(a, n, b, m) && Known(a, n, b, m) && InRound(a, n, b, m) && Passed(a, n, b, m)
  }

  /** Before its slot is cleared, a node never crashes on a missing contribution or condition. */
  predicate Unharmed(n: Node) {
    Uncleared(n) ==> n.status.Crashed? ==> n.status.reason == Relock
  }

  ghost predicate Inv(nodes: set<Address>, s: System) {
    && s.Keys == nodes
    && (forall a | a in nodes :: Local(nodes, a, s[a]) && Unharmed(s[a]))
    && (forall a, b | a in nodes && b in nodes && a != b :: Pair(a, s[a], b, s[b]))
  }

  lemma LocalAt(nodes: set<Address>, s: System, a: Address)
    requires Inv(nodes, s) && a in nodes
    ensures s.Keys == nodes && Local(nodes, a, s[a]) && Unharmed(s[a])
  {
  }

  lemma PairAt(nodes: set<Address>, s: System, a: Address, b: Address)
    requires Inv(nodes, s) && a in nodes && b in nodes && a != b
    ensures s.Keys == nodes && Pair(a, s[a], b, s[b])
  {
  }

  // ----- preservation of the facts about one node, handler by handler -----

  /** The gates on contributions only look at contributions. */
  lemma SameContributions(v: SlotView, w: SlotView)
    requires v.Keys == w.Keys
    requires forall a | a in v :: v[a].isContributing == w[a].isContributing
    ensures AllConfirmed(v) == AllConfirmed(w) && AnyContributing(v) == AnyContributing(w)
  {
    if AnyContributing(v) {
      var a :| a in v && v[a].isContributing == Some(true);
      assert w[a].isContributing == Some(true);
    }
    if AnyContributing(w) {
      var a :| a in w && w[a].isContributing == Some(true);
      assert v[a].isContributing == Some(true);
    }
  }

  /** A handler that publishes nothing and keeps what was published explained. */
  lemma NothingSent(n: Node, m: Node)
    requires SentAll(n)
    requires m.sent == n.sent && m.draws == n.draws && m.contributing == n.contributing
    requires n.pc <= NOTIFY <==> m.pc <= NOTIFY
    requires forall p | p in n.sent :: HasTail(n, p) == HasTail(m, p)
    requires n.pc > TRANSFER ==> TailPacket(n) == TailPacket(m)
    ensures SentAll(m)
  {
    assert forall p | p in n.sent :: SentTo(n, p) ==> SentTo(m, p);
  }

  lemma SavePendingLocal(nodes: set<Address>, a: Address, n: Node, c: Choice)
    requires Local(nodes, a, n) && n.pc == SAVE_PENDING && Enabled(a, n, c)
    ensures Local(nodes, a, SavePendingBlock(a, n, c))
  {
    var n' := SavePendingBlock(a, n, c);
    SameContributions(n.store, n'.store);
    assert forall p | p in n.sent :: SentTo(n, p) && SentTo(n', p);
  }

  lemma NotifyLocal(nodes: set<Address>, a: Address, n: Node, c: Choice)
    requires Local(nodes, a, n) && n.pc == NOTIFY && Enabled(a, n, c)
    ensures Local(nodes, a, NotifyContribution(a, n))
  {
    var n' := NotifyContribution(a, n);
    assert forall p | p in n.sent :: SentTo(n, p) && SentTo(n', p);
  }

  lemma SendElectionLocal(nodes: set<Address>, a: Address, n: Node, c: Choice)
    requires Local(nodes, a, n) && (n.pc == SEND_ELECTION || n.pc == REDRAW) && Enabled(a, n, c)
    ensures Local(nodes, a, SendElection(a, n, c.draw))
  {
    hide Shape, SentAll, OwnEntry, Flags, Gates;
    SendElectionSent(nodes, a, n, c);
    SendElectionStore(nodes, a, n, c);
  }

  lemma SendElectionSent(nodes: set<Address>, a: Address, n: Node, c: Choice)
    requires Local(nodes, a, n) && (n.pc == SEND_ELECTION || n.pc == REDRAW) && Enabled(a, n, c)
    ensures Shape(nodes, a, SendElection(a, n, c.draw)) && SentAll(SendElection(a, n, c.draw))
  {
    hide OwnEntry, Flags, Gates;
    var n' := SendElection(a, n, c.draw);
    assert forall p | p in n.sent :: SentTo(n, p) && SentTo(n', p);
  }

  lemma SendElectionStore(nodes: set<Address>, a: Address, n: Node, c: Choice)
    requires Local(nodes, a, n) && (n.pc == SEND_ELECTION || n.pc == REDRAW) && Enabled(a, n, c)
    ensures var n' := SendElection(a, n, c.draw);
      n'.store.Keys == nodes && OwnEntry(a, n') && Flags(n') && Gates(n')
  {
    hide SentAll, AllConfirmed, AnyContributing, ToAll;
    SameContributions(n.store, SendElection(a, n, c.draw).store);
  }

  lemma ResetLocal(nodes: set<Address>, a: Address, n: Node, c: Choice)
    requires Local(nodes, a, n) && n.pc == RESET && Enabled(a, n, c)
    ensures Local(nodes, a, ResetValues(n))
  {
    var n' := ResetValues(n);
    SameContributions(n.store, n'.store);
    NothingSent(n, n');
  }

  /** A move inside the loop that leaves the storage alone. */
  lemma LoopMoveLocal(nodes: set<Address>, a: Address, n: Node, m: Node)
    requires Local(nodes, a, n) && LOOP_PRESENT <= n.pc <= UNLOCK && LOOP_PRESENT <= m.pc <= NOMINATE
    requires m == n.(pc := m.pc, lockHeld := m.lockHeld, status := m.status, synchronized := m.synchronized)
    requires BetweenDraws(m) == BetweenDraws(n) && !m.status.Stopped?
    requires m.pc == WAIT_PRESENT || m.pc == CHECK_UNIQUE || m.pc == RESET || m.pc == UNLOCK ==> m.lockHeld
    requires m.lockHeld ==> m.pc <= UNLOCK
    requires HoldsValues(m.pc, m.lockHeld) ==> AllPresent(n.store)
    ensures Local(nodes, a, m)
  {
    NothingSent(n, m);
  }

  lemma LoopHeadLocal(nodes: set<Address>, a: Address, n: Node)
    requires Local(nodes, a, n)
    ensures n.pc == LOOP_PRESENT ==> Local(nodes, a, ReadPresent(n))
    ensures n.pc == LOOP_UNIQUE ==> Local(nodes, a, ReadUnique(a, n))
  {
    if n.pc == LOOP_PRESENT {
      LoopMoveLocal(nodes, a, n, ReadPresent(n));
    } else if n.pc == LOOP_UNIQUE {
      LoopMoveLocal(nodes, a, n, ReadUnique(a, n));
    }
  }

  lemma LoopBodyLocal(nodes: set<Address>, a: Address, n: Node)
    requires Local(nodes, a, n)
    ensures n.pc == LOCK ==> Local(nodes, a, TakeLock(n))
    ensures n.pc == WAIT_PRESENT && AllPresent(n.store) ==> Local(nodes, a, PassValues(n))
    ensures n.pc == CHECK_UNIQUE ==> Local(nodes, a, Recheck(a, n))
  {
    if n.pc == LOCK {
      LoopMoveLocal(nodes, a, n, TakeLock(n));
    } else if n.pc == WAIT_PRESENT && AllPresent(n.store) {
      LoopMoveLocal(nodes, a, n, PassValues(n));
    } else if n.pc == CHECK_UNIQUE {
      LoopMoveLocal(nodes, a, n, Recheck(a, n));
    }
  }

  lemma UnlockLocal(nodes: set<Address>, a: Address, n: Node)
    requires Local(nodes, a, n) && n.pc == UNLOCK
    ensures Local(nodes, a, ReleaseLock(n))
  {
    LoopMoveLocal(nodes, a, n, ReleaseLock(n));
  }

  lemma NominateLocal(nodes: set<Address>, a: Address, n: Node, c: Choice)
    requires Local(nodes, a, n) && n.pc == NOMINATE && Enabled(a, n, c)
    ensures Local(nodes, a, NominateValidator(n, c.nominee))
  {
    var n' := NominateValidator(n, c.nominee);
    SameContributions(n.store, n'.store);
    assert n'.store[c.nominee].isValidator;
    assert forall p | p in n.sent :: SentTo(n, p) && SentTo(n', p);
  }

  lemma TransferSent(nodes: set<Address>, a: Address, n: Node, validator: Address)
    requires Shape(nodes, a, n) && SentAll(n) && n.pc == TRANSFER
    requires validator == a || validator in n.sent
    ensures SentAll(TransferData(a, n, validator))
  {
    var n' := TransferData(a, n, validator);
    assert forall p | p in n.sent :: SentTo(n, p) ==> SentTo(n', p);
  }

  lemma TransferLocal(nodes: set<Address>, a: Address, n: Node, c: Choice)
    requires Local(nodes, a, n) && n.pc == TRANSFER && Enabled(a, n, c)
    ensures Local(nodes, a, TransferData(a, n, c.nominee))
  {
    var n' := TransferData(a, n, c.nominee);
    TransferSent(nodes, a, n, c.nominee);
    SameContributions(n.store, n'.store);
    assert n'.store[c.nominee].isValidator;
  }

  lemma CollectLocal(nodes: set<Address>, a: Address, n: Node, c: Choice)
    requires Local(nodes, a, n) && n.pc == WAIT_DATA && Enabled(a, n, c)
    ensures Local(nodes, a, CollectData(a, n, c.merged))
  {
    hide Shape, SentAll, OwnEntry, Flags, Gates;
    CollectSent(nodes, a, n, c);
    CollectStore(nodes, a, n, c);
  }

  lemma CollectSent(nodes: set<Address>, a: Address, n: Node, c: Choice)
    requires Local(nodes, a, n) && n.pc == WAIT_DATA && Enabled(a, n, c)
    ensures Shape(nodes, a, CollectData(a, n, c.merged)) && SentAll(CollectData(a, n, c.merged))
  {
    hide Flags;
    var n' := CollectData(a, n, c.merged);
    assert forall p | p in n.sent :: SentTo(n, p) && SentTo(n', p);
  }

  lemma CollectStore(nodes: set<Address>, a: Address, n: Node, c: Choice)
    requires Local(nodes, a, n) && n.pc == WAIT_DATA && Enabled(a, n, c)
    ensures var n' := CollectData(a, n, c.merged);
      n'.store.Keys == nodes && OwnEntry(a, n') && Flags(n') && Gates(n')
  {
    hide SentAll, AllConfirmed, AnyContributing, Collected, IsMerge;
    var n' := CollectData(a, n, c.merged);
    SameContributions(n.store, n'.store);
    var p :| p in n.store && n.store[p].isValidator;
    assert n'.store[p].isValidator;
  }

  lemma BroadcastLocal(nodes: set<Address>, a: Address, n: Node, c: Choice)
    requires Local(nodes, a, n) && n.pc == BROADCAST && Enabled(a, n, c)
    ensures Local(nodes, a, BroadcastBlock(n))
  {
    var n' := BroadcastBlock(n);
    assert forall p | p in n.sent :: SentTo(n, p) && SentTo(n', p);
  }

  lemma InspectLocal(nodes: set<Address>, a: Address, n: Node)
    requires Local(nodes, a, n)
    ensures n.pc == INIT ==> Local(nodes, a, Initialise(n))
    ensures n.pc == WAIT_INSPECTION && AllConfirmed(n.store) ==> Local(nodes, a, PassInspection(n))
    ensures n.pc == TRY_REMOVE && n.status.Running? ==> Local(nodes, a, TryRemove(n))
  {
    if n.pc == INIT {
      NothingSent(n, Initialise(n));
    } else if n.pc == WAIT_INSPECTION {
      NothingSent(n, PassInspection(n));
    } else if n.pc == TRY_REMOVE {
      NothingSent(n, TryRemove(n));
    }
  }

  lemma WaitBroadcastLocal(nodes: set<Address>, a: Address, n: Node)
    requires Local(nodes, a, n)
    ensures n.pc == CHECK_BROADCAST ==> n.validator in n.store && Local(nodes, a, CheckBroadcast(n))
    ensures n.pc == WAIT_BROADCAST ==> n.validator in n.store && Local(nodes, a, AdoptBroadcast(n))
  {
    if n.pc == CHECK_BROADCAST {
      NothingSent(n, CheckBroadcast(n));
    } else if n.pc == WAIT_BROADCAST {
      NothingSent(n, AdoptBroadcast(n));
    }
  }

  lemma FinishLocal(nodes: set<Address>, a: Address, n: Node)
    requires Local(nodes, a, n) && SAVE_COMPLETE <= n.pc < FINISHED
    ensures n.pc == SAVE_COMPLETE ==> Local(nodes, a, SaveCompleteBlock(n))
    ensures n.pc == PUBLISH ==> Local(nodes, a, PublishBlock(n))
  {
    NothingSent(n, PublishBlock(n));
    NothingSent(n, SaveCompleteBlock(n));
  }

  lemma HandleLocal(nodes: set<Address>, a: Address, n: Node, c: Choice)
    requires Local(nodes, a, n) && Enabled(a, n, c)
    ensures Local(nodes, a, RunHandler(a, n, c))
  {
    if n.pc == SAVE_PENDING {
      SavePendingLocal(nodes, a, n, c);
    } else if n.pc == NOTIFY {
      NotifyLocal(nodes, a, n, c);
    } else if n.pc == SEND_ELECTION || n.pc == REDRAW {
      SendElectionLocal(nodes, a, n, c);
    } else if n.pc == RESET {
      ResetLocal(nodes, a, n, c);
    } else if n.pc == LOOP_PRESENT || n.pc == LOOP_UNIQUE {
      LoopHeadLocal(nodes, a, n);
    } else if n.pc == LOCK || n.pc == WAIT_PRESENT || n.pc == CHECK_UNIQUE {
      LoopBodyLocal(nodes, a, n);
    } else if n.pc == UNLOCK {
      UnlockLocal(nodes, a, n);
    } else if n.pc == NOMINATE {
      NominateLocal(nodes, a, n, c);
    } else if n.pc == TRANSFER {
      TransferLocal(nodes, a, n, c);
    } else if n.pc == WAIT_DATA {
      CollectLocal(nodes, a, n, c);
    } else if n.pc == BROADCAST {
      BroadcastLocal(nodes, a, n, c);
    } else if n.pc == INIT || n.pc == WAIT_INSPECTION || n.pc == TRY_REMOVE {
      InspectLocal(nodes, a, n);
    } else if n.pc == CHECK_BROADCAST || n.pc == WAIT_BROADCAST {
      WaitBroadcastLocal(nodes, a, n);
    } else {
      FinishLocal(nodes, a, n);
    }
  }
}
