/** The facts about a receiver and a sender are kept by every step of either of them. */
module Links {
  import opened Types
  import opened StorageSpec
  import opened Protocol
  import opened Invariants

  /** The sender moves: what the receiver has taken from it keeps its meaning. */
  lemma SenderMoves(a: Address, n: Node, b: Address, m: Node, m': Node)
    requires Pair(a, n, b, m)
    requires a in m'.sent && n.taken[b] <= |m'.sent[a]|
    requires n.taken[b] >= 1 ==> m'.contributing == m.contributing
    requires m'.draws == m.draws || (n.taken[b] <= 1 + |m.draws| && |m'.draws| == |m.draws| + 1 && m.draws <= m'.draws)
    requires n.taken[b] >= 2 + |m.draws| ==> TailBlock(m') == TailBlock(m) && m'.isValidator == m.isValidator
    ensures Pair(a, n, b, m')
  {
  }

  /** A handler of the receiver that opens no round, passes no gate and keeps the entry of the sender. */
  lemma ReceiverMoves(a: Address, n: Node, n': Node, b: Address, m: Node)
    requires Pair(a, n, b, m)
    requires b in n'.taken && n'.taken[b] == n.taken[b] && b in n'.store && n'.draws == n.draws
    requires Uncleared(n') ==>
               && Uncleared(n) && (n.condition ==> n'.condition)
               && n'.store[b].isContributing == n.store[b].isContributing
               && n'.store[b].electionValue == n.store[b].electionValue
               && n'.store[b].block == n.store[b].block
               && n'.store[b].isResolved == n.store[b].isResolved
    requires BetweenDraws(n') == BetweenDraws(n)
    requires n'.pc >= TRY_REMOVE ==> n.pc >= TRY_REMOVE
    requires n'.pc >= NOMINATE ==> n.pc >= NOMINATE
    ensures Pair(a, n', b, m)
  {
  }

  // ----- a handler of the sender -----

  /** What every handler keeps of what its node has published and of what it knows of its peers. */
  ghost predicate Keeps(b: Address, m: Node, m': Node) {
    && m'.taken == m.taken
    && (m'.draws == m.draws ||
        ((m.pc == SEND_ELECTION || m.pc == REDRAW) && |m'.draws| == |m.draws| + 1 && m.draws <= m'.draws))
    && (m.pc > SAVE_PENDING ==>
          m'.pc > SAVE_PENDING && m'.contributing == m.contributing && m'.block == m.block)
    && (m.pc >= NOMINATE ==> m'.pc >= m.pc)
    && (m'.status == m.status || m'.status != Crashed(Relock) || m.pc == LOCK)
    && (m.pc < SEND_ELECTION ==> m'.pc <= SEND_ELECTION)
    && (m'.status.Stopped? ==> m.status.Stopped? || m.pc == TRY_REMOVE)
    && (m.pc == INIT ==> m'.pc == SAVE_PENDING)
    && (m.pc < SAVE_COMPLETE ==> m'.pc <= SAVE_COMPLETE)
    && (m.pc == SAVE_COMPLETE || m.pc == PUBLISH ==> m'.pc == m.pc + 1)
    && (m.pc == SEND_ELECTION ==> m'.pc == LOOP_PRESENT)
    && (m.pc < LOOP_PRESENT || m.pc >= NOMINATE ==> m'.pc > m.pc || !m'.status.Running?)
    && (m.pc < NOMINATE ==> m'.pc <= NOMINATE)
    && (m.pc == NOMINATE || m.pc == TRANSFER ==> m'.pc == m.pc + 1)
    && (m.pc < CHECK_BROADCAST ==> m'.pc <= CHECK_BROADCAST)
    && (m.pc > TRANSFER ==> m'.isValidator == m.isValidator && m'.validator == m.validator)
    && ((m.pc > WAIT_DATA && m.isValidator) || m.pc >= SAVE_COMPLETE ==>
          m'.broadcastBlock == m.broadcastBlock)
    && m'.sent.Keys == m.sent.Keys
    && (forall p | p in m.sent :: |m.sent[p]| <= |m'.sent[p]|)
    && m'.store.Keys == m.store.Keys
    && (Uncleared(m') ==> Uncleared(m) && (m.condition ==> m'.condition))
    && (Uncleared(m') ==> forall p | p in m.store && p != b ::
            && m'.store[p].isContributing == m.store[p].isContributing
            && (m.pc != RESET ==> m'.store[p].electionValue == m.store[p].electionValue)
            && m'.store[p].block == m.store[p].block
            && m'.store[p].isResolved == m.store[p].isResolved)
    && (Uncleared(m') && m.pc != NOMINATE ==>
          forall p | p in m.store :: m'.store[p].isValidator == m.store[p].isValidator)
    && (m.pc != RESET && m.pc != REDRAW ==> BetweenDraws(m') == BetweenDraws(m))
    && (m.pc != WAIT_INSPECTION && m'.pc >= TRY_REMOVE ==> m.pc >= TRY_REMOVE)
    && (m.pc != LOOP_UNIQUE && m'.pc >= NOMINATE ==> m.pc >= NOMINATE)
  }

  lemma InitialiseKeeps(nodes: set<Address>, b: Address, m: Node)
    requires Shape(nodes, b, m) && m.pc == INIT
    ensures Keeps(b, m, Initialise(m))
  {
  }

  lemma SavePendingKeeps(nodes: set<Address>, b: Address, m: Node, c: Choice)
    requires Shape(nodes, b, m) && m.pc == SAVE_PENDING
    ensures Keeps(b, m, SavePendingBlock(b, m, c))
  {
  }

  lemma NotifyKeeps(nodes: set<Address>, b: Address, m: Node)
    requires Shape(nodes, b, m) && m.pc == NOTIFY
    ensures Keeps(b, m, NotifyContribution(b, m))
  {
  }

  lemma InspectionKeeps(nodes: set<Address>, b: Address, m: Node)
    requires Shape(nodes, b, m) && m.pc == WAIT_INSPECTION
    ensures Keeps(b, m, PassInspection(m))
  {
  }

  lemma TryRemoveKeeps(nodes: set<Address>, b: Address, m: Node)
    requires Shape(nodes, b, m) && m.pc == TRY_REMOVE
    ensures Keeps(b, m, TryRemove(m))
  {
  }

  lemma SendElectionKeeps(nodes: set<Address>, b: Address, m: Node, c: Choice)
    requires Shape(nodes, b, m) && (m.pc == SEND_ELECTION || m.pc == REDRAW)
    ensures Keeps(b, m, SendElection(b, m, c.draw))
  {
  }

  lemma ReadPresentKeeps(nodes: set<Address>, b: Address, m: Node)
    requires Shape(nodes, b, m) && m.pc == LOOP_PRESENT
    ensures Keeps(b, m, ReadPresent(m))
  {
  }

  lemma ReadUniqueKeeps(nodes: set<Address>, b: Address, m: Node)
    requires Shape(nodes, b, m) && m.pc == LOOP_UNIQUE
    ensures Keeps(b, m, ReadUnique(b, m))
  {
  }

  lemma TakeLockKeeps(nodes: set<Address>, b: Address, m: Node)
    requires Shape(nodes, b, m) && m.pc == LOCK
    ensures Keeps(b, m, TakeLock(m))
  {
  }

  lemma PassValuesKeeps(nodes: set<Address>, b: Address, m: Node)
    requires Shape(nodes, b, m) && m.pc == WAIT_PRESENT
    ensures Keeps(b, m, PassValues(m))
  {
  }

  lemma RecheckKeeps(nodes: set<Address>, b: Address, m: Node)
    requires Shape(nodes, b, m) && m.pc == CHECK_UNIQUE
    ensures Keeps(b, m, Recheck(b, m))
  {
  }

  lemma ResetValuesKeeps(nodes: set<Address>, b: Address, m: Node)
    requires Shape(nodes, b, m) && m.pc == RESET
    ensures Keeps(b, m, ResetValues(m))
  {
  }

  lemma ReleaseLockKeeps(nodes: set<Address>, b: Address, m: Node)
    requires Shape(nodes, b, m) && m.pc == UNLOCK
    ensures Keeps(b, m, ReleaseLock(m))
  {
  }

  lemma NominateKeeps(nodes: set<Address>, b: Address, m: Node, c: Choice)
    requires Shape(nodes, b, m) && m.pc == NOMINATE && c.nominee in m.store
    ensures Keeps(b, m, NominateValidator(m, c.nominee))
  {
  }

  lemma TransferKeeps(nodes: set<Address>, b: Address, m: Node, c: Choice)
    requires Shape(nodes, b, m) && m.pc == TRANSFER && c.nominee in m.store
    ensures Keeps(b, m, TransferData(b, m, c.nominee))
  {
  }

  lemma CollectKeeps(nodes: set<Address>, b: Address, m: Node, c: Choice)
    requires Shape(nodes, b, m) && m.pc == WAIT_DATA
    ensures Keeps(b, m, CollectData(b, m, c.merged))
  {
  }

  lemma BroadcastKeeps(nodes: set<Address>, b: Address, m: Node)
    requires Shape(nodes, b, m) && m.pc == BROADCAST
    ensures Keeps(b, m, BroadcastBlock(m))
  {
  }

  lemma CheckBroadcastKeeps(nodes: set<Address>, b: Address, m: Node)
    requires Shape(nodes, b, m) && m.pc == CHECK_BROADCAST
    ensures Keeps(b, m, CheckBroadcast(m))
  {
  }

  lemma AdoptBroadcastKeeps(nodes: set<Address>, b: Address, m: Node)
    requires Shape(nodes, b, m) && m.pc == WAIT_BROADCAST
    ensures Keeps(b, m, AdoptBroadcast(m))
  {
  }

  lemma SaveCompleteKeeps(nodes: set<Address>, b: Address, m: Node)
    requires Shape(nodes, b, m) && m.pc == SAVE_COMPLETE
    ensures Keeps(b, m, SaveCompleteBlock(m))
  {
  }

  lemma PublishKeeps(nodes: set<Address>, b: Address, m: Node)
    requires Shape(nodes, b, m) && m.pc == PUBLISH
    ensures Keeps(b, m, PublishBlock(m))
  {
  }

  lemma HandleKeeps(nodes: set<Address>, b: Address, m: Node, c: Choice)
    requires Shape(nodes, b, m) && Enabled(b, m, c)
    ensures Keeps(b, m, RunHandler(b, m, c))
  {
    hide Keeps, Initialise, PassInspection, TryRemove, SavePendingBlock, NotifyContribution, SendElection;
    hide ReadPresent, ReadUnique, TakeLock, PassValues, Recheck, ResetValues, ReleaseLock;
    hide NominateValidator, TransferData, CollectData, BroadcastBlock;
    hide CheckBroadcast, AdoptBroadcast, SaveCompleteBlock, PublishBlock;
    if m.pc == INIT {
      InitialiseKeeps(nodes, b, m);
    } else if m.pc == SAVE_PENDING {
      SavePendingKeeps(nodes, b, m, c);
    } else if m.pc == NOTIFY {
      NotifyKeeps(nodes, b, m);
    } else if m.pc == WAIT_INSPECTION {
      InspectionKeeps(nodes, b, m);
    } else if m.pc == TRY_REMOVE {
      TryRemoveKeeps(nodes, b, m);
    } else if m.pc == SEND_ELECTION || m.pc == REDRAW {
      SendElectionKeeps(nodes, b, m, c);
    } else if m.pc == LOOP_PRESENT {
      ReadPresentKeeps(nodes, b, m);
    } else if m.pc == LOOP_UNIQUE {
      ReadUniqueKeeps(nodes, b, m);
    } else if m.pc == LOCK {
      TakeLockKeeps(nodes, b, m);
    } else if m.pc == WAIT_PRESENT {
      PassValuesKeeps(nodes, b, m);
    } else if m.pc == CHECK_UNIQUE {
      RecheckKeeps(nodes, b, m);
    } else if m.pc == RESET {
      ResetValuesKeeps(nodes, b, m);
    } else if m.pc == UNLOCK {
      ReleaseLockKeeps(nodes, b, m);
    } else if m.pc == NOMINATE {
      NominateKeeps(nodes, b, m, c);
    } else if m.pc == TRANSFER {
      TransferKeeps(nodes, b, m, c);
    } else if m.pc == WAIT_DATA {
      CollectKeeps(nodes, b, m, c);
    } else if m.pc == BROADCAST {
      BroadcastKeeps(nodes, b, m);
    } else if m.pc == CHECK_BROADCAST {
      CheckBroadcastKeeps(nodes, b, m);
    } else if m.pc == WAIT_BROADCAST {
      AdoptBroadcastKeeps(nodes, b, m);
    } else if m.pc == SAVE_COMPLETE {
      SaveCompleteKeeps(nodes, b, m);
    } else if m.pc == PUBLISH {
      PublishKeeps(nodes, b, m);
    }
  }

  lemma HandleSender(nodes: set<Address>, a: Address, n: Node, b: Address, m: Node, c: Choice)
    requires Local(nodes, b, m) && Enabled(b, m, c) && a != b
    requires Pair(a, n, b, m)
    ensures Pair(a, n, b, RunHandler(b, m, c))
  {
    hide RunHandler;
    HandleKeeps(nodes, b, m, c);
    assert SentTo(m, a);
    SenderMoves(a, n, b, m, RunHandler(b, m, c));
  }

  // ----- a handler of the receiver -----

  lemma InspectionPassed(nodes: set<Address>, a: Address, n: Node, b: Address, m: Node)
    requires Local(nodes, a, n) && a != b && b in nodes && Pair(a, n, b, m)
    requires n.pc == WAIT_INSPECTION && AllConfirmed(n.store)
    ensures Pair(a, PassInspection(n), b, m)
  {
  }

  lemma ElectionPassed(nodes: set<Address>, a: Address, n: Node, b: Address, m: Node)
    requires Local(nodes, a, n) && a != b && b in nodes && Pair(a, n, b, m)
    requires n.pc == LOOP_UNIQUE
    ensures Pair(a, ReadUnique(a, n), b, m)
  {
    assert AllPresent(n.store);
  }

  lemma RoundOpened(nodes: set<Address>, a: Address, n: Node, b: Address, m: Node)
    requires Local(nodes, a, n) && a != b && b in nodes && Pair(a, n, b, m)
    requires n.pc == RESET
    ensures Pair(a, ResetValues(n), b, m)
  {
    assert AllPresent(n.store);
  }

  lemma ValueDrawn(nodes: set<Address>, a: Address, n: Node, b: Address, m: Node, draw: nat)
    requires Local(nodes, a, n) && a != b && b in nodes && Pair(a, n, b, m)
    requires n.pc == SEND_ELECTION || n.pc == REDRAW
    ensures Pair(a, SendElection(a, n, draw), b, m)
  {
  }

  lemma GatePassed(nodes: set<Address>, a: Address, n: Node, b: Address, m: Node, c: Choice)
    requires Local(nodes, a, n) && Enabled(a, n, c) && a != b && b in nodes && Pair(a, n, b, m)
    requires n.pc == WAIT_INSPECTION || n.pc == LOOP_UNIQUE || n.pc == RESET
          || n.pc == SEND_ELECTION || n.pc == REDRAW
    ensures Pair(a, RunHandler(a, n, c), b, m)
  {
    if n.pc == WAIT_INSPECTION {
      InspectionPassed(nodes, a, n, b, m);
    } else if n.pc == LOOP_UNIQUE {
      ElectionPassed(nodes, a, n, b, m);
    } else if n.pc == RESET {
      RoundOpened(nodes, a, n, b, m);
    } else {
      ValueDrawn(nodes, a, n, b, m, c.draw);
    }
  }

  lemma HandleReceiver(nodes: set<Address>, a: Address, n: Node, b: Address, m: Node, c: Choice)
    requires Local(nodes, a, n) && Enabled(a, n, c) && a != b && b in nodes
    requires Pair(a, n, b, m)
    ensures Pair(a, RunHandler(a, n, c), b, m)
  {
    hide RunHandler;
    if n.pc == WAIT_INSPECTION || n.pc == LOOP_UNIQUE || n.pc == RESET
       || n.pc == SEND_ELECTION || n.pc == REDRAW {
      GatePassed(nodes, a, n, b, m, c);
    } else {
      HandleKeeps(nodes, a, n, c);
      ReceiverMoves(a, n, RunHandler(a, n, c), b, m);
    }
  }

  // ----- a delivery -----

  ghost predicate CanDeliver(a: Address, n: Node, b: Address, m: Node) {
    && a in m.sent && b in n.taken && b in n.store && !n.status.Crashed?
    && n.taken[b] < |m.sent[a]|
  }

  ghost function Delivered(a: Address, n: Node, b: Address, m: Node): Node
    requires CanDeliver(a, n, b, m)
  {
    Receive(n, b, m.sent[a][n.taken[b]])
  }

  /** A delivery changes the receiver's entry of the sender and nothing of what it publishes. */
  lemma DeliverFrame(a: Address, n: Node, b: Address, m: Node)
    requires CanDeliver(a, n, b, m)
    ensures var n' := Delivered(a, n, b, m);
      && n' == n.(taken := n'.taken, store := n'.store, condition := n'.condition,
                  synchronized := n'.synchronized, status := n'.status)
      && n'.taken == n.taken[b := n.taken[b] + 1]
      && b in n'.store && n'.store == n.store[b := n'.store[b]]
      && n'.store[b].isValidator == n.store[b].isValidator
      && (n.condition ==> n'.condition) && (n.synchronized ==> n'.synchronized)
      && (!n'.status.Crashed? ==> n'.status == n.status)
  {
  }

  lemma DeliverOther(a: Address, n: Node, b: Address, m: Node, d: Address, k: Node)
    requires CanDeliver(a, n, b, m) && Pair(a, n, d, k) && d != b
    ensures Pair(a, Delivered(a, n, b, m), d, k)
  {
    DeliverFrame(a, n, b, m);
    ReceiverMoves(a, n, Delivered(a, n, b, m), d, k);
  }

  lemma DeliverSender(a: Address, n: Node, b: Address, m: Node, d: Address, k: Node)
    requires CanDeliver(a, n, b, m) && Pair(d, k, a, n)
    ensures Pair(d, k, a, Delivered(a, n, b, m))
  {
    DeliverFrame(a, n, b, m);
    SenderMoves(d, k, a, n, Delivered(a, n, b, m));
  }

  /** What a delivery does to the receiver's entry of the sender. */
  lemma DeliverEntry(a: Address, n: Node, b: Address, m: Node)
    requires CanDeliver(a, n, b, m)
    ensures var n' := Delivered(a, n, b, m); var p := m.sent[a][n.taken[b]];
      && b in n'.store && n'.store[b] == Protocol.Recorded(n.store[b], p)
      && (p.Inspection? ==> n'.condition)
      && (p.Broadcast? && n.condition ==> n'.synchronized)
      && (n'.status == n.status
          || (n'.status == Crashed(EmptyOptional) && p.Upload? && !AllConfirmed(n'.store))
          || (n'.status == Crashed(NullCondition) && !n'.condition))
  {
  }

  lemma DeliverPair(nodes: set<Address>, a: Address, n: Node, b: Address, m: Node)
    requires Local(nodes, a, n) && Local(nodes, b, m) && a != b && Pair(a, n, b, m)
    requires CanDeliver(a, n, b, m)
    ensures Pair(a, Delivered(a, n, b, m), b, m)
  {
    DeliverFrame(a, n, b, m);
    DeliverEntry(a, n, b, m);
    assert SentTo(m, a);
    DeliverMoves(nodes, a, n, Delivered(a, n, b, m), b, m);
  }

  lemma DeliverMoves(nodes: set<Address>, a: Address, n: Node, n': Node, b: Address, m: Node)
    requires Pair(a, n, b, m) && n.taken[b] < |m.sent[a]| && SentTo(m, a) && Shape(nodes, b, m)
    requires b in n'.store && b in n'.taken && n'.taken[b] == n.taken[b] + 1
    requires n'.pc == n.pc && n'.draws == n.draws && (n.condition ==> n'.condition)
    requires n'.store[b] == Protocol.Recorded(n.store[b], m.sent[a][n.taken[b]])
    requires m.sent[a][n.taken[b]].Inspection? ==> n'.condition
    ensures Pair(a, n', b, m)
  {
    hide Known, InRound, SentTo, Shape;
    DeliverKnown(nodes, a, n, n', b, m);
    DeliverInRound(nodes, a, n, n', b, m);
  }

  lemma DeliverKnown(nodes: set<Address>, a: Address, n: Node, n': Node, b: Address, m: Node)
    requires Linked(a, n, b, m) && Linked(a, n', b, m) && Known(a, n, b, m)
    requires n.taken[b] < |m.sent[a]| && SentTo(m, a) && Shape(nodes, b, m)
    requires n'.taken[b] == n.taken[b] + 1 && n'.pc == n.pc && (n.condition ==> n'.condition)
    requires n'.store[b] == Protocol.Recorded(n.store[b], m.sent[a][n.taken[b]])
    requires m.sent[a][n.taken[b]].Inspection? ==> n'.condition
    ensures Known(a, n', b, m)
  {
    var t := n.taken[b];
    if 1 <= t <= |m.draws| {
      assert m.sent[a][t] == Election(m.draws[t - 1]);
    }
  }

  lemma DeliverInRound(nodes: set<Address>, a: Address, n: Node, n': Node, b: Address, m: Node)
    requires Linked(a, n, b, m) && Linked(a, n', b, m) && InRound(a, n, b, m)
    requires n.taken[b] < |m.sent[a]| && SentTo(m, a) && Shape(nodes, b, m)
    requires n'.taken[b] == n.taken[b] + 1 && n'.pc == n.pc && n'.draws == n.draws
    requires n'.store[b] == Protocol.Recorded(n.store[b], m.sent[a][n.taken[b]])
    ensures InRound(a, n', b, m)
  {
    var t := n.taken[b];
    if 1 <= t <= |m.draws| {
      assert m.sent[a][t] == Election(m.draws[t - 1]);
    }
  }

  /** A packet that is not the first one finds the contribution of its sender known already. */
  lemma DeliveredPacket(nodes: set<Address>, a: Address, n: Node, b: Address, m: Node)
    requires Local(nodes, b, m) && Pair(a, n, b, m) && CanDeliver(a, n, b, m)
    ensures var p := m.sent[a][n.taken[b]];
      && (p.Inspection? <==> n.taken[b] == 0)
      && (p.Election? ==> p.value > 0)
      && (p.Upload? || p.Broadcast? ==> n.taken[b] == 1 + |m.draws| && HasTail(m, a))
  {
    assert SentTo(m, a);
    var t := n.taken[b];
    if 1 <= t <= |m.draws| {
      assert m.sent[a][t] == Election(m.draws[t - 1]);
    }
  }

  lemma DeliverGates(nodes: set<Address>, a: Address, n: Node, b: Address, m: Node)
    requires Local(nodes, a, n) && Local(nodes, b, m) && a != b && Pair(a, n, b, m)
    requires CanDeliver(a, n, b, m)
    ensures Gates(Delivered(a, n, b, m))
  {
    hide Receive, SentAll, OwnEntry, Flags, Shape, InRound;
    DeliverFrame(a, n, b, m);
    DeliverEntry(a, n, b, m);
    DeliveredPacket(nodes, a, n, b, m);
    if n.pc >= TRY_REMOVE {
      SameContributions(n.store, Delivered(a, n, b, m).store);
    }
  }

  lemma DeliverLocal(nodes: set<Address>, a: Address, n: Node, b: Address, m: Node)
    requires Local(nodes, a, n) && Local(nodes, b, m) && a != b && Pair(a, n, b, m)
    requires CanDeliver(a, n, b, m)
    ensures Local(nodes, a, Delivered(a, n, b, m))
  {
    hide Receive, Delivered, Shape, SentAll, OwnEntry, Gates, Pair, SentTo;
    var n' := Delivered(a, n, b, m);
    DeliverFrame(a, n, b, m);
    DeliverGates(nodes, a, n, b, m);
    DeliverFlags(n, n', b);
    EntryKeeps(nodes, a, n, n', b);
  }

  /** A change of the entry of a peer leaves the rest of a node explained. */
  lemma EntryKeeps(nodes: set<Address>, a: Address, n: Node, n': Node, b: Address)
    requires Shape(nodes, a, n) && SentAll(n) && OwnEntry(a, n) && a != b
    requires n' == n.(taken := n'.taken, store := n'.store, condition := n'.condition,
                      synchronized := n'.synchronized, status := n'.status)
    requires b in n.taken && n'.taken == n.taken[b := n.taken[b] + 1]
    requires b in n.store && b in n'.store && n'.store == n.store[b := n'.store[b]]
    ensures Shape(nodes, a, n') && SentAll(n') && OwnEntry(a, n')
  {
    NothingSent(n, n');
  }

  lemma DeliverFlags(n: Node, n': Node, b: Address)
    requires Flags(n) && n'.pc == n.pc && n'.validator == n.validator
    requires b in n.store && b in n'.store && n'.store == n.store[b := n'.store[b]]
    requires n'.store[b].isValidator == n.store[b].isValidator
    ensures Flags(n')
  {
    assert forall p | p in n.store :: n'.store[p].isValidator == n.store[p].isValidator;
  }

  // ----- optional reads and synchronization contexts -----

  /**
    An upload never meets an unknown contribution: its sender has left the election, so it
    has received a value of the receiver, which draws only after its inspection.
   */
  lemma UploadFindsContributions(nodes: set<Address>, a: Address, n: Node, b: Address, m: Node)
    requires Local(nodes, a, n) && Local(nodes, b, m) && a != b && Uncleared(n)
    requires Pair(a, n, b, m) && Pair(b, m, a, n) && CanDeliver(a, n, b, m)
    requires m.sent[a][n.taken[b]].Upload?
    ensures AllConfirmed(n.store)
  {
    DeliveredPacket(nodes, a, n, b, m);
    assert Passed(b, m, a, n);
  }

  lemma DeliverUnharmed(nodes: set<Address>, a: Address, n: Node, b: Address, m: Node)
    requires Local(nodes, a, n) && Local(nodes, b, m) && a != b && Unharmed(n)
    requires Pair(a, n, b, m) && Pair(b, m, a, n) && CanDeliver(a, n, b, m)
    ensures Unharmed(Delivered(a, n, b, m))
  {
    hide Receive, Delivered, Local;
    DeliveredPacket(nodes, a, n, b, m);
    DeliverFrame(a, n, b, m);
    DeliverEntry(a, n, b, m);
    var p := m.sent[a][n.taken[b]];
    if Uncleared(n) && p.Upload? {
      UploadFindsContributions(nodes, a, n, b, m);
      SameContributions(n.store, Delivered(a, n, b, m).store);
    }
  }

  /** The only crash before the slot is cleared is in the election loop. */
  lemma HandleStatus(nodes: set<Address>, a: Address, n: Node, c: Choice)
    requires Local(nodes, a, n) && Enabled(a, n, c)
    ensures var n' := RunHandler(a, n, c);
      n'.status.Crashed? ==> n'.status.reason == Relock
  {
    hide Shape, SentAll, OwnEntry, Flags, AllConfirmed, AllPresent, AnyContributing, IsUnique, Collected,
      IsMerge, IsNominee, ToAll, ResetAll;
    if n.pc <= SEND_ELECTION {
      hide RunElection, RunBroadcast;
    } else if n.pc <= REDRAW {
      hide RunInspection, RunBroadcast;
    } else {
      hide RunElection, RunInspection;
    }
  }

  lemma HandleUnharmed(nodes: set<Address>, a: Address, n: Node, c: Choice)
    requires Local(nodes, a, n) && Unharmed(n) && Enabled(a, n, c)
    ensures Unharmed(RunHandler(a, n, c))
  {
    hide Local;
    HandleStatus(nodes, a, n, c);
  }

  // ----- every reachable state -----

  lemma InvInitial(nodes: set<Address>)
    ensures Inv(nodes, Initial(nodes))
  {
    hide Local, Pair, InitialNode;
    forall a | a in nodes
      ensures Local(nodes, a, InitialNode(nodes, a)) && Unharmed(InitialNode(nodes, a))
    {
      InitialLocal(nodes, a);
    }
    forall a, b | a in nodes && b in nodes && a != b
      ensures Pair(a, InitialNode(nodes, a), b, InitialNode(nodes, b))
    {
      InitialPair(nodes, a, b);
    }
  }

  lemma InitialLocal(nodes: set<Address>, a: Address)
    requires a in nodes
    ensures Local(nodes, a, InitialNode(nodes, a)) && Unharmed(InitialNode(nodes, a))
  {
  }

  lemma InitialPair(nodes: set<Address>, a: Address, b: Address)
    requires a in nodes && b in nodes && a != b
    ensures Pair(a, InitialNode(nodes, a), b, InitialNode(nodes, b))
  {
  }

  lemma InvHandle(nodes: set<Address>, s: System, a: Address, c: Choice)
    requires Inv(nodes, s) && StepEnabled(s, Handle(a, c))
    ensures Inv(nodes, Next(s, Handle(a, c)))
  {
    hide RunHandler, Local, Pair, Unharmed, Enabled;
    var s' := Next(s, Handle(a, c));
    HandleLocal(nodes, a, s[a], c);
    HandleUnharmed(nodes, a, s[a], c);
    forall b, d | b in nodes && d in nodes && b != d
      ensures Pair(b, s'[b], d, s'[d])
    {
      if b == a {
        HandleReceiver(nodes, a, s[a], d, s[d], c);
      } else if d == a {
        HandleSender(nodes, b, s[b], a, s[a], c);
      }
    }
  }

  lemma DeliverStep(nodes: set<Address>, s: System, b: Address, a: Address)
    requires Inv(nodes, s) && StepEnabled(s, Deliver(b, a))
    ensures a in nodes && b in nodes && a != b && CanDeliver(a, s[a], b, s[b])
    ensures Next(s, Deliver(b, a)) == s[a := Delivered(a, s[a], b, s[b])]
  {
    hide Receive, Pair, Unharmed, SentAll, OwnEntry, Flags, Gates;
    assert Local(nodes, b, s[b]);
  }

  lemma InvDeliver(nodes: set<Address>, s: System, b: Address, a: Address)
    requires Inv(nodes, s) && StepEnabled(s, Deliver(b, a))
    ensures Inv(nodes, Next(s, Deliver(b, a)))
  {
    hide Next, StepEnabled, Delivered, Local, Pair, Unharmed, CanDeliver;
    DeliverStep(nodes, s, b, a);
    var s' := s[a := Delivered(a, s[a], b, s[b])];
    assert Pair(a, s[a], b, s[b]) && Pair(b, s[b], a, s[a]);
    DeliverLocal(nodes, a, s[a], b, s[b]);
    DeliverUnharmed(nodes, a, s[a], b, s[b]);
    forall d, e | d in nodes && e in nodes && d != e
      ensures Pair(d, s'[d], e, s'[e])
    {
      assert Pair(d, s[d], e, s[e]);
      if d == a && e == b {
        DeliverPair(nodes, a, s[a], b, s[b]);
      } else if d == a {
        DeliverOther(a, s[a], b, s[b], e, s[e]);
      } else if e == a {
        DeliverSender(a, s[a], b, s[b], d, s[d]);
      }
    }
  }

  lemma InvNext(nodes: set<Address>, s: System, step: Step)
    requires Inv(nodes, s) && StepEnabled(s, step)
    ensures Inv(nodes, Next(s, step))
  {
    match step
    case Handle(a, c) => InvHandle(nodes, s, a, c);
    case Deliver(from, to) => InvDeliver(nodes, s, from, to);
  }

  lemma {:induction false} InvRun(nodes: set<Address>, run: seq<System>, steps: seq<Step>, k: nat)
    requires IsRun(nodes, run, steps) && k <= |steps|
    ensures Inv(nodes, run[k])
  {
    if k == 0 {
      InvInitial(nodes);
    } else {
      InvRun(nodes, run, steps, k - 1);
      InvNext(nodes, run[k - 1], steps[k - 1]);
    }
  }

  lemma InvReachable(nodes: set<Address>, s: System)
    requires Reachable(nodes, s)
    ensures Inv(nodes, s)
  {
    var run, steps :| IsRun(nodes, run, steps) && run[|steps|] == s;
    InvRun(nodes, run, steps, |steps|);
  }
}
