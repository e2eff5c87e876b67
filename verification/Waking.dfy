/**
  The handler of a slot sleeps at a closed gate until the consume callback has raised the
  flag of the slot. No wake-up is lost: the packet that opens the gate raises the flag.
 */
module Waking {
  import opened Types
  import opened StorageSpec
  import opened Protocol
  import opened Invariants
  import opened Links
  import opened Progress

  /** What a node that cannot go on is waiting for. */
  lemma BlockedGate(nodes: set<Address>, a: Address, n: Node)
    requires Local(nodes, a, n) && n.status.Running? && !Ready(a, n)
    ensures Waits(n)
    ensures n.pc == WAIT_INSPECTION ==> !AllConfirmed(n.store)
    ensures n.pc == WAIT_PRESENT ==> !AllPresent(n.store)
    ensures n.pc == WAIT_DATA ==> !Collected(n.store)
  {
    hide Local, Ready, Waits, AllConfirmed, AllPresent, Collected;
    if !Waits(n) {
      RunsFreely(nodes, a, n);
    } else if (n.pc == WAIT_INSPECTION && AllConfirmed(n.store)) || (n.pc == WAIT_PRESENT && AllPresent(n.store)) {
      PassesWait(nodes, a, n);
    } else if n.pc == WAIT_DATA && Collected(n.store) {
      PassesCollection(nodes, a, n);
    }
  }

  /** What a node that can go on has seen, or been told. */
  lemma OpenGate(nodes: set<Address>, a: Address, n: Node)
    requires Gates(n) && Ready(a, n)
    ensures n.status.Running? && n.pc < FINISHED
    ensures n.pc == WAIT_INSPECTION ==> AllConfirmed(n.store)
    ensures n.pc == WAIT_PRESENT ==> AllPresent(n.store)
    ensures n.pc == WAIT_DATA && n.isValidator ==> Collected(n.store)
    ensures n.pc == WAIT_BROADCAST ==> n.synchronized
  {
    hide AnyContributing, IsMerge, IsNominee;
    var c :| Enabled(a, n, c);
  }

  /** Which packets can turn the answer of which gate. */
  lemma GateMoves(v: SlotView, b: Address, p: Packet)
    requires b in v
    ensures var w := v[b := Recorded(v[b], p)];
      && (!p.Inspection? ==> AllConfirmed(w) == AllConfirmed(v))
      && (!p.Election? ==> AllPresent(w) == AllPresent(v))
      && (p.Election? ==> Collected(w) == Collected(v))
  {
    var w := v[b := Recorded(v[b], p)];
    assert forall a | a in w && a != b :: a in v && w[a] == v[a];
    assert forall a | a in v && a != b :: a in w && w[a] == v[a];
    assert b in w && w[b] == Recorded(v[b], p);
  }

  /** What a packet raises the flag for. */
  ghost predicate Completes(v: SlotView, p: Packet) {
    && (p.Inspection? ==> AllConfirmed(v))
    && (p.Election? ==> AllPresent(v))
    && (p.Upload? ==> AllConfirmed(v) && Collected(v))
  }

  /** The flag after a delivery. */
  lemma FlagAfter(a: Address, n: Node, b: Address, m: Node)
    requires CanDeliver(a, n, b, m) && (n.condition || m.sent[a][n.taken[b]].Inspection?)
    ensures var n' := Delivered(a, n, b, m); var p := m.sent[a][n.taken[b]];
      && n'.store == n.store[b := Recorded(n.store[b], p)]
      && (n'.synchronized <==> n.synchronized || Completes(n'.store, p))
      && (Completes(n'.store, p) ==> n'.status == n.status)
  {
    hide AllConfirmed, AllPresent, Collected, Recorded;
  }

  lemma GateOpened(nodes: set<Address>, a: Address, n: Node, b: Address, m: Node)
    requires Local(nodes, a, n) && Local(nodes, b, m) && a != b && Pair(a, n, b, m) && CanDeliver(a, n, b, m)
    requires !Ready(a, n) && Ready(a, Delivered(a, n, b, m))
    ensures Delivered(a, n, b, m).synchronized
  {
    var n' := Delivered(a, n, b, m);
    DeliverLocal(nodes, a, n, b, m);
    DeliverFrame(a, n, b, m);
    GateMoves(n.store, b, m.sent[a][n.taken[b]]);
    DeliveredPacket(nodes, a, n, b, m);
    OpenGate(nodes, a, n');
    BlockedGate(nodes, a, n);
    FlagAfter(a, n, b, m);
    hide Ready, Delivered, AllConfirmed, AllPresent, Collected, AnyContributing, SentAll, OwnEntry, Flags, Shape,
      Known, InRound, Recorded;
  }

  /**
    In every run: if a node cannot go on, and can once a packet is delivered to it, then
    this delivery has raised the flag of the slot, and the node is woken.
   */
  lemma NoLostWakeUp(nodes: set<Address>, s: System, b: Address, a: Address)
    requires Reachable(nodes, s) && StepEnabled(s, Deliver(b, a))
    requires !Ready(a, s[a]) && Ready(a, Next(s, Deliver(b, a))[a])
    ensures Next(s, Deliver(b, a))[a].synchronized
  {
    hide Inv, Reachable, Ready;
    InvReachable(nodes, s);
    DeliverStep(nodes, s, b, a);
    LocalAt(nodes, s, a);
    LocalAt(nodes, s, b);
    PairAt(nodes, s, a, b);
    GateOpened(nodes, a, s[a], b, s[b]);
  }

  /** A node that waits for packets of this kind. */
  predicate Awaits(n: Node, p: Packet) {
    || (n.pc == WAIT_INSPECTION && p.Inspection?)
    || (n.pc == WAIT_PRESENT && p.Election?)
    || (n.pc == WAIT_DATA && n.isValidator && p.Upload?)
  }

  lemma WokenToGo(nodes: set<Address>, a: Address, n: Node, b: Address, m: Node)
    requires Local(nodes, a, n) && Local(nodes, b, m) && a != b && Pair(a, n, b, m) && CanDeliver(a, n, b, m)
    requires n.status.Running? && !n.synchronized && Awaits(n, m.sent[a][n.taken[b]])
    ensures Delivered(a, n, b, m).synchronized <==> Ready(a, Delivered(a, n, b, m))
  {
    var n' := Delivered(a, n, b, m);
    DeliverLocal(nodes, a, n, b, m);
    DeliverFrame(a, n, b, m);
    FlagAfter(a, n, b, m);
    hide Delivered, AllConfirmed, AllPresent, Collected, AnyContributing, SentAll, OwnEntry, Flags, Shape,
      Known, InRound, Recorded;
    if n'.synchronized && n.pc == WAIT_DATA {
      PassesCollection(nodes, a, n');
    } else if n'.synchronized {
      PassesWait(nodes, a, n');
    } else if Ready(a, n') {
      OpenGate(nodes, a, n');
    }
  }

  /** In every run: a packet of the kind a node waits for wakes it exactly if it can then go on. */
  lemma WokenExactly(nodes: set<Address>, s: System, b: Address, a: Address)
    requires Reachable(nodes, s) && StepEnabled(s, Deliver(b, a))
    requires s[a].status.Running? && !s[a].synchronized && Awaits(s[a], s[b].sent[a][s[a].taken[b]])
    ensures Next(s, Deliver(b, a))[a].synchronized <==> Ready(a, Next(s, Deliver(b, a))[a])
  {
    hide Inv, Reachable, Ready, Awaits;
    InvReachable(nodes, s);
    DeliverStep(nodes, s, b, a);
    LocalAt(nodes, s, a);
    LocalAt(nodes, s, b);
    PairAt(nodes, s, a, b);
    WokenToGo(nodes, a, s[a], b, s[b]);
  }
}
