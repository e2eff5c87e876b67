/**
  What clearing a slot leaves behind: in every run nothing the node itself knew, and in
  settled ones nothing at all; and what a packet does that arrives too late.
 */
module Clearing {
  import opened Types
  import opened StorageSpec
  import opened Protocol
  import opened Invariants
  import opened Links
  import opened Agreement
  import opened Settlement

  /** After clearing: no synchronization context, no mark, no contribution, and a fresh own entry. */
  ghost predicate Forgotten(a: Address, n: Node) {
    n.pc > SAVE_COMPLETE ==>
      && !n.condition && !n.synchronized
      && a in n.store && n.store[a] == FRESH_CONTEXT
      && forall p | p in n.store :: !n.store[p].isValidator && n.store[p].isContributing.None?
  }

  ghost predicate AllForgotten(s: System) {
    forall a | a in s :: Forgotten(a, s[a])
  }

  lemma SavingForgets(nodes: set<Address>, a: Address, n: Node)
    requires Shape(nodes, a, n) && Forgotten(a, n)
    ensures n.pc == SAVE_COMPLETE ==> Forgotten(a, SaveCompleteBlock(n))
    ensures n.pc == PUBLISH ==> Forgotten(a, PublishBlock(n))
  {
  }

  lemma HandleForgets(nodes: set<Address>, a: Address, n: Node, c: Choice)
    requires Local(nodes, a, n) && Enabled(a, n, c) && Forgotten(a, n)
    ensures Forgotten(a, RunHandler(a, n, c))
  {
    SavingForgets(nodes, a, n);
    HandleKeeps(nodes, a, n, c);
    hide SentAll, OwnEntry, Flags, Gates, Shape;
    if n.pc >= SAVE_COMPLETE {
      assert RunHandler(a, n, c) == if n.pc == SAVE_COMPLETE then SaveCompleteBlock(n) else PublishBlock(n);
      hide Forgotten, SaveCompleteBlock, PublishBlock, Keeps;
    } else {
      hide RunHandler;
    }
  }

  /** The contribution of its sender is known already, so no late packet brings the slot back. */
  lemma DeliverForgets(nodes: set<Address>, a: Address, n: Node, b: Address, m: Node)
    requires Local(nodes, b, m) && a != b && Pair(a, n, b, m) && CanDeliver(a, n, b, m) && Forgotten(a, n)
    ensures Forgotten(a, Delivered(a, n, b, m))
  {
    DeliveredPacket(nodes, a, n, b, m);
    hide Local, Known, InRound;
  }

  lemma NextForgets(nodes: set<Address>, s: System, step: Step)
    requires Inv(nodes, s) && StepEnabled(s, step) && AllForgotten(s)
    ensures AllForgotten(Next(s, step))
  {
    hide Inv, Forgotten, RunHandler, Enabled;
    KeysAt(nodes, s);
    match step
    case Handle(a, c) =>
      LocalAt(nodes, s, a);
      assert Forgotten(a, s[a]);
      HandleForgets(nodes, a, s[a], c);
    case Deliver(b, a) =>
      DeliverStep(nodes, s, b, a);
      LocalAt(nodes, s, b);
      PairAt(nodes, s, a, b);
      assert Forgotten(a, s[a]);
      DeliverForgets(nodes, a, s[a], b, s[b]);
  }

  lemma NothingForgotten(nodes: set<Address>)
    ensures AllForgotten(Initial(nodes))
  {
  }

  lemma {:induction false} RunForgets(nodes: set<Address>, run: seq<System>, steps: seq<Step>, k: nat)
    requires IsRun(nodes, run, steps) && k <= |steps|
    ensures AllForgotten(run[k])
  {
    hide Inv, AllForgotten, Next, StepEnabled;
    if k == 0 {
      NothingForgotten(nodes);
    } else {
      RunForgets(nodes, run, steps, k - 1);
      InvRun(nodes, run, steps, k - 1);
      NextForgets(nodes, run[k - 1], steps[k - 1]);
    }
  }

  /** Of every run: a node past saving has forgotten its slot, whatever else still arrives. */
  lemma ClearedForgets(nodes: set<Address>, s: System, a: Address)
    requires Reachable(nodes, s) && a in s && s[a].pc > SAVE_COMPLETE
    ensures !s[a].condition && !s[a].synchronized
    ensures a in s[a].store && s[a].store[a] == FRESH_CONTEXT
    ensures forall p | p in s[a].store :: !s[a].store[p].isValidator && s[a].store[p].isContributing.None?
  {
    hide Inv;
    var run, steps :| IsRun(nodes, run, steps) && run[|steps|] == s;
    RunForgets(nodes, run, steps, |steps|);
    assert Forgotten(a, s[a]);
  }

  /** Of the packets that come too late a block crashes the node, and an election value does not. */
  lemma LatePacketCrashes(nodes: set<Address>, s: System, b: Address, a: Address)
    requires Reachable(nodes, s) && StepEnabled(s, Deliver(b, a)) && s[a].pc > SAVE_COMPLETE
    ensures var p := s[b].sent[a][s[a].taken[b]]; var status := Next(s, Deliver(b, a))[a].status;
      status == if p.Upload? then Crashed(EmptyOptional) else if p.Broadcast? then Crashed(NullCondition)
                else s[a].status
  {
    hide Inv, Reachable;
    InvReachable(nodes, s);
    ClearedForgets(nodes, s, a);
    DeliverStep(nodes, s, b, a);
    LocalAt(nodes, s, b);
    PairAt(nodes, s, a, b);
    DeliveredPacket(nodes, a, s[a], b, s[b]);
    LateStatus(a, s[a], b, s[b]);
  }

  lemma LateStatus(a: Address, n: Node, b: Address, m: Node)
    requires CanDeliver(a, n, b, m) && a != b && !m.sent[a][n.taken[b]].Inspection?
    requires !n.condition && a in n.store && n.store[a] == FRESH_CONTEXT
    ensures var p := m.sent[a][n.taken[b]]; var status := Delivered(a, n, b, m).status;
      status == if p.Upload? then Crashed(EmptyOptional) else if p.Broadcast? then Crashed(NullCondition)
                else n.status
  {
    var store := n.store[b := Recorded(n.store[b], m.sent[a][n.taken[b]])];
    assert !AllConfirmed(store) && !AllPresent(store) by { assert store[a] == FRESH_CONTEXT; }
    hide AllConfirmed, AllPresent, Recorded;
  }

  // ----- settled states -----

  ghost predicate Blank(n: Node) {
    n.pc > SAVE_COMPLETE ==> forall p | p in n.store :: n.store[p] == FRESH_CONTEXT
  }

  ghost predicate AllBlank(s: System) {
    forall a | a in s :: Blank(s[a])
  }

  lemma SavingBlank(n: Node)
    requires Blank(n)
    ensures n.pc == SAVE_COMPLETE ==> Blank(SaveCompleteBlock(n))
    ensures n.pc == PUBLISH ==> Blank(PublishBlock(n))
  {
  }

  lemma HandleBlank(nodes: set<Address>, a: Address, n: Node, c: Choice)
    requires Shape(nodes, a, n) && Enabled(a, n, c) && Blank(n)
    ensures Blank(RunHandler(a, n, c))
  {
    hide Shape, RunInspection, RunElection, SaveCompleteBlock, PublishBlock;
    SavingBlank(n);
    HandleKeeps(nodes, a, n, c);
  }

  lemma NextBlank(nodes: set<Address>, s: System, step: Step)
    requires Inv(nodes, s) && Settled(s) && Agreed(s) && StepEnabled(s, step) && AllBlank(s)
    ensures AllBlank(Next(s, step))
  {
    hide Inv, Settled, Agreed, Blank, RunHandler, Enabled;
    KeysAt(nodes, s);
    match step
    case Handle(a, c) =>
      ShapeAt(nodes, s, a);
      assert Blank(s[a]);
      HandleBlank(nodes, a, s[a], c);
    case Deliver(b, a) =>
      DeliverStep(nodes, s, b, a);
      if s[a].pc >= SAVE_COMPLETE {
        DrainedFrom(nodes, s, a, b);
      }
      NotYetBlank(a, s[a], b, s[b]);
  }

  lemma NotYetBlank(a: Address, n: Node, b: Address, m: Node)
    requires CanDeliver(a, n, b, m) && n.pc <= SAVE_COMPLETE
    ensures Blank(Delivered(a, n, b, m))
  {
    DeliverFrame(a, n, b, m);
  }

  lemma NothingBlank(nodes: set<Address>)
    ensures AllBlank(Initial(nodes))
  {
  }

  lemma {:induction false} RunBlank(nodes: set<Address>, run: seq<System>, steps: seq<Step>, k: nat)
    requires IsRun(nodes, run, steps) && k <= |steps| && Settled(run[k])
    ensures AllBlank(run[k])
  {
    hide Inv, Settled, Agreed, AllBlank, Next, StepEnabled;
    if k == 0 {
      NothingBlank(nodes);
    } else {
      InvRun(nodes, run, steps, k - 1);
      SettledBefore(nodes, run[k - 1], steps[k - 1]);
      AgreedRun(nodes, run, steps, k - 1);
      RunBlank(nodes, run, steps, k - 1);
      NextBlank(nodes, run[k - 1], steps[k - 1]);
    }
  }

  /** In settled states nothing is left of a slot once it is saved, and nothing comes back. */
  lemma StaysCleared(nodes: set<Address>, s: System, a: Address)
    requires Reachable(nodes, s) && Settled(s) && a in s && s[a].pc > SAVE_COMPLETE
    ensures s[a].store.Keys == nodes && forall p | p in nodes :: s[a].store[p] == FRESH_CONTEXT
    ensures !s[a].condition && !s[a].synchronized
  {
    hide Inv, Settled;
    ClearedForgets(nodes, s, a);
    InvReachable(nodes, s);
    KeysAt(nodes, s);
    ShapeAt(nodes, s, a);
    var run, steps :| IsRun(nodes, run, steps) && run[|steps|] == s;
    RunBlank(nodes, run, steps, |steps|);
    assert Blank(s[a]);
  }
}
