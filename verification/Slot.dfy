/**
  The results about one slot: agreement on the validator and on the completed block,
  finality of clearing, and, when the first draws are distinct, a run without crash.
 */
module Slot {
  import opened Types
  import opened StorageSpec
  import opened Protocol
  import opened Invariants
  import opened Links
  import opened Agreement
  import opened Settlement

  // ----- agreement -----

  /** All nodes that nominate in a settled election mark the nominee of the same values. */
  lemma SettledElection(nodes: set<Address>, s: System, a: Address, b: Address, p: Address, q: Address)
    requires Reachable(nodes, s) && Settled(s) && a in s && b in s
    requires TRANSFER <= s[a].pc <= SAVE_COMPLETE && TRANSFER <= s[b].pc <= SAVE_COMPLETE
    requires p in s[a].store && s[a].store[p].isValidator
    requires q in s[b].store && s[b].store[q].isValidator
    ensures p == q && IsNominee(LastDraws(s), p)
  {
    hide Inv, Settled, IsNominee, Distinct, Merged, Adopted, Reachable;
    AgreedReachable(nodes, s);
    KeysAt(nodes, s);
    SettledRound(nodes, s, a);
    assert AgreedAt(s, a) && AgreedAt(s, b);
    NomineeUnique(LastDraws(s), p, q);
  }

  /** Through any number of collision rounds: once all have left the election, all mark one node. */
  lemma ElectionAgreement(nodes: set<Address>, s: System, a: Address, b: Address, p: Address, q: Address)
    requires Reachable(nodes, s) && AllNominated(s) && a in s && b in s
    requires TRANSFER <= s[a].pc <= SAVE_COMPLETE && TRANSFER <= s[b].pc <= SAVE_COMPLETE
    requires p in s[a].store && s[a].store[p].isValidator
    requires q in s[b].store && s[b].store[q].isValidator
    ensures p == q && IsNominee(LastDraws(s), p)
  {
    hide Inv, Settled, Agreed, Reachable;
    InvReachable(nodes, s);
    AllNominatedSettled(nodes, s);
    SettledElection(nodes, s, a, b, p, q);
  }

  /** All nodes that have taken a validator, cleared or not, have taken the same one. */
  lemma SameValidator(nodes: set<Address>, s: System, a: Address, b: Address)
    requires Reachable(nodes, s) && Settled(s) && a in s && b in s
    requires s[a].pc >= WAIT_DATA && s[b].pc >= WAIT_DATA
    ensures s[a].validator == s[b].validator
    ensures s[b].isValidator ==> s[a].validator == b
  {
    hide Inv, Settled, Agreed, Reachable;
    AgreedReachable(nodes, s);
    KeysAt(nodes, s);
    OneValidator(nodes, s, a, b);
  }

  /** What a validator that finds all data collected merges is every contribution. */
  lemma MergesEverything(nodes: set<Address>, s: System, a: Address, merged: Block)
    requires Reachable(nodes, s) && Settled(s) && a in s
    requires s[a].pc == WAIT_DATA && s[a].isValidator && Collected(s[a].store)
    requires a in s[a].store && IsMerge(s[a].store, a, merged)
    ensures IsComplete(s, merged)
    ensures forall b | b in s && b != a && s[b].contributing :: Uploaded(a, s[a], b, s[b])
  {
    hide Inv, Settled, Agreed, Reachable, IsMerge, IsComplete, Uploaded, Collected;
    AgreedReachable(nodes, s);
    KeysAt(nodes, s);
    MergesInputs(nodes, s, a, merged);
  }

  /** The block of a node about to save, or past it, is the one of the validator. */
  lemma BlockOfValidator(nodes: set<Address>, s: System, a: Address)
    requires Inv(nodes, s) && Settled(s) && Agreed(s) && a in s && s[a].pc >= SAVE_COMPLETE
    ensures s[a].validator in s
    ensures s[a].broadcastBlock == s[s[a].validator].broadcastBlock
    ensures IsComplete(s, s[a].broadcastBlock)
  {
    hide Inv, Settled, IsNominee, IsComplete, Uploaded, Nominated;
    KeysAt(nodes, s);
    ValidatorIsSelf(nodes, s, a);
    assert AgreedAt(s, a) && AgreedAt(s, s[a].validator);
  }

  /** Every node that saves a settled slot saves the same completed block. */
  lemma SlotAgreement(nodes: set<Address>, s: System, a: Address, b: Address)
    requires Reachable(nodes, s) && Settled(s) && a in s && b in s
    requires s[a].pc >= SAVE_COMPLETE && s[b].pc >= SAVE_COMPLETE
    ensures s[a].broadcastBlock == s[b].broadcastBlock
    ensures IsComplete(s, s[a].broadcastBlock)
  {
    hide Inv, Settled, Agreed, IsComplete;
    AgreedReachable(nodes, s);
    KeysAt(nodes, s);
    BlockOfValidator(nodes, s, a);
    BlockOfValidator(nodes, s, b);
    OneValidator(nodes, s, a, b);
  }

  /** The block saved is completed, and carries the time and the slot of the validator's own block. */
  lemma StampedByValidator(nodes: set<Address>, s: System, a: Address)
    requires Reachable(nodes, s) && Settled(s) && a in s && s[a].pc >= SAVE_COMPLETE
    ensures s[a].validator in s && IsFrom(s[a].broadcastBlock, s[s[a].validator].block)
  {
    hide Inv, Settled, Nominated, Merged;
    AgreedReachable(nodes, s);
    KeysAt(nodes, s);
    ShapeAt(nodes, s, a);
    assert AgreedAt(s, a);
    ShapeAt(nodes, s, s[a].validator);
  }

  /** Clearing is final: no packet to a node that saves is in flight, and none is sent later. */
  lemma ClearingIsFinal(nodes: set<Address>, s: System, step: Step, a: Address, b: Address)
    requires Reachable(nodes, s) && StepEnabled(s, step) && Settled(Next(s, step))
    requires a in s && b in s && a != b && s[a].pc >= SAVE_COMPLETE
    ensures b in s[a].taken && a in s[b].sent && s[a].taken[b] == |s[b].sent[a]|
    ensures step != Deliver(b, a)
    ensures b in Next(s, step) && a in Next(s, step)[b].sent && |Next(s, step)[b].sent[a]| == |s[b].sent[a]|
  {
    hide Inv, Settled, Agreed;
    InvReachable(nodes, s);
    KeysAt(nodes, s);
    SettledBefore(nodes, s, step);
    AgreedReachable(nodes, s);
    DrainedFrom(nodes, s, a, b);
    var s' := Next(s, step);
    InvNext(nodes, s, step);
    AgreedNext(nodes, s, step);
    StepLater(nodes, s, step, a);
    DrainedFrom(nodes, s', a, b);
    TakenStays(nodes, s, step, a, b);
  }

  lemma TakenStays(nodes: set<Address>, s: System, step: Step, a: Address, b: Address)
    requires Inv(nodes, s) && StepEnabled(s, step) && a in s && b in s && a != b
    requires b in s[a].taken && a in s[b].sent && s[a].taken[b] == |s[b].sent[a]|
    ensures a in Next(s, step) && b in Next(s, step)[a].taken
    ensures Next(s, step)[a].taken[b] == s[a].taken[b] && step != Deliver(b, a)
  {
    hide Inv, RunHandler, Enabled;
    KeysAt(nodes, s);
    match step
    case Handle(d, c) =>
      if d == a {
        ShapeAt(nodes, s, a);
        hide Shape;
        HandleKeeps(nodes, a, s[a], c);
      }
    case Deliver(d, e) =>
      DeliverStep(nodes, s, d, e);
      hide Delivered;
      if e == a {
        DeliverFrame(a, s[a], d, s[d]);
      }
  }

  // ----- distinct first draws -----

  /** No collision has touched the node. */
  predicate Smooth(n: Node) {
    && |n.draws| <= 1
    && n.pc != RESET && n.pc != UNLOCK && n.pc != REDRAW
    && n.status != Crashed(Relock)
    && (n.pc == LOCK ==> !n.lockHeld)
  }

  ghost predicate AllSmooth(s: System) {
    forall a | a in s :: Smooth(s[a])
  }

  lemma DistinctBefore(nodes: set<Address>, s: System, step: Step)
    requires Inv(nodes, s) && StepEnabled(s, step) && FirstDrawsDistinct(Next(s, step))
    ensures FirstDrawsDistinct(s)
  {
    hide Inv;
    var s' := Next(s, step);
    KeysAt(nodes, s);
    assert s'.Keys == nodes;
    hide Next, StepEnabled;
    forall a, b | a in s && b in s && a != b && s[a].draws != [] && s[b].draws != []
      ensures s[a].draws[0] != s[b].draws[0]
    {
      DrawsGrow(nodes, s, step, a);
      DrawsGrow(nodes, s, step, b);
    }
  }

  /** The values a node holds are the first draws, so its own is unique among them. */
  lemma FirstDrawsUnique(nodes: set<Address>, s: System, a: Address)
    requires Inv(nodes, s) && FirstDrawsDistinct(s) && AllSmooth(s)
    requires a in s && s[a].pc <= SAVE_COMPLETE && AllPresent(s[a].store)
    ensures a in s[a].store && IsUnique(s[a].store, a)
  {
    hide Inv;
    KeysAt(nodes, s);
    LocalAt(nodes, s, a);
    hide Local;
    forall b | b in nodes && b != a
      ensures s[a].store[b].electionValue != s[a].store[a].electionValue
    {
      OwnFirstDraw(nodes, s, a);
      PeerFirstDraw(nodes, s, a, b);
    }
  }

  lemma OwnFirstDraw(nodes: set<Address>, s: System, a: Address)
    requires Inv(nodes, s) && a in nodes && s[a].pc <= SAVE_COMPLETE && Smooth(s[a])
    ensures a in s[a].store && s[a].store.Keys == nodes
    ensures s[a].store[a].electionValue > 0 ==>
              s[a].draws != [] && s[a].store[a].electionValue == s[a].draws[0]
  {
    hide Inv, SentAll, Flags, Gates;
    LocalAt(nodes, s, a);
  }

  lemma PeerFirstDraw(nodes: set<Address>, s: System, a: Address, b: Address)
    requires Inv(nodes, s) && a in nodes && b in nodes && a != b && s[a].pc <= SAVE_COMPLETE
    requires Smooth(s[b])
    ensures b in s[a].store
    ensures s[a].store[b].electionValue > 0 ==>
              s[b].draws != [] && s[a].store[b].electionValue == s[b].draws[0]
  {
    hide Inv;
    PairAt(nodes, s, a, b);
  }

  /** Without a collision in sight the loop of the waiter only moves forward. */
  lemma SmoothHandle(nodes: set<Address>, a: Address, n: Node, c: Choice)
    requires Local(nodes, a, n) && Enabled(a, n, c) && Smooth(n)
    requires n.pc <= SAVE_COMPLETE && AllPresent(n.store) ==> IsUnique(n.store, a)
    ensures Smooth(RunHandler(a, n, c))
  {
    hide SentAll, OwnEntry, Flags;
    if n.pc == SEND_ELECTION {
      assert Smooth(SendElection(a, n, c.draw));
    } else if n.pc < LOOP_PRESENT || n.pc >= NOMINATE {
      SmoothElsewhere(nodes, a, n, c);
    } else {
      SmoothLoop(nodes, a, n, c);
    }
  }

  lemma SmoothElsewhere(nodes: set<Address>, a: Address, n: Node, c: Choice)
    requires Shape(nodes, a, n) && Enabled(a, n, c) && Smooth(n)
    requires n.pc < SEND_ELECTION || n.pc >= NOMINATE
    ensures Smooth(RunHandler(a, n, c))
  {
    hide RunHandler, Enabled, Shape;
    HandleKeeps(nodes, a, n, c);
  }

  lemma SmoothHead(a: Address, n: Node)
    requires Gates(n) && Smooth(n) && a in n.store && (AllPresent(n.store) ==> IsUnique(n.store, a))
    ensures n.pc == LOOP_PRESENT ==> Smooth(ReadPresent(n))
    ensures n.pc == LOOP_UNIQUE ==> Smooth(ReadUnique(a, n))
  {
    hide AllPresent, IsUnique;
  }

  lemma SmoothBody(a: Address, n: Node)
    requires Gates(n) && Smooth(n) && a in n.store && (AllPresent(n.store) ==> IsUnique(n.store, a))
    ensures n.pc == LOCK ==> Smooth(TakeLock(n))
    ensures n.pc == WAIT_PRESENT ==> Smooth(PassValues(n))
    ensures n.pc == CHECK_UNIQUE ==> Smooth(Recheck(a, n))
  {
    hide AllPresent, IsUnique;
  }

  lemma SmoothLoop(nodes: set<Address>, a: Address, n: Node, c: Choice)
    requires Gates(n) && Enabled(a, n, c) && Smooth(n) && LOOP_PRESENT <= n.pc < NOMINATE
    requires AllPresent(n.store) ==> IsUnique(n.store, a)
    ensures Smooth(RunHandler(a, n, c))
  {
    hide AllPresent, IsUnique, Gates;
    SmoothHead(a, n);
    SmoothBody(a, n);
    assert n.pc <= CHECK_UNIQUE;
    hide Smooth, ReadPresent, ReadUnique, TakeLock, PassValues, Recheck;
  }

  lemma SmoothNext(nodes: set<Address>, s: System, step: Step)
    requires Inv(nodes, s) && StepEnabled(s, step) && FirstDrawsDistinct(s) && AllSmooth(s)
    ensures AllSmooth(Next(s, step))
  {
    hide Inv, RunHandler, Enabled, Local, Smooth;
    KeysAt(nodes, s);
    match step
    case Handle(a, c) =>
      LocalAt(nodes, s, a);
      if s[a].pc <= SAVE_COMPLETE && AllPresent(s[a].store) {
        FirstDrawsUnique(nodes, s, a);
      }
      assert Smooth(s[a]);
      SmoothHandle(nodes, a, s[a], c);
    case Deliver(b, a) =>
      DeliverStep(nodes, s, b, a);
      assert Smooth(s[a]);
      SmoothDeliver(a, s[a], b, s[b]);
  }

  lemma SmoothDeliver(a: Address, n: Node, b: Address, m: Node)
    requires CanDeliver(a, n, b, m) && Smooth(n)
    ensures Smooth(Delivered(a, n, b, m))
  {
    hide Delivered;
    DeliverFrame(a, n, b, m);
    DeliverEntry(a, n, b, m);
  }

  lemma {:induction false} SmoothRun(nodes: set<Address>, run: seq<System>, steps: seq<Step>, k: nat)
    requires IsRun(nodes, run, steps) && k <= |steps| && FirstDrawsDistinct(run[k])
    ensures AllSmooth(run[k])
  {
    hide Inv, FirstDrawsDistinct, Next, StepEnabled;
    if k == 0 {
      SmoothInitial(nodes);
    } else {
      InvRun(nodes, run, steps, k - 1);
      DistinctBefore(nodes, run[k - 1], steps[k - 1]);
      SmoothRun(nodes, run, steps, k - 1);
      SmoothNext(nodes, run[k - 1], steps[k - 1]);
    }
  }

  lemma SmoothInitial(nodes: set<Address>)
    ensures AllSmooth(Initial(nodes))
  {
  }

  lemma SmoothReachable(nodes: set<Address>, s: System)
    requires Reachable(nodes, s) && FirstDrawsDistinct(s)
    ensures AllSmooth(s)
  {
    hide FirstDrawsDistinct, AllSmooth;
    var run, steps :| IsRun(nodes, run, steps) && run[|steps|] == s;
    SmoothRun(nodes, run, steps, |steps|);
  }

  lemma SmoothSettled(nodes: set<Address>, s: System)
    requires Inv(nodes, s) && AllSmooth(s) && FirstDrawsDistinct(s)
    ensures Settled(s)
  {
    hide Inv;
    KeysAt(nodes, s);
    forall a | a in s && s[a].pc >= NOMINATE
      ensures SettledAt(s, |s[a].draws|)
    {
      ShapeAt(nodes, s, a);
    }
  }

  /** With distinct first draws every state of a run is settled, and no node ever crashes. */
  lemma DistinctDrawsSettle(nodes: set<Address>, s: System)
    requires Reachable(nodes, s) && FirstDrawsDistinct(s)
    ensures Settled(s)
    ensures forall a | a in s :: !s[a].status.Crashed? && |s[a].draws| <= 1
  {
    hide Inv, FirstDrawsDistinct, Settled;
    InvReachable(nodes, s);
    SmoothReachable(nodes, s);
    SmoothSettled(nodes, s);
    AgreedReachable(nodes, s);
    forall a | a in s
      ensures !s[a].status.Crashed? && |s[a].draws| <= 1
    {
      assert Smooth(s[a]) && AgreedAt(s, a);
    }
  }
}
