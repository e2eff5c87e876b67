/**
  Termination. As long as no node draws more than `rounds` values, every step uses up a
  budget fixed at the start, collisions or not; so such runs are bounded in length.
 */
module Termination {
  import opened Types
  import opened Totals
  import opened StorageSpec
  import opened Protocol
  import opened Invariants
  import opened Links
  import opened Agreement
  import opened Settlement
  import opened Slot

  /** How many handler steps a node can take before its next draw, or to the end. */
  function StepsToDraw(pc: nat, lockHeld: bool): nat {
    if pc <= SEND_ELECTION then SEND_ELECTION - pc
    else if pc == LOOP_PRESENT then (if lockHeld then 10 else 15)
    else if pc == LOOP_UNIQUE then (if lockHeld then 9 else 14)
    else if pc == LOCK then (if lockHeld then 1 else 13)
    else if pc == WAIT_PRESENT then 12
    else if pc == CHECK_UNIQUE then 11
    else if pc <= REDRAW then REDRAW - pc
    else if pc <= FINISHED then FINISHED - pc
    else 0
  }

  /** Sixteen more for every draw that is left. */
  function StepsLeft(rounds: nat, n: Node): nat {
    if !n.status.Running? then 0
    else StepsToDraw(n.pc, n.lockHeld) + 16 * (if |n.draws| <= rounds then rounds - |n.draws| else 0)
  }

  /** A peer publishes at most two packets more than it draws values. */
  function PacketsLeft(rounds: nat, taken: nat): nat {
    if taken <= rounds + 2 then rounds + 2 - taken else 0
  }

  ghost function Inbox(rounds: nat, n: Node): map<Address, nat> {
    map b | b in n.taken :: PacketsLeft(rounds, n.taken[b])
  }

  ghost function Weight(rounds: nat, n: Node): nat {
    StepsLeft(rounds, n) + Sum(Inbox(rounds, n))
  }

  ghost function Weights(rounds: nat, s: System): map<Address, nat> {
    map a | a in s :: Weight(rounds, s[a])
  }

  ghost function Budget(rounds: nat, s: System): nat {
    Sum(Weights(rounds, s))
  }

  // ----- one node -----

  lemma LoopHeadUsesStep(rounds: nat, a: Address, n: Node)
    requires n.status.Running? && a in n.store
    ensures n.pc == LOOP_PRESENT ==> StepsLeft(rounds, ReadPresent(n)) < StepsLeft(rounds, n)
    ensures n.pc == LOOP_UNIQUE ==> StepsLeft(rounds, ReadUnique(a, n)) < StepsLeft(rounds, n)
    ensures n.pc == LOCK ==> StepsLeft(rounds, TakeLock(n)) < StepsLeft(rounds, n)
  {
    hide AllPresent, IsUnique;
  }

  /** A node that goes round without a collision holds the lock, and does so at most once. */
  lemma LoopBodyUsesStep(rounds: nat, a: Address, n: Node)
    requires Gates(n) && n.status.Running? && a in n.store
    ensures n.pc == WAIT_PRESENT ==> StepsLeft(rounds, PassValues(n)) < StepsLeft(rounds, n)
    ensures n.pc == CHECK_UNIQUE ==> StepsLeft(rounds, Recheck(a, n)) < StepsLeft(rounds, n)
    ensures n.pc == RESET ==> StepsLeft(rounds, ResetValues(n)) < StepsLeft(rounds, n)
    ensures n.pc == UNLOCK ==> StepsLeft(rounds, ReleaseLock(n)) < StepsLeft(rounds, n)
  {
    hide AllPresent, IsUnique, AllConfirmed, AnyContributing;
  }

  lemma DrawUsesStep(rounds: nat, a: Address, n: Node, draw: nat)
    requires n.status.Running? && a in n.store && (n.pc == SEND_ELECTION || n.pc == REDRAW) && |n.draws| < rounds
    ensures StepsLeft(rounds, SendElection(a, n, draw)) < StepsLeft(rounds, n)
  {
  }

  lemma LoopUsesStep(rounds: nat, a: Address, n: Node, c: Choice)
    requires Gates(n) && Enabled(a, n, c) && LOOP_PRESENT <= n.pc < NOMINATE
    requires |RunHandler(a, n, c).draws| <= rounds
    ensures StepsLeft(rounds, RunHandler(a, n, c)) < StepsLeft(rounds, n)
  {
    hide AllPresent, IsUnique, Gates, StepsLeft;
    LoopHeadUsesStep(rounds, a, n);
    LoopBodyUsesStep(rounds, a, n);
    if n.pc == REDRAW {
      DrawUsesStep(rounds, a, n, c.draw);
    }
    hide ReadPresent, ReadUnique, TakeLock, PassValues, Recheck, ResetValues, ReleaseLock;
  }

  lemma ForwardUsesStep(rounds: nat, a: Address, n: Node, n': Node)
    requires Keeps(a, n, n') && n.status.Running? && n.pc < FINISHED
    requires n.pc < SEND_ELECTION || n.pc >= NOMINATE
    ensures StepsLeft(rounds, n') < StepsLeft(rounds, n)
  {
  }

  lemma EnabledRuns(a: Address, n: Node, c: Choice)
    requires Enabled(a, n, c)
    ensures n.status.Running? && n.pc < FINISHED && a in n.store
  {
  }

  lemma HandleUsesStep(nodes: set<Address>, rounds: nat, a: Address, n: Node, c: Choice)
    requires Local(nodes, a, n) && Enabled(a, n, c) && |RunHandler(a, n, c).draws| <= rounds
    ensures Weight(rounds, RunHandler(a, n, c)) < Weight(rounds, n)
  {
    hide RunHandler, Enabled, SentAll, OwnEntry, Flags, StepsLeft;
    EnabledRuns(a, n, c);
    HandleKeeps(nodes, a, n, c);
    assert Inbox(rounds, RunHandler(a, n, c)) == Inbox(rounds, n);
    if n.pc == SEND_ELECTION {
      FirstDraw(a, n, c);
      DrawUsesStep(rounds, a, n, c.draw);
    } else if LOOP_PRESENT <= n.pc < NOMINATE {
      LoopUsesStep(rounds, a, n, c);
    } else {
      ForwardUsesStep(rounds, a, n, RunHandler(a, n, c));
    }
  }

  lemma FirstDraw(a: Address, n: Node, c: Choice)
    requires Enabled(a, n, c) && n.pc == SEND_ELECTION
    ensures a in n.store && RunHandler(a, n, c) == SendElection(a, n, c.draw)
    ensures |RunHandler(a, n, c).draws| == |n.draws| + 1
  {
  }

  lemma DeliverUsesPacket(rounds: nat, a: Address, n: Node, b: Address, m: Node)
    requires CanDeliver(a, n, b, m) && |m.sent[a]| <= rounds + 2
    ensures Weight(rounds, Delivered(a, n, b, m)) < Weight(rounds, n)
  {
    hide Delivered;
    DeliverFrame(a, n, b, m);
    var n' := Delivered(a, n, b, m);
    var left := PacketsLeft(rounds, n'.taken[b]);
    assert Inbox(rounds, n') == Inbox(rounds, n)[b := left];
    SumUpdate(Inbox(rounds, n), b, left);
  }

  // ----- the whole slot -----

  lemma WeightUpdate(rounds: nat, s: System, a: Address, n: Node)
    requires a in s && Weight(rounds, n) < Weight(rounds, s[a])
    ensures Budget(rounds, s[a := n]) < Budget(rounds, s)
  {
    hide Weight;
    assert Weights(rounds, s[a := n]) == Weights(rounds, s)[a := Weight(rounds, n)];
    SumUpdate(Weights(rounds, s), a, Weight(rounds, n));
  }

  ghost predicate DrawsAtMost(s: System, rounds: nat) {
    forall a | a in s :: |s[a].draws| <= rounds
  }

  lemma StepUsesBudget(nodes: set<Address>, rounds: nat, s: System, step: Step)
    requires Reachable(nodes, s) && StepEnabled(s, step) && DrawsAtMost(Next(s, step), rounds)
    ensures Budget(rounds, Next(s, step)) < Budget(rounds, s)
  {
    hide Inv, RunHandler, Enabled, Weight, Budget, Local;
    InvReachable(nodes, s);
    KeysAt(nodes, s);
    match step
    case Handle(a, c) =>
      LocalAt(nodes, s, a);
      assert Next(s, step)[a] == RunHandler(a, s[a], c);
      HandleUsesStep(nodes, rounds, a, s[a], c);
      WeightUpdate(rounds, s, a, RunHandler(a, s[a], c));
    case Deliver(b, a) =>
      DeliverStep(nodes, s, b, a);
      TakenBound(nodes, s, a, b);
      assert Next(s, step)[a] == Delivered(a, s[a], b, s[b]);
      assert Next(s, step)[b] == s[b];
      hide Delivered;
      DeliverUsesPacket(rounds, a, s[a], b, s[b]);
      WeightUpdate(rounds, s, a, Delivered(a, s[a], b, s[b]));
  }

  /** The budget at the start: handler steps of each node, and packets to it from each peer. */
  function StepBound(size: nat, rounds: nat): nat {
    size * (5 + 16 * rounds + size * (rounds + 2))
  }

  lemma InitialWeight(nodes: set<Address>, rounds: nat, a: Address)
    requires a in nodes
    ensures Weight(rounds, InitialNode(nodes, a)) <= 5 + 16 * rounds + |nodes| * (rounds + 2)
  {
    hide Sum;
    var inbox := Inbox(rounds, InitialNode(nodes, a));
    assert inbox.Keys == nodes - {a} && |inbox.Keys| == |inbox|;
    SumBound(inbox, rounds + 2);
    OneMore(|inbox|, |nodes|, rounds + 2);
  }

  lemma InitialBudget(nodes: set<Address>, rounds: nat)
    ensures Budget(rounds, Initial(nodes)) <= StepBound(|nodes|, rounds)
  {
    hide Sum, Weight, InitialNode;
    var weights := Weights(rounds, Initial(nodes));
    assert weights.Keys == nodes && |weights.Keys| == |weights|;
    var bound := 5 + 16 * rounds + |nodes| * (rounds + 2);
    forall a | a in nodes
      ensures weights[a] <= bound
    {
      InitialWeight(nodes, rounds, a);
    }
    SumBound(weights, bound);
  }

  lemma PrefixReachable(nodes: set<Address>, run: seq<System>, steps: seq<Step>, k: nat)
    requires IsRun(nodes, run, steps) && k <= |steps|
    ensures Reachable(nodes, run[k])
  {
    hide Next, StepEnabled, Initial;
    assert IsRun(nodes, run[..k + 1], steps[..k]);
  }

  /** Draws are never taken back. */
  lemma DrawsAtMostBefore(nodes: set<Address>, rounds: nat, s: System, step: Step)
    requires Reachable(nodes, s) && StepEnabled(s, step) && DrawsAtMost(Next(s, step), rounds)
    ensures DrawsAtMost(s, rounds)
  {
    hide Reachable, Inv, Next, StepEnabled;
    InvReachable(nodes, s);
    KeysAt(nodes, s);
    forall a | a in s
      ensures |s[a].draws| <= rounds
    {
      DrawsGrow(nodes, s, step, a);
    }
  }

  lemma {:induction false} BudgetRun(nodes: set<Address>, rounds: nat, run: seq<System>, steps: seq<Step>, k: nat)
    requires IsRun(nodes, run, steps) && k <= |steps| && DrawsAtMost(run[k], rounds)
    ensures k + Budget(rounds, run[k]) <= StepBound(|nodes|, rounds)
  {
    hide DrawsAtMost, Budget, StepBound, Next, StepEnabled, Reachable;
    if k == 0 {
      InitialBudget(nodes, rounds);
    } else {
      PrefixReachable(nodes, run, steps, k - 1);
      DrawsAtMostBefore(nodes, rounds, run[k - 1], steps[k - 1]);
      BudgetRun(nodes, rounds, run, steps, k - 1);
      StepUsesBudget(nodes, rounds, run[k - 1], steps[k - 1]);
    }
  }

  /** Termination, collisions included: only drawing again and again can make a run long. */
  lemma RunIsBounded(nodes: set<Address>, rounds: nat, run: seq<System>, steps: seq<Step>)
    requires IsRun(nodes, run, steps) && DrawsAtMost(run[|steps|], rounds)
    ensures |steps| <= StepBound(|nodes|, rounds)
  {
    hide DrawsAtMost, Budget, StepBound, IsRun;
    BudgetRun(nodes, rounds, run, steps, |steps|);
  }

  /** With distinct first draws every run is bounded by the number of nodes. */
  lemma DistinctRunIsBounded(nodes: set<Address>, run: seq<System>, steps: seq<Step>)
    requires IsRun(nodes, run, steps) && FirstDrawsDistinct(run[|steps|])
    ensures |steps| <= |nodes| * (21 + 3 * |nodes|)
  {
    hide FirstDrawsDistinct, Next, StepEnabled, Initial;
    PrefixReachable(nodes, run, steps, |steps|);
    DistinctDrawsSettle(nodes, run[|steps|]);
    RunIsBounded(nodes, 1, run, steps);
  }
}
