/**
  What the nodes agree on. Facts of all runs come first; the rest holds in every state
  whose elections are settled, which includes every state where all nodes have nominated
  and every state whose first draws are pairwise distinct.
 */
module Agreement {
  import opened Types
  import opened Totals
  import opened StorageSpec
  import opened Protocol
  import opened Invariants
  import opened Links

  // ----- contributions -----

  lemma ContributionKnown(nodes: set<Address>, s: System, a: Address, b: Address)
    requires Inv(nodes, s) && a in nodes && b in nodes && TRY_REMOVE <= s[a].pc <= SAVE_COMPLETE
    ensures s[b].pc > NOTIFY
    ensures b in s[a].store && s[a].store[b].isContributing == Some(s[b].contributing)
  {
    hide Inv;
    LocalAt(nodes, s, a);
    LocalAt(nodes, s, b);
    if a != b {
      PairAt(nodes, s, a, b);
      assert SentTo(s[b], a);
    }
  }

  // ----- settled elections -----

  ghost function LastDraws(s: System): map<Address, nat> {
    map a | a in s :: Last(s[a].draws)
  }

  /** No node draws beyond round `r`, and round `r` has no collision. */
  ghost predicate SettledAt(s: System, r: nat) {
    && (forall b | b in s :: |s[b].draws| <= r)
    && (forall b, d | b in s && d in s && b != d && |s[b].draws| == |s[d].draws| == r ::
          Last(s[b].draws) != Last(s[d].draws))
  }

  /** The election is settled at the round of every node that has left it. */
  ghost predicate Settled(s: System) {
    forall a | a in s && s[a].pc >= NOMINATE :: SettledAt(s, |s[a].draws|)
  }

  ghost predicate AllNominated(s: System) {
    forall a | a in s :: s[a].pc >= NOMINATE
  }

  ghost predicate FirstDrawsDistinct(s: System) {
    forall a, b | a in s && b in s && a != b && s[a].draws != [] && s[b].draws != [] ::
      s[a].draws[0] != s[b].draws[0]
  }

  /** Collisions or not: once every node has left the election, all of it was settled. */
  lemma AllNominatedSettled(nodes: set<Address>, s: System)
    requires Inv(nodes, s) && AllNominated(s)
    ensures Settled(s)
  {
    hide Inv;
    KeysAt(nodes, s);
    forall a, b | a in s && b in s && a != b
      ensures |s[b].draws| == |s[a].draws| && Last(s[b].draws) != Last(s[a].draws)
    {
      NominatorsApart(nodes, s, a, b);
    }
  }

  lemma NominatorsApart(nodes: set<Address>, s: System, a: Address, b: Address)
    requires Inv(nodes, s) && a in s && b in s && a != b
    requires s[a].pc >= NOMINATE && s[b].pc >= NOMINATE
    ensures |s[b].draws| == |s[a].draws| && Last(s[b].draws) != Last(s[a].draws)
  {
    hide Inv;
    KeysAt(nodes, s);
    PairAt(nodes, s, a, b);
    PairAt(nodes, s, b, a);
  }

  /** What a node that has left the election has received from a peer. */
  lemma NominatorHas(nodes: set<Address>, a: Address, n: Node, b: Address, m: Node)
    requires Local(nodes, a, n) && Pair(a, n, b, m) && a != b && b in nodes && n.pc >= NOMINATE
    ensures 0 < |n.draws| <= |m.draws| && b in n.taken && n.taken[b] >= 1 + |n.draws|
    ensures b in n.store
    ensures n.pc <= SAVE_COMPLETE && |m.draws| == |n.draws| ==> n.store[b].electionValue == Last(m.draws)
  {
    hide SentAll, OwnEntry, Flags;
    assert n.pc <= SAVE_COMPLETE ==> AllPresent(n.store);
  }

  lemma SettledPeer(nodes: set<Address>, s: System, a: Address, b: Address)
    requires Inv(nodes, s) && Settled(s) && a in nodes && b in nodes && a != b && s[a].pc >= NOMINATE
    ensures s.Keys == nodes
    ensures |s[b].draws| == |s[a].draws| > 0 && b in s[a].taken && s[a].taken[b] >= 1 + |s[b].draws|
    ensures b in s[a].store
    ensures s[a].pc <= SAVE_COMPLETE ==> s[a].store[b].electionValue == Last(s[b].draws)
  {
    hide Inv, Local, Pair;
    LocalAt(nodes, s, a);
    PairAt(nodes, s, a, b);
    NominatorHas(nodes, a, s[a], b, s[b]);
  }

  /** In a settled state with a nominator, all nodes have drawn equally often, and differently. */
  lemma SettledRound(nodes: set<Address>, s: System, a: Address)
    requires Inv(nodes, s) && Settled(s) && a in nodes && s[a].pc >= NOMINATE
    ensures s.Keys == nodes && Distinct(LastDraws(s))
    ensures forall b | b in nodes :: |s[b].draws| == |s[a].draws| > 0
  {
    hide Inv;
    LocalAt(nodes, s, a);
    forall b | b in nodes
      ensures |s[b].draws| == |s[a].draws| > 0
    {
      if b != a {
        SettledPeer(nodes, s, a, b);
      }
    }
  }

  /** Nothing a node holds is older than the last draws, so nominating uses exactly these. */
  lemma NominatesFromLastDraws(nodes: set<Address>, s: System, a: Address)
    requires Inv(nodes, s) && Settled(s) && a in nodes && NOMINATE <= s[a].pc <= SAVE_COMPLETE
    ensures Values(s[a].store) == LastDraws(s)
  {
    hide Inv, Settled;
    LocalAt(nodes, s, a);
    forall b | b in nodes
      ensures s[a].store[b].electionValue == Last(s[b].draws)
    {
      if b != a {
        SettledPeer(nodes, s, a, b);
      }
    }
  }

  // ----- what a settled slot keeps -----

  /** What all contributing nodes put into the slot. */
  ghost function Inputs(s: System): map<Address, seq<Message>> {
    map a | a in s && s[a].contributing :: s[a].block.data
  }

  /** A completed block: sorted, and made of exactly the contributed messages. */
  ghost predicate IsComplete(s: System, b: Block) {
    b.state == COMPLETED && Sorted(b.data) && multiset(b.data) == Gather(Inputs(s))
  }

  ghost predicate Nominated(s: System, a: Address)
    requires a in s
  {
    && (TRANSFER <= s[a].pc <= SAVE_COMPLETE ==>
          forall p | p in s[a].store && s[a].store[p].isValidator :: IsNominee(LastDraws(s), p))
    && (s[a].pc >= WAIT_DATA ==> IsNominee(LastDraws(s), s[a].validator))
  }

  /** `b` has uploaded its block to the validator `a`, which has received it. */
  ghost predicate Uploaded(a: Address, n: Node, b: Address, m: Node) {
    && m.pc >= WAIT_DATA && !m.isValidator
    && b in n.taken && n.taken[b] == 2 + |m.draws|
  }

  ghost predicate Merged(s: System, a: Address)
    requires a in s
  {
    s[a].pc >= BROADCAST && s[a].isValidator ==>
      && IsComplete(s, s[a].broadcastBlock)
      && forall b | b in s && b != a && s[b].contributing :: Uploaded(a, s[a], b, s[b])
  }

  ghost predicate Adopted(s: System, a: Address)
    requires a in s
  {
    s[a].pc >= SAVE_COMPLETE && !s[a].isValidator ==>
      var v := s[a].validator;
      && v in s && v != a && s[v].isValidator && s[v].pc >= CHECK_BROADCAST
      && v in s[a].taken && s[a].taken[v] == 2 + |s[v].draws|
      && s[a].broadcastBlock == s[v].broadcastBlock
  }

  /** Even after its slot is cleared, a node can only have crashed by relocking. */
  predicate OnlyRelock(n: Node) {
    n.status.Crashed? ==> n.status.reason == Relock
  }

  ghost predicate AgreedAt(s: System, a: Address)
    requires a in s
  {
    Nominated(s, a) && Merged(s, a) && Adopted(s, a) && OnlyRelock(s[a])
  }

  ghost predicate Agreed(s: System) {
    forall a | a in s :: AgreedAt(s, a)
  }

  // ----- a step only adds to what a node has done -----

  ghost predicate Later(m: Node, m': Node) {
    && m.draws <= m'.draws
    && (m.pc >= NOMINATE ==> m'.pc >= m.pc && m'.draws == m.draws)
    && (m.pc < NOMINATE ==> m'.pc <= NOMINATE)
    && (m.pc > SAVE_PENDING ==>
          m'.pc > SAVE_PENDING && m'.contributing == m.contributing && m'.block == m.block)
    && (m.pc > TRANSFER ==> m'.isValidator == m.isValidator && m'.validator == m.validator)
    && ((m.pc > WAIT_DATA && m.isValidator) || m.pc >= SAVE_COMPLETE ==>
          m'.broadcastBlock == m.broadcastBlock)
    && m'.taken.Keys == m.taken.Keys
    && (forall p | p in m.taken :: m.taken[p] <= m'.taken[p])
  }

  lemma KeptLater(nodes: set<Address>, b: Address, m: Node, m': Node)
    requires Keeps(b, m, m')
    ensures Later(m, m')
  {
  }

  lemma DeliveredLater(a: Address, n: Node, b: Address, m: Node)
    requires CanDeliver(a, n, b, m) && n.pc <= FINISHED
    ensures Later(n, Delivered(a, n, b, m))
  {
    hide Delivered;
    DeliverFrame(a, n, b, m);
  }

  lemma HandleLater(nodes: set<Address>, a: Address, n: Node, c: Choice)
    requires Shape(nodes, a, n) && Enabled(a, n, c)
    ensures Later(n, RunHandler(a, n, c))
  {
    hide RunHandler, Enabled, Shape, Later, Keeps;
    HandleKeeps(nodes, a, n, c);
    KeptLater(nodes, a, n, RunHandler(a, n, c));
  }

  lemma Unmoved(n: Node)
    requires n.pc <= FINISHED
    ensures Later(n, n)
  {
  }

  lemma StepLater(nodes: set<Address>, s: System, step: Step, a: Address)
    requires Inv(nodes, s) && StepEnabled(s, step) && a in nodes
    ensures a in s && a in Next(s, step) && Later(s[a], Next(s, step)[a])
  {
    hide Inv, Later, Enabled, RunHandler, Receive, Delivered;
    ShapeAt(nodes, s, a);
    hide Shape;
    Unmoved(s[a]);
    if step.Handle? {
      if step.self == a {
        HandleLater(nodes, a, s[a], step.choice);
      }
    } else {
      DeliverStep(nodes, s, step.from, step.to);
      if step.to == a {
        DeliveredLater(a, s[a], step.from, s[step.from]);
      }
    }
  }

  lemma ShapeAt(nodes: set<Address>, s: System, a: Address)
    requires Inv(nodes, s) && a in nodes
    ensures s.Keys == nodes && Shape(nodes, a, s[a]) && s[a].pc <= FINISHED
  {
    LocalAt(nodes, s, a);
  }

  lemma DrawsGrow(nodes: set<Address>, s: System, step: Step, a: Address)
    requires Inv(nodes, s) && StepEnabled(s, step) && a in nodes
    ensures a in s && a in Next(s, step)
    ensures s[a].draws <= Next(s, step)[a].draws
    ensures s[a].pc >= NOMINATE ==> Next(s, step)[a].pc >= NOMINATE && Next(s, step)[a].draws == s[a].draws
  {
    hide Inv, Next, StepEnabled;
    StepLater(nodes, s, step, a);
  }

  lemma SettledBack(s: System, s': System, r: nat)
    requires SettledAt(s', r) && s'.Keys == s.Keys
    requires forall a | a in s :: s[a].draws <= s'[a].draws
    ensures SettledAt(s, r)
  {
    forall b | b in s
      ensures |s[b].draws| <= r && (|s[b].draws| == r ==> s'[b].draws == s[b].draws)
    {
      assert |s'[b].draws| <= r;
    }
  }

  lemma SettledBefore(nodes: set<Address>, s: System, step: Step)
    requires Inv(nodes, s) && StepEnabled(s, step) && Settled(Next(s, step))
    ensures Settled(s)
  {
    hide Inv, SettledAt, Later;
    KeysAt(nodes, s);
    var s' := Next(s, step);
    assert s'.Keys == s.Keys;
    hide Next, StepEnabled;
    forall a | a in s
      ensures s[a].draws <= s'[a].draws
      ensures s[a].pc >= NOMINATE ==> s'[a].pc >= NOMINATE && s'[a].draws == s[a].draws
    {
      DrawsGrow(nodes, s, step, a);
    }
    forall a | a in s && s[a].pc >= NOMINATE
      ensures SettledAt(s, |s[a].draws|)
    {
      SettledBack(s, s', |s'[a].draws|);
    }
  }

  // ----- facts of all runs -----

  lemma DecidedNext(nodes: set<Address>, s: System, step: Step)
    requires Inv(nodes, s) && StepEnabled(s, step) && Decided(s)
    ensures Decided(Next(s, step))
  {
    hide Inv, Next, StepEnabled;
    var s' := Next(s, step);
    KeysAt(nodes, s);
    InvNext(nodes, s, step);
    KeysAt(nodes, s');
    forall a | a in s' && s'[a].pc > TRY_REMOVE
      ensures exists d | d in s' :: s'[d].contributing && s'[d].pc > SAVE_PENDING
    {
      var d: Address;
      if s[a].pc > TRY_REMOVE {
        d :| d in s && s[d].contributing && s[d].pc > SAVE_PENDING;
        StepLater(nodes, s, step, d);
      } else {
        StepLater(nodes, s, step, a);
        d := LeavesRemoval(nodes, s', a);
      }
    }
  }

  lemma {:induction false} DecidedRun(nodes: set<Address>, run: seq<System>, steps: seq<Step>, k: nat)
    requires IsRun(nodes, run, steps) && k <= |steps|
    ensures Decided(run[k])
  {
    hide Inv, Decided, Next, StepEnabled;
    if k == 0 {
      assert Decided(Initial(nodes)) by { InitialUndecided(nodes); }
    } else {
      DecidedRun(nodes, run, steps, k - 1);
      InvRun(nodes, run, steps, k - 1);
      DecidedNext(nodes, run[k - 1], steps[k - 1]);
    }
  }

  lemma InitialUndecided(nodes: set<Address>)
    ensures Decided(Initial(nodes))
  {
  }

  lemma DecidedReachable(nodes: set<Address>, s: System)
    requires Reachable(nodes, s)
    ensures Decided(s)
  {
    hide Decided;
    var run, steps :| IsRun(nodes, run, steps) && run[|steps|] == s;
    DecidedRun(nodes, run, steps, |steps|);
  }

  lemma LeavesRemoval(nodes: set<Address>, s: System, a: Address) returns (d: Address)
    requires Inv(nodes, s) && a in s && TRY_REMOVE < s[a].pc <= SAVE_COMPLETE
    ensures d in s && s[d].contributing && s[d].pc > SAVE_PENDING
  {
    hide Inv;
    KeysAt(nodes, s);
    LocalAt(nodes, s, a);
    d :| d in s[a].store && s[a].store[d].isContributing == Some(true);
    ContributionKnown(nodes, s, a, d);
  }

  lemma KeysAt(nodes: set<Address>, s: System)
    requires Inv(nodes, s)
    ensures s.Keys == nodes
  {
  }

  /** Nodes past inspection know the same contributions, namely the actual ones. */
  lemma ContributionsAgree(nodes: set<Address>, s: System, a: Address, b: Address, d: Address)
    requires Reachable(nodes, s) && a in s && b in s && d in s
    requires TRY_REMOVE <= s[a].pc <= SAVE_COMPLETE && TRY_REMOVE <= s[b].pc <= SAVE_COMPLETE
    ensures d in s[a].store && d in s[b].store
    ensures s[a].store[d].isContributing == s[b].store[d].isContributing == Some(s[d].contributing)
  {
    hide Inv;
    InvReachable(nodes, s);
    KeysAt(nodes, s);
    ContributionKnown(nodes, s, a, d);
    ContributionKnown(nodes, s, b, d);
  }

  /** A node that went past the removal of its placeholder knows of a contributor. */
  ghost predicate Decided(s: System) {
    forall a | a in s && s[a].pc > TRY_REMOVE :: exists d | d in s :: s[d].contributing && s[d].pc > SAVE_PENDING
  }

  /** Either every node that decides drops its placeholder, or every one goes on. */
  lemma UnanimousRemoval(nodes: set<Address>, s: System, a: Address)
    requires Reachable(nodes, s) && a in s && s[a].status.Stopped?
    ensures forall b | b in s :: !s[b].contributing && NOTIFY < s[b].pc <= TRY_REMOVE
  {
    hide Inv;
    InvReachable(nodes, s);
    DecidedReachable(nodes, s);
    KeysAt(nodes, s);
    LocalAt(nodes, s, a);
    forall b | b in s
      ensures !s[b].contributing && s[b].pc > NOTIFY
    {
      ContributionKnown(nodes, s, a, b);
    }
  }

  /** Election values are exchanged round by round. */
  lemma RoundDiscipline(nodes: set<Address>, s: System, a: Address, b: Address)
    requires Reachable(nodes, s) && a in s && b in s && a != b
    ensures b in s[a].taken
    ensures |s[a].draws| <= ElectionsTaken(s[a].taken[b], s[b]) + 1
    ensures |s[a].draws| - |s[b].draws| <= 1 && |s[b].draws| - |s[a].draws| <= 1
    ensures s[a].pc >= NOMINATE ==> |s[a].draws| <= ElectionsTaken(s[a].taken[b], s[b])
    ensures s[a].pc <= SAVE_COMPLETE && b in s[a].store && s[a].store[b].electionValue != 0 ==>
              var round := ElectionsTaken(s[a].taken[b], s[b]);
              0 < round && |s[a].draws| <= round && s[a].store[b].electionValue == s[b].draws[round - 1]
    ensures s[a].pc >= NOMINATE && s[b].pc >= NOMINATE ==>
              |s[a].draws| == |s[b].draws| && Last(s[a].draws) != Last(s[b].draws)
  {
    hide Inv;
    InvReachable(nodes, s);
    if s[a].pc >= NOMINATE && s[b].pc >= NOMINATE {
      NominatorsApart(nodes, s, a, b);
    }
    KeysAt(nodes, s);
    PairAt(nodes, s, a, b);
    PairAt(nodes, s, b, a);
  }

  /** Until its slot is cleared, a node reads no missing contribution and no missing condition. */
  lemma CausalSafety(nodes: set<Address>, s: System, a: Address)
    requires Reachable(nodes, s) && a in s && s[a].pc <= SAVE_COMPLETE
    ensures s[a].status.Crashed? ==> s[a].status.reason == Relock
    ensures s[a].pc >= TRY_REMOVE ==> AllConfirmed(s[a].store)
    ensures s[a].pc > INIT ==> s[a].condition
  {
    hide Inv;
    InvReachable(nodes, s);
    KeysAt(nodes, s);
    LocalAt(nodes, s, a);
  }

}
