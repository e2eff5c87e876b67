/**
  With distinct first draws a slot cannot get stuck, and it ends: some step is always
  possible until every node is done, and every step uses up a bounded budget.
 */
module Progress {
  import opened Types
  import opened StorageSpec
  import opened Protocol
  import opened Invariants
  import opened Agreement
  import opened Settlement
  import opened Slot

  ghost predicate Done(n: Node) {
    n.pc == FINISHED || n.status.Stopped?
  }

  ghost predicate AllDone(s: System) {
    forall a | a in s :: Done(s[a])
  }

  ghost predicate Ready(a: Address, n: Node) {
    exists c :: Enabled(a, n, c)
  }

  /** Every packet published has been received. */
  ghost predicate Quiescent(s: System) {
    forall a, b | a in s && b in s && a != b && b in s[a].taken && a in s[b].sent ::
      s[a].taken[b] == |s[b].sent[a]|
  }

  /** A slot with distinct first draws, as every reachable one of them is. */
  ghost predicate Calm(nodes: set<Address>, s: System) {
    Inv(nodes, s) && Settled(s) && Agreed(s) && AllSmooth(s) && Decided(s)
  }

  lemma CalmReachable(nodes: set<Address>, s: System)
    requires Reachable(nodes, s) && FirstDrawsDistinct(s)
    ensures Calm(nodes, s)
  {
    hide Inv, Settled, Agreed, AllSmooth, Decided, FirstDrawsDistinct;
    DistinctDrawsSettle(nodes, s);
    AgreedReachable(nodes, s);
    SmoothReachable(nodes, s);
    DecidedReachable(nodes, s);
  }

  // ----- which handlers can run -----

  const ANY_BLOCK := EMPTY_BLOCK

  predicate Waits(n: Node) {
    || n.pc == WAIT_INSPECTION || n.pc == WAIT_PRESENT || n.pc == WAIT_BROADCAST || n.pc == FINISHED
    || (n.pc == WAIT_DATA && n.isValidator)
  }

  /** A handler that does not wait can always run. */
  lemma RunsFreely(nodes: set<Address>, a: Address, n: Node)
    requires Local(nodes, a, n) && n.status.Running? && !Waits(n)
    ensures Ready(a, n)
  {
    hide SentAll, OwnEntry, Gates, IsNominee, IsMerge;
    var c := Choice(None, ANY_BLOCK, MIN_DRAW, a, ANY_BLOCK);
    if n.pc == NOMINATE {
      assert a in Values(n.store);
      var p := NomineeExists(Values(n.store));
      c := c.(nominee := p);
    } else if n.pc == TRANSFER {
      var p :| p in n.store && n.store[p].isValidator;
      c := c.(nominee := p);
    }
    assert Enabled(a, n, c);
  }

  lemma PassesWait(nodes: set<Address>, a: Address, n: Node)
    requires Local(nodes, a, n) && n.status.Running?
    requires n.pc == WAIT_INSPECTION || n.pc == WAIT_PRESENT || n.pc == WAIT_BROADCAST
    requires n.pc == WAIT_INSPECTION ==> AllConfirmed(n.store)
    requires n.pc == WAIT_PRESENT ==> AllPresent(n.store)
    requires n.pc == WAIT_BROADCAST ==> n.validator in n.store && n.store[n.validator].isResolved
    ensures Ready(a, n)
  {
    hide SentAll, OwnEntry, Flags, IsNominee, IsMerge;
    assert Enabled(a, n, Choice(None, ANY_BLOCK, MIN_DRAW, a, ANY_BLOCK));
  }

  lemma PassesCollection(nodes: set<Address>, a: Address, n: Node)
    requires Local(nodes, a, n) && n.status.Running? && n.pc == WAIT_DATA && Collected(n.store)
    ensures Ready(a, n)
  {
    hide SentAll, OwnEntry, Flags, IsNominee, IsMerge;
    assert n.validator in n.store;
    var merged := MergeExists(n.store, n.validator);
    assert Enabled(a, n, Choice(None, ANY_BLOCK, MIN_DRAW, a, merged));
  }

  // ----- a quiescent slot opens its gates one after the other -----

  lemma QuietPeer(nodes: set<Address>, s: System, a: Address, b: Address)
    requires Inv(nodes, s) && Quiescent(s) && a in nodes && b in nodes && a != b && s[b].pc > NOTIFY
    ensures s.Keys == nodes && a in s[b].sent && b in s[a].taken
    ensures s[a].taken[b] == 1 + |s[b].draws| + (if HasTail(s[b], a) then 1 else 0)
  {
    hide Inv;
    TakenBound(nodes, s, a, b);
  }

  lemma InspectionOpens(nodes: set<Address>, s: System, a: Address)
    requires Inv(nodes, s) && Quiescent(s) && a in nodes && s[a].pc == WAIT_INSPECTION
    requires forall b | b in nodes :: b in s && s[b].pc > NOTIFY
    ensures AllConfirmed(s[a].store)
  {
    hide Inv, Quiescent;
    LocalAt(nodes, s, a);
    hide SentAll, Flags, Gates;
    forall b | b in nodes
      ensures s[a].store[b].isContributing.Some?
    {
      if b != a {
        QuietPeer(nodes, s, a, b);
        PairAt(nodes, s, a, b);
      }
    }
  }

  lemma ElectionOpens(nodes: set<Address>, s: System, a: Address)
    requires Inv(nodes, s) && AllSmooth(s) && Quiescent(s) && a in nodes && s[a].pc == WAIT_PRESENT
    requires forall b | b in nodes :: b in s && s[b].pc > SEND_ELECTION
    ensures AllPresent(s[a].store)
  {
    hide Inv, Quiescent;
    LocalAt(nodes, s, a);
    hide SentAll, Flags, Gates;
    assert Smooth(s[a]);
    forall b | b in nodes
      ensures s[a].store[b].electionValue > 0
    {
      if b != a {
        QuietPeer(nodes, s, a, b);
        ShapeAt(nodes, s, b);
        PairAt(nodes, s, a, b);
      }
    }
  }

  lemma UploadArrived(nodes: set<Address>, s: System, a: Address, b: Address)
    requires Inv(nodes, s) && Settled(s) && Agreed(s) && Quiescent(s)
    requires a in nodes && b in nodes && a != b && b in s && s[a].pc == WAIT_DATA && s[a].isValidator
    requires s[b].pc >= WAIT_DATA && s[b].contributing
    ensures b in s[a].store && |s[a].store[b].block.data| > 0
  {
    hide Inv, Quiescent, Settled, Agreed;
    OneValidator(nodes, s, a, b);
    ShapeAt(nodes, s, a);
    ShapeAt(nodes, s, b);
    QuietPeer(nodes, s, a, b);
    PairAt(nodes, s, a, b);
  }

  lemma CollectionOpens(nodes: set<Address>, s: System, a: Address)
    requires Inv(nodes, s) && Settled(s) && Agreed(s) && Quiescent(s)
    requires a in nodes && s[a].pc == WAIT_DATA && s[a].isValidator
    requires forall b | b in nodes :: b in s && s[b].pc >= WAIT_DATA
    ensures Collected(s[a].store)
  {
    hide Inv, Quiescent, Settled, Agreed;
    LocalAt(nodes, s, a);
    hide SentAll, Flags, Gates;
    forall b | b in nodes && s[a].store[b].isContributing == Some(true)
      ensures |s[a].store[b].block.data| > 0
    {
      if b != a {
        ContributionKnown(nodes, s, a, b);
        UploadArrived(nodes, s, a, b);
      }
    }
  }

  lemma BroadcastOpens(nodes: set<Address>, s: System, a: Address)
    requires Inv(nodes, s) && Settled(s) && Agreed(s) && Quiescent(s)
    requires a in nodes && s[a].pc == WAIT_BROADCAST
    requires forall b | b in nodes :: b in s && s[b].pc >= WAIT_BROADCAST
    ensures s[a].validator in s[a].store && s[a].store[s[a].validator].isResolved
  {
    hide Inv, Quiescent, Settled, Agreed;
    ShapeAt(nodes, s, a);
    var v := s[a].validator;
    OneValidator(nodes, s, a, v);
    ShapeAt(nodes, s, v);
    QuietPeer(nodes, s, a, v);
    PairAt(nodes, s, a, v);
  }

  // ----- no deadlock -----

  ghost predicate Stuck(s: System) {
    && Quiescent(s)
    && forall a | a in s :: !Ready(a, s[a]) && !s[a].status.Crashed?
  }

  lemma StuckWaits(nodes: set<Address>, s: System, a: Address)
    requires Inv(nodes, s) && Stuck(s) && a in nodes
    ensures a in s && (s[a].status.Stopped? || Waits(s[a]))
  {
    hide Inv, Quiescent, Ready, Local;
    LocalAt(nodes, s, a);
    if s[a].status.Running? && !Waits(s[a]) {
      RunsFreely(nodes, a, s[a]);
    }
  }

  lemma StuckPastInspection(nodes: set<Address>, s: System, a: Address)
    requires Calm(nodes, s) && Stuck(s) && a in nodes
    ensures a in s && (s[a].status.Stopped? || s[a].pc > TRY_REMOVE)
  {
    hide Inv, Quiescent, Ready, Settled, Agreed, AllSmooth, Decided;
    forall b | b in nodes
      ensures b in s && s[b].pc > NOTIFY
    {
      StuckWaits(nodes, s, b);
      StoppedAt(nodes, s, b);
    }
    StuckWaits(nodes, s, a);
    if s[a].pc == WAIT_INSPECTION && s[a].status.Running? {
      InspectionOpens(nodes, s, a);
      LocalAt(nodes, s, a);
      hide Local;
      PassesWait(nodes, a, s[a]);
    }
  }

  lemma StoppedAt(nodes: set<Address>, s: System, a: Address)
    requires Inv(nodes, s) && a in nodes
    ensures a in s && (s[a].status.Stopped? ==> s[a].pc == TRY_REMOVE)
  {
    LocalAt(nodes, s, a);
  }

  lemma StoppedTogether(nodes: set<Address>, s: System, a: Address)
    requires Inv(nodes, s) && Decided(s) && a in nodes && a in s && s[a].status.Stopped?
    ensures forall b | b in nodes :: b in s && s[b].pc <= TRY_REMOVE
  {
    hide Inv;
    LocalAt(nodes, s, a);
    hide SentAll, Flags, OwnEntry;
    forall b | b in nodes
      ensures !s[b].contributing
    {
      ContributionKnown(nodes, s, a, b);
    }
  }

  lemma StuckAllWait(nodes: set<Address>, s: System, a: Address)
    requires Calm(nodes, s) && Stuck(s) && a in nodes && a in s && !s[a].status.Stopped?
    ensures forall b | b in nodes :: b in s && s[b].pc > TRY_REMOVE && s[b].status.Running? && Waits(s[b])
  {
    hide Inv, Quiescent, Ready, Settled, Agreed, AllSmooth, Decided;
    StuckPastInspection(nodes, s, a);
    forall b | b in nodes
      ensures b in s && s[b].pc > TRY_REMOVE && s[b].status.Running? && Waits(s[b])
    {
      StuckPastInspection(nodes, s, b);
      StuckWaits(nodes, s, b);
      if s[b].status.Stopped? {
        StoppedTogether(nodes, s, b);
      }
    }
  }

  lemma StuckPastElection(nodes: set<Address>, s: System, a: Address)
    requires Calm(nodes, s) && Stuck(s) && a in nodes
    requires forall b | b in nodes :: b in s && s[b].pc > TRY_REMOVE && s[b].status.Running? && Waits(s[b])
    ensures s[a].pc != WAIT_PRESENT
  {
    hide Inv, Quiescent, Ready, Settled, Agreed, AllSmooth, Decided;
    if s[a].pc == WAIT_PRESENT {
      ElectionOpens(nodes, s, a);
      LocalAt(nodes, s, a);
      hide Local;
      PassesWait(nodes, a, s[a]);
    }
  }

  lemma StuckPastCollection(nodes: set<Address>, s: System, a: Address)
    requires Calm(nodes, s) && Stuck(s) && a in nodes
    requires forall b | b in nodes :: b in s && s[b].pc >= WAIT_DATA && s[b].status.Running? && Waits(s[b])
    ensures s[a].pc != WAIT_DATA
  {
    hide Inv, Quiescent, Ready, Settled, Agreed, AllSmooth, Decided;
    if s[a].pc == WAIT_DATA {
      CollectionOpens(nodes, s, a);
      LocalAt(nodes, s, a);
      hide Local;
      PassesCollection(nodes, a, s[a]);
    }
  }

  lemma StuckFinished(nodes: set<Address>, s: System, a: Address)
    requires Calm(nodes, s) && Stuck(s) && a in nodes
    requires forall b | b in nodes :: b in s && s[b].pc >= WAIT_BROADCAST && s[b].status.Running? && Waits(s[b])
    ensures s[a].pc == FINISHED
  {
    hide Inv, Quiescent, Ready, Settled, Agreed, AllSmooth, Decided;
    if s[a].pc == WAIT_BROADCAST {
      BroadcastOpens(nodes, s, a);
      LocalAt(nodes, s, a);
      hide Local;
      PassesWait(nodes, a, s[a]);
    }
  }

  lemma StuckIsDone(nodes: set<Address>, s: System)
    requires Calm(nodes, s) && Stuck(s)
    ensures AllDone(s)
  {
    hide Inv, Quiescent, Ready, Settled, Agreed, AllSmooth, Decided, Calm, Stuck;
    assert s.Keys == nodes by { CalmKeys(nodes, s); }
    if a :| a in s && !s[a].status.Stopped? {
      StuckAllWait(nodes, s, a);
      forall b | b in nodes
        ensures s[b].pc >= WAIT_DATA
      {
        StuckPastElection(nodes, s, b);
      }
      forall b | b in nodes
        ensures s[b].pc >= WAIT_BROADCAST
      {
        StuckPastCollection(nodes, s, b);
      }
      forall b | b in nodes
        ensures s[b].pc == FINISHED
      {
        StuckFinished(nodes, s, b);
      }
    }
  }

  lemma CalmKeys(nodes: set<Address>, s: System)
    requires Calm(nodes, s)
    ensures s.Keys == nodes
  {
    KeysAt(nodes, s);
  }

  /** A slot with distinct first draws is never stuck before every node is done. */
  lemma NoDeadlock(nodes: set<Address>, s: System)
    requires Reachable(nodes, s) && FirstDrawsDistinct(s) && !AllDone(s)
    ensures exists step :: StepEnabled(s, step)
  {
    hide Inv, Settled, Agreed, AllSmooth, Decided, FirstDrawsDistinct, AllDone, Enabled;
    CalmReachable(nodes, s);
    DistinctDrawsSettle(nodes, s);
    if !Quiescent(s) {
      var a, b :| a in s && b in s && a != b && b in s[a].taken && a in s[b].sent
                  && s[a].taken[b] != |s[b].sent[a]|;
      KeysAt(nodes, s);
      TakenBound(nodes, s, a, b);
      ShapeAt(nodes, s, a);
      assert StepEnabled(s, Deliver(b, a));
    } else if a :| a in s && Ready(a, s[a]) {
      var c :| Enabled(a, s[a], c);
      assert StepEnabled(s, Handle(a, c));
    } else {
      StuckIsDone(nodes, s);
    }
  }
}
