/**
  What every completed block holds, in all runs, settled or not: the messages of exactly the
  contributing nodes. Nodes may nominate different validators, but a validator completes a
  block only with the data of every contributor, and a contributor uploads to one validator.
 */
module Conservation {
  import opened Types
  import opened Totals
  import opened StorageSpec
  import opened Protocol
  import opened Invariants
  import opened Links
  import opened Agreement
  import opened Settlement

  /** `b` is the only contributor, and a validator that has published its block. */
  ghost predicate Alone(s: System, b: Address) {
    && b in s && s[b].isValidator && s[b].pc > BROADCAST
    && forall d | d in s && s[d].contributing :: d == b
  }

  ghost predicate HandedIn(s: System, a: Address, b: Address)
    requires b in s
  {
    (s[b].pc >= WAIT_DATA && !s[b].isValidator && s[b].validator == a) || Alone(s, b)
  }

  /** A validator that has merged has a complete block, and every contributor has handed in its data. */
  ghost predicate Gathered(s: System, a: Address)
    requires a in s
  {
    s[a].pc >= BROADCAST && s[a].isValidator ==>
      && IsComplete(s, s[a].broadcastBlock)
      && forall b | b in s && b != a && s[b].contributing :: HandedIn(s, a, b)
  }

  ghost predicate AllGathered(s: System) {
    forall a | a in s :: Gathered(s, a) && Adopted(s, a)
  }

  // ----- what stays -----

  lemma HandedInStays(nodes: set<Address>, s: System, step: Step, a: Address, b: Address)
    requires Inv(nodes, s) && StepEnabled(s, step) && a in nodes && b in nodes && s[a].pc >= BROADCAST
    requires HandedIn(s, a, b)
    ensures b in Next(s, step) && HandedIn(Next(s, step), a, b)
  {
    hide Inv, Next, StepEnabled;
    var s' := Next(s, step);
    KeysAt(nodes, s);
    StepLater(nodes, s, step, b);
    InputsStable(nodes, s, step, a);
    if Alone(s, b) {
      forall d | d in s' && s'[d].contributing
        ensures d == b
      {
        assert d in Inputs(s');
      }
    }
  }

  lemma GatheredKept(nodes: set<Address>, s: System, step: Step, a: Address)
    requires Inv(nodes, s) && StepEnabled(s, step) && a in nodes && s[a].pc >= BROADCAST && Gathered(s, a)
    ensures a in Next(s, step) && Gathered(Next(s, step), a)
  {
    hide Inv, Next, StepEnabled, HandedIn;
    var s' := Next(s, step);
    KeysAt(nodes, s);
    StepLater(nodes, s, step, a);
    InputsStable(nodes, s, step, a);
    if s[a].isValidator {
      SameInputs(s, s', s[a].broadcastBlock);
      forall b | b in s' && b != a && s'[b].contributing
        ensures HandedIn(s', a, b)
      {
        assert b in Inputs(s');
        HandedInStays(nodes, s, step, a, b);
      }
    }
  }

  // ----- merging -----

  /** What a validator that finds all data collected holds of a contributor: its upload or its broadcast. */
  lemma HoldsTail(nodes: set<Address>, s: System, a: Address, b: Address)
    requires Inv(nodes, s) && a in nodes && b in nodes && a != b
    requires s[a].pc == WAIT_DATA && Collected(s[a].store) && s[b].contributing
    ensures b in s[a].store && HasTail(s[b], a) && s[a].store[b].block == TailBlock(s[b])
  {
    hide Inv;
    ContributionKnown(nodes, s, a, b);
    PairAt(nodes, s, a, b);
    TakenBound(nodes, s, a, b);
    assert s[a].taken[b] == 2 + |s[b].draws|;
  }

  /** A contributor that has broadcast is the only one: every other one has uploaded to it, and not to `a`. */
  lemma BroadcasterIsAlone(nodes: set<Address>, s: System, a: Address, b: Address)
    requires Inv(nodes, s) && AllGathered(s) && a in nodes && b in nodes && a != b
    requires s[a].pc == WAIT_DATA && s[a].isValidator && Collected(s[a].store)
    requires s[b].contributing && s[b].isValidator
    ensures Alone(s, b) && IsComplete(s, s[b].broadcastBlock) && s[a].store[b].block == s[b].broadcastBlock
  {
    hide Inv, IsComplete, Collected, Adopted;
    KeysAt(nodes, s);
    HoldsTail(nodes, s, a, b);
    assert Gathered(s, b);
    forall d | d in s && s[d].contributing
      ensures d == b
    {
      if d != b {
        assert HandedIn(s, b, d);
        if d != a {
          HoldsTail(nodes, s, a, d);
        }
      }
    }
  }

  lemma UploaderBlock(nodes: set<Address>, s: System, a: Address, b: Address)
    requires Inv(nodes, s) && a in nodes && b in nodes && a != b
    requires s[a].pc == WAIT_DATA && Collected(s[a].store) && s[b].contributing && !s[b].isValidator
    ensures b in s[a].store && s[a].store[b].block == s[b].block && HandedIn(s, a, b)
  {
    hide Inv, Collected;
    HoldsTail(nodes, s, a, b);
  }

  /** Nobody else has broadcast: the merge is that of the uploads. */
  lemma MergesUploads(nodes: set<Address>, s: System, a: Address, merged: Block)
    requires Inv(nodes, s) && a in nodes && s[a].pc == WAIT_DATA && Collected(s[a].store)
    requires forall b | b in s && b != a && s[b].contributing :: !s[b].isValidator
    requires a in s[a].store && IsMerge(s[a].store, a, merged)
    ensures IsComplete(s, merged)
    ensures forall b | b in s && b != a && s[b].contributing :: HandedIn(s, a, b)
  {
    hide Inv, Collected, HandedIn, Sorted;
    KeysAt(nodes, s);
    OwnBlock(nodes, s, a);
    var store := s[a].store;
    forall b | b in nodes
      ensures store[b].isContributing == Some(s[b].contributing)
      ensures s[b].contributing ==> store[b].block == s[b].block
      ensures s[b].contributing && b != a ==> HandedIn(s, a, b)
    {
      if b != a {
        ContributionKnown(nodes, s, a, b);
        if s[b].contributing {
          UploaderBlock(nodes, s, a, b);
        }
      }
    }
    assert Contributions(store) == Inputs(s);
    if s[a].contributing {
      GatherRemove(Inputs(s), a);
    } else {
      assert Inputs(s) - {a} == Inputs(s);
    }
  }

  lemma SoleHandsIn(s: System, a: Address, b: Address)
    requires Alone(s, b)
    ensures forall d | d in s && d != a && s[d].contributing :: HandedIn(s, a, d)
  {
  }

  lemma SoleContribution(v: SlotView, a: Address, b: Address)
    requires a in v && b in v && a != b && forall d | d in v :: v[d].isContributing == Some(d == b)
    ensures Contributions(v) - {a} == map[b := v[b].block.data]
  {
  }

  lemma SoleMerge(v: SlotView, a: Address, b: Address, merged: Block)
    requires a in v && b in v && a != b && forall d | d in v :: v[d].isContributing == Some(d == b)
    requires v[a].block.data == [] && IsMerge(v, a, merged)
    ensures merged.state == COMPLETED && Sorted(merged.data) && multiset(merged.data) == multiset(v[b].block.data)
  {
    SoleContribution(v, a, b);
    hide Gather, Sorted, Contributions;
    GatherOne(b, v[b].block.data);
  }

  lemma SameDataComplete(s: System, x: Block, y: Block)
    requires IsComplete(s, x) && y.state == COMPLETED && Sorted(y.data) && multiset(y.data) == multiset(x.data)
    ensures IsComplete(s, y)
  {
    hide Sorted, Gather;
  }

  /** Another contributor has broadcast: it is the only one, and its block is what is merged. */
  lemma MergesBroadcast(nodes: set<Address>, s: System, a: Address, b: Address, merged: Block)
    requires Inv(nodes, s) && AllGathered(s) && a in nodes && b in nodes && a != b
    requires s[a].pc == WAIT_DATA && s[a].isValidator && Collected(s[a].store)
    requires s[b].contributing && s[b].isValidator
    requires a in s[a].store && IsMerge(s[a].store, a, merged)
    ensures IsComplete(s, merged)
    ensures forall d | d in s && d != a && s[d].contributing :: HandedIn(s, a, d)
  {
    BroadcasterIsAlone(nodes, s, a, b);
    SoleHandsIn(s, a, b);
    hide Inv, AllGathered, Collected, Sorted, HandedIn, IsComplete, IsMerge;
    KeysAt(nodes, s);
    OwnBlock(nodes, s, a);
    forall d | d in nodes
      ensures s[a].store[d].isContributing == Some(d == b)
    {
      if d != a {
        ContributionKnown(nodes, s, a, d);
      }
    }
    hide Alone;
    SoleMerge(s[a].store, a, b, merged);
    SameDataComplete(s, s[b].broadcastBlock, merged);
  }

  lemma GatherNothing()
    ensures Gather(map[]) == multiset{}
  {
    var none: map<Address, seq<Message>> := map[];
    assert (map k | k in none :: multiset(none[k])) == map[];
  }

  lemma GatherOne(b: Address, data: seq<Message>)
    ensures Gather(map[b := data]) == multiset(data)
  {
    var m := map[b := data];
    GatherRemove(m, b);
    assert m - {b} == map[];
    GatherNothing();
  }

  lemma MergesAll(nodes: set<Address>, s: System, a: Address, merged: Block)
    requires Inv(nodes, s) && AllGathered(s) && a in nodes
    requires s[a].pc == WAIT_DATA && s[a].isValidator && Collected(s[a].store)
    requires a in s[a].store && IsMerge(s[a].store, a, merged)
    ensures IsComplete(s, merged)
    ensures forall b | b in s && b != a && s[b].contributing :: HandedIn(s, a, b)
  {
    hide Inv, AllGathered, Collected, IsMerge, IsComplete, HandedIn;
    KeysAt(nodes, s);
    if b :| b in s && b != a && s[b].contributing && s[b].isValidator {
      MergesBroadcast(nodes, s, a, b, merged);
    } else {
      MergesUploads(nodes, s, a, merged);
    }
  }

  // ----- every reachable state -----

  lemma GatheredHandle(nodes: set<Address>, s: System, a: Address, c: Choice)
    requires Inv(nodes, s) && StepEnabled(s, Handle(a, c)) && AllGathered(s)
    ensures Gathered(Next(s, Handle(a, c)), a)
  {
    hide Inv, RunHandler, Later, IsMerge, Collected, HandedIn, Enabled, Adopted, IsComplete, Shape;
    var step := Handle(a, c);
    var s' := Next(s, step);
    KeysAt(nodes, s);
    StepLater(nodes, s, step, a);
    if s[a].pc > TRANSFER {
      ValidatorIsSelf(nodes, s, a);
    }
    assert Gathered(s, a);
    if s[a].pc >= BROADCAST {
      GatheredKept(nodes, s, step, a);
    } else if s[a].pc == WAIT_DATA && s[a].isValidator {
      OwnBlock(nodes, s, a);
      RunCollect(a, s[a], c);
      MergesAll(nodes, s, a, c.merged);
      InputsStable(nodes, s, step, a);
      SameInputs(s, s', c.merged);
      forall b | b in nodes && b != a && s'[b].contributing
        ensures HandedIn(s', a, b)
      {
        HandedInAfter(nodes, s, a, b, c);
      }
    } else {
      ShapeAt(nodes, s, a);
      NotYetMerged(nodes, a, s[a], c);
    }
  }

  /** A handler of `a` does not change what another node has handed in. */
  lemma HandedInAfter(nodes: set<Address>, s: System, a: Address, b: Address, c: Choice)
    requires Inv(nodes, s) && StepEnabled(s, Handle(a, c)) && b in nodes && b != a
    requires s[a].pc == WAIT_DATA && HandedIn(s, a, b)
    ensures b in Next(s, Handle(a, c)) && HandedIn(Next(s, Handle(a, c)), a, b)
  {
    hide Inv, RunHandler, Enabled, Shape;
    KeysAt(nodes, s);
    ShapeAt(nodes, s, a);
    HandleKeeps(nodes, a, s[a], c);
  }

  lemma GatheredOther(nodes: set<Address>, s: System, step: Step, a: Address)
    requires Inv(nodes, s) && StepEnabled(s, step) && AllGathered(s)
    requires a in nodes && !(step.Handle? && step.self == a)
    ensures a in Next(s, step) && Gathered(Next(s, step), a)
  {
    hide Inv, RunHandler, Adopted, IsComplete, HandedIn;
    KeysAt(nodes, s);
    assert Gathered(s, a);
    if s[a].pc >= BROADCAST {
      GatheredKept(nodes, s, step, a);
    } else if step.Deliver? {
      DeliverStep(nodes, s, step.from, step.to);
      hide Delivered;
      if step.to == a {
        DeliverFrame(a, s[a], step.from, s[step.from]);
      }
    }
  }

  lemma AllGatheredNext(nodes: set<Address>, s: System, step: Step)
    requires Inv(nodes, s) && StepEnabled(s, step) && AllGathered(s)
    ensures AllGathered(Next(s, step))
  {
    hide Inv, Gathered, Adopted, RunHandler, Enabled, Receive;
    var s' := Next(s, step);
    KeysAt(nodes, s);
    assert s'.Keys == nodes;
    forall a | a in s'
      ensures Gathered(s', a) && Adopted(s', a)
    {
      if step.Handle? && step.self == a {
        GatheredHandle(nodes, s, a, step.choice);
        AdoptedHandle(nodes, s, a, step.choice);
      } else {
        GatheredOther(nodes, s, step, a);
        AdoptedOther(nodes, s, step, a);
      }
    }
  }

  lemma InitialGathered(nodes: set<Address>)
    ensures AllGathered(Initial(nodes))
  {
  }

  lemma {:induction false} GatheredRun(nodes: set<Address>, run: seq<System>, steps: seq<Step>, k: nat)
    requires IsRun(nodes, run, steps) && k <= |steps|
    ensures AllGathered(run[k])
  {
    hide Inv, AllGathered, Next, StepEnabled;
    if k == 0 {
      InitialGathered(nodes);
    } else {
      InvRun(nodes, run, steps, k - 1);
      GatheredRun(nodes, run, steps, k - 1);
      AllGatheredNext(nodes, run[k - 1], steps[k - 1]);
    }
  }

  lemma GatheredReachable(nodes: set<Address>, s: System)
    requires Reachable(nodes, s)
    ensures AllGathered(s)
  {
    hide Next, StepEnabled, Initial, AllGathered;
    var run, steps :| IsRun(nodes, run, steps) && run[|steps|] == s;
    GatheredRun(nodes, run, steps, |steps|);
  }

  lemma SavedBlock(s: System, a: Address)
    requires AllGathered(s) && a in s && s[a].pc >= SAVE_COMPLETE
    ensures IsComplete(s, s[a].broadcastBlock)
  {
    hide HandedIn, IsComplete;
    assert Gathered(s, a) && Adopted(s, a);
    if !s[a].isValidator {
      assert Gathered(s, s[a].validator);
    }
  }

  /**
    In every run, collisions and disagreement included: a block that a node saves is sorted
    and holds the messages of exactly the contributing nodes, and so any two saved blocks hold
    the same messages.
   */
  lemma SavedIsComplete(nodes: set<Address>, s: System, a: Address)
    requires Reachable(nodes, s) && a in s && s[a].pc >= SAVE_COMPLETE
    ensures IsComplete(s, s[a].broadcastBlock)
    ensures forall b | b in s && s[b].pc >= SAVE_COMPLETE ::
              multiset(s[b].broadcastBlock.data) == multiset(s[a].broadcastBlock.data)
  {
    hide Reachable, AllGathered, Sorted;
    GatheredReachable(nodes, s);
    forall b | b in s && s[b].pc >= SAVE_COMPLETE
      ensures IsComplete(s, s[b].broadcastBlock)
    {
      SavedBlock(s, b);
    }
  }
}
