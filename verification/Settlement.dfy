/** The agreement of a settled slot is kept by every step that leaves the slot settled. */
module Settlement {
  import opened Types
  import opened Totals
  import opened StorageSpec
  import opened Protocol
  import opened Invariants
  import opened Links
  import opened Agreement

  // ----- what does not change any more once a node has left the election -----

  lemma DrawsStable(nodes: set<Address>, s: System, step: Step, a: Address)
    requires Inv(nodes, s) && StepEnabled(s, step) && Settled(Next(s, step))
    requires a in nodes && s[a].pc >= NOMINATE
    ensures s.Keys == nodes == Next(s, step).Keys
    ensures forall b | b in nodes :: Next(s, step)[b].draws == s[b].draws
    ensures LastDraws(Next(s, step)) == LastDraws(s)
  {
    hide Inv, Settled, Last, RunHandler, Enabled, Receive;
    KeysAt(nodes, s);
    forall b | b in nodes
      ensures b in Next(s, step) && Next(s, step)[b].draws == s[b].draws
    {
      DrawsStay(nodes, s, step, a, b);
    }
  }

  lemma DrawsStay(nodes: set<Address>, s: System, step: Step, a: Address, b: Address)
    requires Inv(nodes, s) && StepEnabled(s, step) && Settled(Next(s, step))
    requires a in nodes && b in nodes && s[a].pc >= NOMINATE
    ensures b in s && b in Next(s, step) && Next(s, step)[b].draws == s[b].draws
  {
    hide Inv, Next, StepEnabled, Later;
    SettledBefore(nodes, s, step);
    SettledRound(nodes, s, a);
    DrawsGrow(nodes, s, step, a);
    DrawsGrow(nodes, s, step, b);
    assert SettledAt(Next(s, step), |Next(s, step)[a].draws|);
  }

  /** A node that has left the election has an election value of every peer. */
  lemma AllHaveDrawn(nodes: set<Address>, s: System, a: Address, b: Address)
    requires Inv(nodes, s) && a in nodes && b in nodes && s[a].pc >= NOMINATE
    ensures s.Keys == nodes && s[b].draws != []
  {
    hide Inv;
    LocalAt(nodes, s, a);
    if b != a {
      PairAt(nodes, s, a, b);
      NominatorHas(nodes, a, s[a], b, s[b]);
    }
  }

  lemma InputsStable(nodes: set<Address>, s: System, step: Step, a: Address)
    requires Inv(nodes, s) && StepEnabled(s, step)
    requires a in nodes && s[a].pc >= NOMINATE
    ensures s.Keys == nodes == Next(s, step).Keys
    ensures Inputs(Next(s, step)) == Inputs(s)
  {
    hide Inv;
    var s' := Next(s, step);
    KeysAt(nodes, s);
    assert s'.Keys == s.Keys;
    hide Next, StepEnabled;
    forall b | b in nodes
      ensures s'[b].contributing == s[b].contributing && s'[b].block == s[b].block
    {
      AllHaveDrawn(nodes, s, a, b);
      ShapeAt(nodes, s, b);
      StepLater(nodes, s, step, b);
    }
  }

  /** Only one node can be the nominee, so only one can take itself for the validator. */
  lemma OneValidator(nodes: set<Address>, s: System, a: Address, b: Address)
    requires Inv(nodes, s) && Settled(s) && Agreed(s) && a in nodes && b in nodes
    requires s[a].pc >= WAIT_DATA && s[b].pc >= WAIT_DATA
    ensures s[a].validator == s[b].validator
    ensures s[b].isValidator ==> s[a].validator == b
  {
    hide Inv, Settled, IsNominee, Distinct;
    SettledRound(nodes, s, a);
    ShapeAt(nodes, s, a);
    ShapeAt(nodes, s, b);
    assert AgreedAt(s, a) && AgreedAt(s, b);
    NomineeUnique(LastDraws(s), s[a].validator, s[b].validator);
  }

  // ----- nominees -----

  lemma MarksNominee(nodes: set<Address>, s: System, a: Address, c: Choice)
    requires Inv(nodes, s) && Settled(s) && a in nodes && s[a].pc == NOMINATE && Enabled(a, s[a], c)
    ensures a in s && c.nominee in s[a].store && IsNominee(LastDraws(s), c.nominee)
    ensures forall p | p in s[a].store && NominateValidator(s[a], c.nominee).store[p].isValidator :: p == c.nominee
  {
    hide Inv, Settled;
    LocalAt(nodes, s, a);
    assert c.nominee in s[a].store;
    hide IsNominee;
    NominatesFromLastDraws(nodes, s, a);
  }

  lemma TransferValidator(a: Address, n: Node, c: Choice)
    requires Enabled(a, n, c) && n.pc == TRANSFER
    ensures RunHandler(a, n, c).validator == c.nominee
  {
  }

  /** What a handler after the nomination does to the validator flags. */
  lemma FlagsKept(nodes: set<Address>, a: Address, n: Node, c: Choice)
    requires Shape(nodes, a, n) && Enabled(a, n, c) && TRANSFER <= n.pc
    ensures var n' := RunHandler(a, n, c);
      && n'.store.Keys == n.store.Keys
      && (n'.pc <= SAVE_COMPLETE ==> forall p | p in n.store :: n'.store[p].isValidator == n.store[p].isValidator)
      && (n.pc == TRANSFER ==> n'.validator == c.nominee && c.nominee in n.store && n.store[c.nominee].isValidator)
  {
    hide RunHandler;
    HandleKeeps(nodes, a, n, c);
    if n.pc == TRANSFER {
      TransferValidator(a, n, c);
    }
  }

  lemma NominatedHandle(nodes: set<Address>, s: System, a: Address, c: Choice)
    requires Inv(nodes, s) && StepEnabled(s, Handle(a, c)) && Settled(Next(s, Handle(a, c)))
    requires Agreed(s)
    ensures Nominated(Next(s, Handle(a, c)), a)
  {
    hide Inv, Settled, IsNominee, RunHandler, Later, Merged, Adopted;
    var step := Handle(a, c);
    var n := s[a];
    var n' := Next(s, step)[a];
    KeysAt(nodes, s);
    StepLater(nodes, s, step, a);
    SettledBefore(nodes, s, step);
    if n.pc < NOMINATE {
      assert n'.pc <= NOMINATE by { LaterPc(n, n'); }
    } else {
      DrawsStable(nodes, s, step, a);
      LaterPc(n, n');
      ShapeAt(nodes, s, a);
      if n.pc == NOMINATE {
        MarksNominee(nodes, s, a, c);
        assert n' == NominateValidator(n, c.nominee) by { RunNominate(a, n, c); }
      } else {
        assert AgreedAt(s, a);
        FlagsKept(nodes, a, n, c);
      }
    }
  }

  lemma RunNominate(a: Address, n: Node, c: Choice)
    requires Enabled(a, n, c) && n.pc == NOMINATE
    ensures RunHandler(a, n, c) == NominateValidator(n, c.nominee)
  {
  }

  lemma LaterPc(n: Node, n': Node)
    requires Later(n, n')
    ensures n.pc < NOMINATE ==> n'.pc <= NOMINATE
    ensures n.pc >= NOMINATE ==> n'.pc >= n.pc
    ensures n.pc > TRANSFER ==> n'.validator == n.validator && n'.isValidator == n.isValidator
  {
  }

  lemma NominatedOther(nodes: set<Address>, s: System, step: Step, a: Address)
    requires Inv(nodes, s) && StepEnabled(s, step) && Settled(Next(s, step))
    requires Agreed(s) && a in nodes && !(step.Handle? && step.self == a)
    ensures a in Next(s, step) && Nominated(Next(s, step), a)
  {
    hide Inv, Settled, IsNominee, RunHandler, Later, Merged, Adopted;
    KeysAt(nodes, s);
    assert AgreedAt(s, a);
    if s[a].pc >= NOMINATE {
      DrawsStable(nodes, s, step, a);
    }
    if step.Deliver? {
      DeliverStep(nodes, s, step.from, step.to);
      hide Delivered;
      if step.to == a {
        DeliverFrame(a, s[a], step.from, s[step.from]);
        var n' := Delivered(a, s[a], step.from, s[step.from]);
        assert forall p | p in s[a].store :: n'.store[p].isValidator == s[a].store[p].isValidator;
      }
    }
  }

  // ----- the validator's block -----

  lemma TakenBound(nodes: set<Address>, s: System, a: Address, b: Address)
    requires Inv(nodes, s) && a in nodes && b in nodes && a != b
    ensures s.Keys == nodes && b in s[a].taken && a in s[b].sent
    ensures s[a].taken[b] <= |s[b].sent[a]| <= 2 + |s[b].draws|
    ensures s[b].pc > NOTIFY ==>
              |s[b].sent[a]| == 1 + |s[b].draws| + (if HasTail(s[b], a) then 1 else 0)
    ensures s[a].taken[b] == 2 + |s[b].draws| ==> HasTail(s[b], a)
  {
    hide Inv, Shape, OwnEntry, Flags, Gates, Known, InRound, Passed;
    LocalAt(nodes, s, b);
    PairAt(nodes, s, a, b);
    assert SentTo(s[b], a);
  }

  lemma UploadedStays(nodes: set<Address>, s: System, step: Step, a: Address, b: Address)
    requires Inv(nodes, s) && StepEnabled(s, step) && a in nodes && b in nodes && a != b
    requires Uploaded(a, s[a], b, s[b])
    ensures a in Next(s, step) && b in Next(s, step)
    ensures Uploaded(a, Next(s, step)[a], b, Next(s, step)[b])
  {
    hide Inv, Next, StepEnabled;
    var s' := Next(s, step);
    StepLater(nodes, s, step, a);
    StepLater(nodes, s, step, b);
    InvNext(nodes, s, step);
    TakenBound(nodes, s', a, b);
  }

  lemma MergedKept(nodes: set<Address>, s: System, step: Step, a: Address)
    requires Inv(nodes, s) && StepEnabled(s, step) && Settled(s)
    requires a in nodes && s[a].pc >= BROADCAST && Merged(s, a)
    ensures a in Next(s, step) && Merged(Next(s, step), a)
  {
    hide Inv, Next, StepEnabled, Settled, Uploaded;
    var s' := Next(s, step);
    StepLater(nodes, s, step, a);
    InputsStable(nodes, s, step, a);
    if s[a].isValidator {
      forall b | b in nodes && b != a && s'[b].contributing
        ensures Uploaded(a, s'[a], b, s'[b])
      {
        assert b in Inputs(s');
        UploadedStays(nodes, s, step, a, b);
      }
    }
  }

  /** Data collected by the validator was uploaded: nobody else can have broadcast. */
  lemma CollectedUpload(nodes: set<Address>, s: System, a: Address, b: Address)
    requires Inv(nodes, s) && Settled(s) && Agreed(s) && a in nodes && b in nodes && a != b
    requires s[a].pc == WAIT_DATA && s[a].isValidator && Collected(s[a].store) && s[b].contributing
    ensures b in s[a].store && s[a].store[b].block == s[b].block && Uploaded(a, s[a], b, s[b])
  {
    hide Inv, Settled, Agreed;
    ContributionKnown(nodes, s, a, b);
    PairAt(nodes, s, a, b);
    TakenBound(nodes, s, a, b);
    ShapeAt(nodes, s, a);
    assert s[a].taken[b] == 2 + |s[b].draws|;
    if s[b].isValidator {
      OneValidator(nodes, s, a, b);
      assert false;
    }
  }

  lemma OwnBlock(nodes: set<Address>, s: System, a: Address)
    requires Inv(nodes, s) && a in nodes && s[a].pc == WAIT_DATA
    ensures a in s[a].store && s[a].store.Keys == nodes
    ensures s[a].store[a].block == s[a].block && s[a].store[a].isContributing == Some(s[a].contributing)
    ensures !s[a].contributing ==> s[a].block.data == []
    ensures AllConfirmed(s[a].store)
  {
    LocalAt(nodes, s, a);
  }

  /** The contributions the validator merges are the inputs of the slot. */
  lemma MergesInputs(nodes: set<Address>, s: System, a: Address, merged: Block)
    requires Inv(nodes, s) && Settled(s) && Agreed(s) && a in nodes
    requires s[a].pc == WAIT_DATA && s[a].isValidator && Collected(s[a].store)
    requires a in s[a].store && IsMerge(s[a].store, a, merged)
    ensures IsComplete(s, merged)
    ensures forall b | b in s && b != a && s[b].contributing :: Uploaded(a, s[a], b, s[b])
  {
    hide Inv, Settled, Agreed, Collected, Uploaded, Sorted;
    KeysAt(nodes, s);
    OwnBlock(nodes, s, a);
    var store := s[a].store;
    forall b | b in nodes
      ensures store[b].isContributing == Some(s[b].contributing)
      ensures s[b].contributing ==> store[b].block == s[b].block
      ensures s[b].contributing && b != a ==> Uploaded(a, s[a], b, s[b])
    {
      if b != a {
        ContributionKnown(nodes, s, a, b);
        if s[b].contributing {
          CollectedUpload(nodes, s, a, b);
        }
      }
    }
    assert Contributions(store) == Inputs(s);
    if s[a].contributing {
      GatherRemove(Inputs(s), a);
    } else {
      assert Inputs(s) - {a} == Inputs(s);
    }
  }

  lemma RunCollect(a: Address, n: Node, c: Choice)
    requires Enabled(a, n, c) && n.pc == WAIT_DATA && AllConfirmed(n.store)
    ensures RunHandler(a, n, c).isValidator == n.isValidator
    ensures n.isValidator ==> RunHandler(a, n, c).broadcastBlock == c.merged
                              && Collected(n.store) && IsMerge(n.store, n.validator, c.merged)
  {
  }

  lemma MergedHandle(nodes: set<Address>, s: System, a: Address, c: Choice)
    requires Inv(nodes, s) && StepEnabled(s, Handle(a, c)) && Settled(Next(s, Handle(a, c)))
    requires Agreed(s)
    ensures Merged(Next(s, Handle(a, c)), a)
  {
    hide Inv, Settled, RunHandler, Later, IsMerge, Collected, Uploaded, Enabled, Nominated, Adopted, IsComplete, Shape;
    var step := Handle(a, c);
    var s' := Next(s, step);
    KeysAt(nodes, s);
    SettledBefore(nodes, s, step);
    StepLater(nodes, s, step, a);
    if s[a].pc > TRANSFER {
      ValidatorIsSelf(nodes, s, a);
    }
    assert AgreedAt(s, a);
    if s[a].pc >= BROADCAST {
      MergedKept(nodes, s, step, a);
    } else if s[a].pc == WAIT_DATA && s[a].isValidator {
      OwnBlock(nodes, s, a);
      RunCollect(a, s[a], c);
      MergesInputs(nodes, s, a, c.merged);
      InputsStable(nodes, s, step, a);
      assert IsComplete(s', c.merged) by { SameInputs(s, s', c.merged); }
      forall b | b in nodes && b != a && s'[b].contributing
        ensures Uploaded(a, s'[a], b, s'[b])
      {
        UploadedStays(nodes, s, step, a, b);
      }
    } else {
      ShapeAt(nodes, s, a);
      NotYetMerged(nodes, a, s[a], c);
    }
  }

  lemma ValidatorIsSelf(nodes: set<Address>, s: System, a: Address)
    requires Inv(nodes, s) && a in nodes && s[a].pc > TRANSFER
    ensures s[a].validator in nodes && (s[a].isValidator <==> s[a].validator == a)
  {
    ShapeAt(nodes, s, a);
  }

  lemma SameInputs(s: System, s': System, b: Block)
    requires IsComplete(s, b) && Inputs(s') == Inputs(s)
    ensures IsComplete(s', b)
  {
  }

  lemma NotYetMerged(nodes: set<Address>, a: Address, n: Node, c: Choice)
    requires Shape(nodes, a, n) && Enabled(a, n, c) && n.pc < BROADCAST && !(n.pc == WAIT_DATA && n.isValidator)
    ensures RunHandler(a, n, c).pc >= BROADCAST ==> !RunHandler(a, n, c).isValidator
  {
    hide RunHandler, Enabled, Shape;
    HandleKeeps(nodes, a, n, c);
  }

  lemma MergedOther(nodes: set<Address>, s: System, step: Step, a: Address)
    requires Inv(nodes, s) && StepEnabled(s, step) && Settled(s) && Agreed(s)
    requires a in nodes && !(step.Handle? && step.self == a)
    ensures a in Next(s, step) && Merged(Next(s, step), a)
  {
    hide Inv, Settled, RunHandler, Nominated, Adopted, IsComplete, Uploaded;
    KeysAt(nodes, s);
    assert AgreedAt(s, a);
    if s[a].pc >= BROADCAST {
      MergedKept(nodes, s, step, a);
    } else if step.Deliver? {
      DeliverStep(nodes, s, step.from, step.to);
      hide Delivered;
      if step.to == a {
        DeliverFrame(a, s[a], step.from, s[step.from]);
      }
    }
  }

  // ----- the other nodes' block -----

  lemma AdoptedKept(nodes: set<Address>, s: System, step: Step, a: Address)
    requires Inv(nodes, s) && StepEnabled(s, step)
    requires a in nodes && s[a].pc >= SAVE_COMPLETE && Adopted(s, a)
    ensures a in Next(s, step) && Adopted(Next(s, step), a)
  {
    hide Inv, Next, StepEnabled;
    var s' := Next(s, step);
    KeysAt(nodes, s);
    StepLater(nodes, s, step, a);
    if !s[a].isValidator {
      var v := s[a].validator;
      StepLater(nodes, s, step, v);
      InvNext(nodes, s, step);
      TakenBound(nodes, s', a, v);
    }
  }

  /** An entry marked resolved holds what its validator has broadcast. */
  lemma ResolvedEntry(nodes: set<Address>, s: System, a: Address, v: Address)
    requires Inv(nodes, s) && a in nodes && v in nodes && a != v && s[a].pc < SAVE_COMPLETE
    requires v in s[a].store && s[a].store[v].isResolved
    ensures s[v].isValidator && s[v].pc >= CHECK_BROADCAST
    ensures s[a].store[v].block == s[v].broadcastBlock
    ensures v in s[a].taken && s[a].taken[v] == 2 + |s[v].draws|
  {
    hide Inv;
    PairAt(nodes, s, a, v);
    TakenBound(nodes, s, a, v);
  }

  lemma RunAdopt(nodes: set<Address>, a: Address, n: Node, c: Choice)
    requires Shape(nodes, a, n) && Enabled(a, n, c) && (n.pc == CHECK_BROADCAST || n.pc == WAIT_BROADCAST)
    ensures var n' := RunHandler(a, n, c);
      && n'.isValidator == n.isValidator && n'.validator == n.validator && n'.taken == n.taken
      && n.validator in n.store
      && (n'.pc >= SAVE_COMPLETE && !n'.isValidator ==>
            n.store[n.validator].isResolved && n'.broadcastBlock == n.store[n.validator].block)
  {
    if n.pc == CHECK_BROADCAST {
    } else {
    }
  }

  lemma AdoptedHandle(nodes: set<Address>, s: System, a: Address, c: Choice)
    requires Inv(nodes, s) && StepEnabled(s, Handle(a, c)) && Adopted(s, a)
    ensures Adopted(Next(s, Handle(a, c)), a)
  {
    hide Inv, RunHandler, Enabled, Keeps, Shape;
    var step := Handle(a, c);
    var n := s[a];
    KeysAt(nodes, s);
    ShapeAt(nodes, s, a);
    if n.pc >= SAVE_COMPLETE {
      AdoptedKept(nodes, s, step, a);
    } else if n.pc < CHECK_BROADCAST {
      LowPc(nodes, a, n, c);
    } else {
      RunAdopt(nodes, a, n, c);
      ValidatorIsSelf(nodes, s, a);
      if RunHandler(a, n, c).pc >= SAVE_COMPLETE && !n.isValidator {
        ResolvedEntry(nodes, s, a, n.validator);
      }
    }
  }

  lemma LowPc(nodes: set<Address>, a: Address, n: Node, c: Choice)
    requires Shape(nodes, a, n) && Enabled(a, n, c) && n.pc < CHECK_BROADCAST
    ensures RunHandler(a, n, c).pc <= CHECK_BROADCAST
  {
    hide RunHandler, Enabled, Shape;
    HandleKeeps(nodes, a, n, c);
  }

  lemma AdoptedOther(nodes: set<Address>, s: System, step: Step, a: Address)
    requires Inv(nodes, s) && StepEnabled(s, step) && a in s && Adopted(s, a)
    requires a in nodes && !(step.Handle? && step.self == a)
    ensures a in Next(s, step) && Adopted(Next(s, step), a)
  {
    hide Inv, RunHandler, Enabled;
    KeysAt(nodes, s);
    if s[a].pc >= SAVE_COMPLETE {
      AdoptedKept(nodes, s, step, a);
    } else if step.Deliver? {
      DeliverStep(nodes, s, step.from, step.to);
      hide Delivered;
      if step.to == a {
        DeliverFrame(a, s[a], step.from, s[step.from]);
      }
    }
  }

  // ----- nothing is left in flight to a node that is done -----

  lemma DrainedFrom(nodes: set<Address>, s: System, a: Address, b: Address)
    requires Inv(nodes, s) && Settled(s) && Agreed(s) && a in nodes && b in nodes && a != b
    requires s[a].pc >= SAVE_COMPLETE
    ensures b in s[a].taken && a in s[b].sent && s[a].taken[b] == |s[b].sent[a]|
    ensures s[b].pc > SEND_ELECTION
  {
    hide Inv, Settled, Nominated, IsComplete;
    SettledPeer(nodes, s, a, b);
    ShapeAt(nodes, s, b);
    TakenBound(nodes, s, a, b);
    assert AgreedAt(s, a);
    ValidatorIsSelf(nodes, s, a);
    if HasTail(s[b], a) {
      OneValidator(nodes, s, a, b);
    }
  }

  lemma RelockHandle(nodes: set<Address>, s: System, a: Address, c: Choice)
    requires Inv(nodes, s) && StepEnabled(s, Handle(a, c))
    ensures OnlyRelock(Next(s, Handle(a, c))[a])
  {
    hide Inv;
    KeysAt(nodes, s);
    InvNext(nodes, s, Handle(a, c));
    LocalAt(nodes, Next(s, Handle(a, c)), a);
    hide Local;
    if s[a].pc >= SAVE_COMPLETE {
      FinishStatus(a, s[a], c);
    } else {
      ShapeAt(nodes, s, a);
      hide RunHandler, Enabled, Shape;
      HandleKeeps(nodes, a, s[a], c);
    }
  }

  lemma FinishStatus(a: Address, n: Node, c: Choice)
    requires Enabled(a, n, c) && n.pc >= SAVE_COMPLETE
    ensures RunHandler(a, n, c).status == n.status == Running
  {
  }

  lemma RelockOther(nodes: set<Address>, s: System, step: Step, a: Address)
    requires Inv(nodes, s) && StepEnabled(s, step) && Settled(s) && Agreed(s)
    requires a in nodes && !(step.Handle? && step.self == a)
    ensures a in Next(s, step) && OnlyRelock(Next(s, step)[a])
  {
    hide Inv, Settled, Nominated, Merged, Adopted, RunHandler, Enabled;
    KeysAt(nodes, s);
    if step.Deliver? {
      DeliverStep(nodes, s, step.from, step.to);
      hide Delivered;
      if step.to == a && s[a].pc > SAVE_COMPLETE {
        DrainedFrom(nodes, s, a, step.from);
      } else if step.to == a {
        InvNext(nodes, s, step);
        LocalAt(nodes, Next(s, step), a);
        DeliverFrame(a, s[a], step.from, s[step.from]);
      }
    }
  }

  // ----- every reachable settled state -----

  lemma AgreedNode(nodes: set<Address>, s: System, step: Step, a: Address)
    requires Inv(nodes, s) && StepEnabled(s, step) && Settled(Next(s, step)) && Agreed(s) && a in nodes
    ensures a in Next(s, step) && AgreedAt(Next(s, step), a)
  {
    hide Inv, Settled, Nominated, Merged, Adopted, OnlyRelock, RunHandler, Enabled, Receive;
    SettledBefore(nodes, s, step);
    KeysAt(nodes, s);
    assert AgreedAt(s, a);
    if step.Handle? && step.self == a {
      NominatedHandle(nodes, s, a, step.choice);
      MergedHandle(nodes, s, a, step.choice);
      AdoptedHandle(nodes, s, a, step.choice);
      RelockHandle(nodes, s, a, step.choice);
    } else {
      NominatedOther(nodes, s, step, a);
      MergedOther(nodes, s, step, a);
      AdoptedOther(nodes, s, step, a);
      RelockOther(nodes, s, step, a);
    }
  }

  lemma AgreedNext(nodes: set<Address>, s: System, step: Step)
    requires Inv(nodes, s) && StepEnabled(s, step) && Settled(Next(s, step)) && Agreed(s)
    ensures Agreed(Next(s, step))
  {
    hide Inv, Settled, AgreedAt, RunHandler, Enabled, Receive;
    var s' := Next(s, step);
    KeysAt(nodes, s);
    assert s'.Keys == nodes;
    hide Next, StepEnabled;
    forall a | a in s'
      ensures AgreedAt(s', a)
    {
      AgreedNode(nodes, s, step, a);
    }
  }

  lemma AgreedInitial(nodes: set<Address>)
    ensures Agreed(Initial(nodes))
  {
  }

  lemma {:induction false} AgreedRun(nodes: set<Address>, run: seq<System>, steps: seq<Step>, k: nat)
    requires IsRun(nodes, run, steps) && k <= |steps| && Settled(run[k])
    ensures Inv(nodes, run[k]) && Agreed(run[k])
  {
    InvRun(nodes, run, steps, k);
    hide Inv, Settled, Agreed, Next, StepEnabled;
    if k == 0 {
      AgreedInitial(nodes);
    } else {
      InvRun(nodes, run, steps, k - 1);
      SettledBefore(nodes, run[k - 1], steps[k - 1]);
      AgreedRun(nodes, run, steps, k - 1);
      AgreedNext(nodes, run[k - 1], steps[k - 1]);
    }
  }

  lemma AgreedReachable(nodes: set<Address>, s: System)
    requires Reachable(nodes, s) && Settled(s)
    ensures Inv(nodes, s) && Agreed(s)
  {
    hide Inv, Settled, Agreed;
    var run, steps :| IsRun(nodes, run, steps) && run[|steps|] == s;
    AgreedRun(nodes, run, steps, |steps|);
  }
}
