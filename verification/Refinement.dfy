/**
  What it means that a method of a node process is a step of the transition system: its
  effect is that of an enabled handler, and where it waits no handler is enabled.
 */
module Refinement {
  import opened Types
  import opened StorageSpec
  import opened Buffers
  import opened Invariants
  import P = Protocol

  /** What the methods ask for, position by position. */
  ghost predicate Ready(nodes: set<Address>, self: Address, n: P.Node) {
    && self in nodes && n.store.Keys == nodes && n.sent.Keys == nodes - {self}
    && (P.INIT < n.pc <= P.SAVE_COMPLETE ==> n.condition)
    && (P.TRY_REMOVE <= n.pc <= P.SAVE_COMPLETE ==> AllConfirmed(n.store))
    && (n.pc == P.TRANSFER || n.pc == P.WAIT_DATA ==> HasValidator(n.store))
    && (n.pc > P.TRANSFER ==> n.validator in nodes && (n.isValidator <==> n.validator == self))
    && (n.pc == P.WAIT_DATA ==> forall a | a in nodes && n.store[a].isValidator :: a == n.validator)
  }

  lemma LocalReady(nodes: set<Address>, self: Address, n: P.Node)
    requires Local(nodes, self, n)
    ensures Ready(nodes, self, n)
  {
    hide SentAll, OwnEntry, AllConfirmed, AnyContributing, AllPresent;
  }

  lemma ReadyToRemove(nodes: set<Address>, self: Address, n: P.Node)
    requires Ready(nodes, self, n) && n.pc == P.TRY_REMOVE
    ensures self in n.store && AllConfirmed(n.store)
  {
  }

  /** A block that comes out of a buffer can be the input of a slot. */
  lemma FrontIsInput(v: BufferValue, now: nat)
    requires NoneEmpty(v.blocks)
    ensures var input := Front(Saved(v, now));
      input.Some? ==> input.value.state == PENDING && |input.value.data| > 0
    ensures NewBlock([], now).state == PENDING && NewBlock([], now).data == []
  {
  }

  /** `n'` is where some enabled step takes `n`. */
  ghost predicate IsStep(self: Address, n: P.Node, n': P.Node) {
    exists c :: P.Enabled(self, n, c) && n' == P.RunHandler(self, n, c)
  }

  ghost predicate IsBlocked(self: Address, n: P.Node) {
    forall c :: !P.Enabled(self, n, c)
  }

  function Chosen(draw: nat, nominee: Address, merged: Block): P.Choice {
    P.Choice(None, EMPTY_BLOCK, draw, nominee, merged)
  }

  // ----- position by position -----

  lemma SaveIsStep(self: Address, n: P.Node, c: P.Choice)
    requires self in n.store && n.status.Running? && n.pc == P.SAVE_PENDING
    requires c.input.Some? ==> c.input.value.state == PENDING && |c.input.value.data| > 0
    requires c.clock.state == PENDING && c.clock.data == []
    ensures IsStep(self, n, P.SavePendingBlock(self, n, c))
  {
    assert P.Enabled(self, n, c) && P.RunHandler(self, n, c) == P.SavePendingBlock(self, n, c);
  }

  lemma InspectionIsStep(self: Address, n: P.Node)
    requires self in n.store && n.status.Running?
    ensures n.pc == P.INIT ==> IsStep(self, n, P.Initialise(n))
    ensures n.pc == P.NOTIFY ==> IsStep(self, n, P.NotifyContribution(self, n))
    ensures n.pc == P.WAIT_INSPECTION && AllConfirmed(n.store) ==> IsStep(self, n, P.PassInspection(n))
    ensures n.pc == P.WAIT_INSPECTION && !AllConfirmed(n.store) ==> IsBlocked(self, n)
    ensures n.pc == P.TRY_REMOVE ==> IsStep(self, n, P.TryRemove(n))
  {
    var c := Chosen(0, self, EMPTY_BLOCK);
    hide AllConfirmed, AnyContributing, IsMerge, IsNominee, P.ToAll;
    if n.pc == P.INIT || n.pc == P.NOTIFY || n.pc == P.TRY_REMOVE
       || (n.pc == P.WAIT_INSPECTION && AllConfirmed(n.store)) {
      assert P.Enabled(self, n, c);
      assert IsStep(self, n, P.RunHandler(self, n, c));
    }
  }

  lemma DrawIsStep(self: Address, n: P.Node, draw: nat)
    requires self in n.store && n.status.Running? && (n.pc == P.SEND_ELECTION || n.pc == P.REDRAW)
    requires MIN_DRAW <= draw <= MAX_DRAW
    ensures IsStep(self, n, P.SendElection(self, n, draw))
  {
    var c := Chosen(draw, self, EMPTY_BLOCK);
    assert P.Enabled(self, n, c) && P.RunHandler(self, n, c) == P.SendElection(self, n, draw);
  }

  lemma LoopIsStep(self: Address, n: P.Node)
    requires self in n.store && n.status.Running?
    ensures n.pc == P.LOOP_PRESENT ==> IsStep(self, n, P.ReadPresent(n))
    ensures n.pc == P.LOOP_UNIQUE ==> IsStep(self, n, P.ReadUnique(self, n))
    ensures n.pc == P.LOCK ==> IsStep(self, n, P.TakeLock(n))
    ensures n.pc == P.WAIT_PRESENT && AllPresent(n.store) ==> IsStep(self, n, P.PassValues(n))
    ensures n.pc == P.WAIT_PRESENT && !AllPresent(n.store) ==> IsBlocked(self, n)
  {
    var c := Chosen(0, self, EMPTY_BLOCK);
    hide AllPresent, IsUnique;
    if n.pc == P.LOOP_PRESENT || n.pc == P.LOOP_UNIQUE || n.pc == P.LOCK
       || (n.pc == P.WAIT_PRESENT && AllPresent(n.store)) {
      assert P.Enabled(self, n, c);
      assert IsStep(self, n, P.RunHandler(self, n, c));
    }
  }

  lemma ResetIsStep(self: Address, n: P.Node)
    requires self in n.store && n.status.Running?
    ensures n.pc == P.CHECK_UNIQUE ==> IsStep(self, n, P.Recheck(self, n))
    ensures n.pc == P.RESET ==> IsStep(self, n, P.ResetValues(n))
    ensures n.pc == P.UNLOCK ==> IsStep(self, n, P.ReleaseLock(n))
  {
    var c := Chosen(0, self, EMPTY_BLOCK);
    hide IsUnique, ResetAll;
    if n.pc == P.CHECK_UNIQUE || n.pc == P.RESET || n.pc == P.UNLOCK {
      assert P.Enabled(self, n, c);
      assert IsStep(self, n, P.RunHandler(self, n, c));
    }
  }

  lemma NominateIsStep(self: Address, n: P.Node, nominee: Address)
    requires self in n.store && n.status.Running? && n.pc == P.NOMINATE && IsNominee(Values(n.store), nominee)
    ensures nominee in n.store && IsStep(self, n, P.NominateValidator(n, nominee))
  {
    var c := Chosen(0, nominee, EMPTY_BLOCK);
    assert P.Enabled(self, n, c) && P.RunHandler(self, n, c) == P.NominateValidator(n, nominee);
  }

  lemma TransferIsStep(self: Address, n: P.Node, validator: Address)
    requires self in n.store && n.status.Running? && n.pc == P.TRANSFER
    requires validator in n.store && n.store[validator].isValidator && (validator == self || validator in n.sent)
    ensures IsStep(self, n, P.TransferData(self, n, validator))
  {
    var c := Chosen(0, validator, EMPTY_BLOCK);
    assert P.Enabled(self, n, c) && P.RunHandler(self, n, c) == P.TransferData(self, n, validator);
  }

  lemma CollectIsStep(self: Address, n: P.Node, merged: Block)
    requires self in n.store && n.status.Running? && n.pc == P.WAIT_DATA && n.validator in n.store
    requires AllConfirmed(n.store)
    ensures n.isValidator && !Collected(n.store) ==> IsBlocked(self, n)
    ensures (n.isValidator ==> Collected(n.store) && IsMerge(n.store, n.validator, merged)) ==>
              IsStep(self, n, P.CollectData(self, n, merged))
  {
    hide AllConfirmed, Collected, IsMerge;
    var c := Chosen(0, self, merged);
    if n.isValidator ==> Collected(n.store) && IsMerge(n.store, n.validator, merged) {
      assert P.Enabled(self, n, c) && P.RunHandler(self, n, c) == P.CollectData(self, n, merged);
    }
  }

  lemma BroadcastIsStep(self: Address, n: P.Node)
    requires self in n.store && n.status.Running? && n.validator in n.store
    ensures n.pc == P.BROADCAST ==> IsStep(self, n, P.BroadcastBlock(n))
    ensures n.pc == P.CHECK_BROADCAST ==> IsStep(self, n, P.CheckBroadcast(n))
    ensures n.pc == P.WAIT_BROADCAST ==>
              if n.synchronized && n.store[n.validator].isResolved then IsStep(self, n, P.AdoptBroadcast(n))
              else IsBlocked(self, n)
    ensures n.pc == P.SAVE_COMPLETE ==> IsStep(self, n, P.SaveCompleteBlock(n))
    ensures n.pc == P.PUBLISH ==> IsStep(self, n, P.PublishBlock(n))
  {
    hide P.ToAll;
    var c := Chosen(0, self, EMPTY_BLOCK);
    if P.BROADCAST <= n.pc <= P.PUBLISH
       && (n.pc == P.WAIT_BROADCAST ==> n.synchronized && n.store[n.validator].isResolved) {
      assert P.Enabled(self, n, c);
      assert IsStep(self, n, P.RunHandler(self, n, c));
    }
  }
}
