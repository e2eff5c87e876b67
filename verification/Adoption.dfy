/**
  How a node that is not the validator takes over the published block, with the two threads
  of the node interleaved: the consume callback makes its calls on the storage one at a time,
  and so do the last handlers of the slot. Only the validator's entry of the slot matters.
 */
module Adoption {
  import opened Types
  import Protocol

  /** The calls of the callback for a published block; `LookUp*` fetch the synchronization context. */
  datatype ReceiverAt = AddBlock | MarkResolved | LookUpToStore | Store | LookUpToNotify | Notify | Done | Crashed

  /** The calls of `BroadcastWaiter::wait`, then of `CompleteBlockSaver::save`. */
  datatype HandlerAt =
    | CheckResolved | WaitSynchronized | WaitResolved | GetBlock | Desynchronize | Save | ClearSlot | Cleared

  datatype State = State(
    receiver: ReceiverAt,
    handler: HandlerAt,
    // the storage: the validator's entry, and the synchronization context of the slot
    entry: ConsensusContext,
    condition: bool,
    synchronized: bool,
    // the callback's local pointer is not null
    pointer: bool,
    broadcastBlock: Block,
    saved: Option<Block>)

  datatype Step = Receiver | Handler

  /** The block has just arrived and the handler is about to enter `wait`; a flag may be left over. */
  predicate Start(s: State) {
    && s.receiver == AddBlock && s.handler == CheckResolved
    && !s.entry.isResolved && s.condition && s.saved == None
  }

  predicate Enabled(s: State, step: Step) {
    match step
    case Receiver => s.receiver != Done && s.receiver != Crashed
    case Handler => s.handler != Cleared && (s.handler == WaitSynchronized ==> s.synchronized)
  }

  function Next(s: State, step: Step, published: Block): State
    requires Enabled(s, step)
  {
    match step
    case Receiver => Received(s, published)
    case Handler => Handled(s)
  }

  function Received(s: State, published: Block): State
    requires s.receiver != Done && s.receiver != Crashed
  {
    match s.receiver
    case AddBlock => s.(receiver := MarkResolved, entry := s.entry.(block := published))
    case MarkResolved => s.(receiver := LookUpToStore, entry := s.entry.(isResolved := true))
    case LookUpToStore => s.(receiver := Store, pointer := s.condition)
    case Store =>
      s.(receiver := if s.pointer then LookUpToNotify else Crashed, synchronized := s.synchronized || s.pointer)
    case LookUpToNotify => s.(receiver := Notify, pointer := s.condition)
    case Notify => s.(receiver := if s.pointer then Done else Crashed)
  }

  function Handled(s: State): State
    requires s.handler != Cleared
  {
    match s.handler
    case CheckResolved => s.(handler := if s.entry.isResolved then GetBlock else WaitSynchronized)
    case WaitSynchronized => s.(handler := WaitResolved)
    case WaitResolved => s.(handler := if s.entry.isResolved then GetBlock else WaitSynchronized)
    case GetBlock => s.(handler := Desynchronize, broadcastBlock := s.entry.block)
    case Desynchronize => s.(handler := Save, synchronized := false)
    case Save => s.(handler := ClearSlot, saved := Some(s.broadcastBlock))
    case ClearSlot => s.(handler := Cleared, entry := FRESH_CONTEXT, condition := false)
  }

  ghost predicate IsRun(run: seq<State>, steps: seq<Step>, published: Block) {
    && |run| == |steps| + 1
    && Start(run[0])
    && forall k | 0 <= k < |steps| :: Enabled(run[k], steps[k]) && run[k + 1] == Next(run[k], steps[k], published)
  }

  predicate Waiting(s: State) {
    s.handler == CheckResolved || s.handler == WaitSynchronized || s.handler == WaitResolved
  }

  predicate Marked(s: State) {
    s.receiver != AddBlock && s.receiver != MarkResolved
  }

  predicate Inv(s: State, published: Block) {
    && (s.handler != Cleared ==>
          && s.condition
          && s.receiver != Crashed
          && (s.receiver == Store || s.receiver == Notify ==> s.pointer)
          && (s.receiver != AddBlock ==> s.entry.block == published)
          && (s.entry.isResolved <==> Marked(s)))
    && (!Waiting(s) ==> Marked(s))
    && (!Waiting(s) && s.handler != GetBlock ==> s.broadcastBlock == published)
    && (s.handler == ClearSlot || s.handler == Cleared ==> s.saved == Some(published))
    && (Waiting(s) && Marked(s) && s.receiver != LookUpToStore && s.receiver != Store ==> s.synchronized)
    && (s.handler == Cleared ==> !s.condition)
  }

  lemma InvNext(s: State, step: Step, published: Block)
    requires Inv(s, published) && Enabled(s, step)
    ensures Inv(Next(s, step, published), published)
  {
  }

  lemma {:induction false} InvRun(run: seq<State>, steps: seq<Step>, published: Block, k: nat)
    requires IsRun(run, steps, published) && k <= |steps|
    ensures Inv(run[k], published)
  {
    if k > 0 {
      InvRun(run, steps, published, k - 1);
      InvNext(run[k - 1], steps[k - 1], published);
    }
  }

  /**
    Whatever the interleaving: the mark is never seen before the block is stored, a handler
    that has left `wait` by either exit holds the published block, and so does the chain.
   */
  lemma AdoptsPublished(run: seq<State>, steps: seq<Step>, published: Block, k: nat)
    requires IsRun(run, steps, published) && k <= |steps|
    ensures run[k].entry.isResolved ==> run[k].entry.block == published
    ensures !Waiting(run[k]) && run[k].handler != GetBlock ==> run[k].broadcastBlock == published
    ensures run[k].handler == ClearSlot || run[k].handler == Cleared ==> run[k].saved == Some(published)
    ensures Waiting(run[k]) ==> run[k].broadcastBlock == run[0].broadcastBlock && run[k].saved == None
  {
    InvRun(run, steps, published, k);
    if run[k].entry.isResolved && run[k].handler == Cleared {
      ClearedStays(run, steps, published, k);
    }
    if Waiting(run[k]) {
      WaitingKeeps(run, steps, published, k);
    }
  }

  lemma {:induction false} ClearedStays(run: seq<State>, steps: seq<Step>, published: Block, k: nat)
    requires IsRun(run, steps, published) && k <= |steps| && run[k].handler == Cleared
    ensures run[k].entry == FRESH_CONTEXT
  {
    if k > 0 && run[k - 1].handler == Cleared {
      InvRun(run, steps, published, k - 1);
      ClearedStays(run, steps, published, k - 1);
    }
  }

  lemma {:induction false} WaitingKeeps(run: seq<State>, steps: seq<Step>, published: Block, k: nat)
    requires IsRun(run, steps, published) && k <= |steps| && Waiting(run[k])
    ensures run[k].broadcastBlock == run[0].broadcastBlock && run[k].saved == None
  {
    if k > 0 {
      WaitingKeeps(run, steps, published, k - 1);
    }
  }

  /** A handler still waiting when the callback is through can leave: the wake-up is not missed. */
  lemma WaitingCanLeave(run: seq<State>, steps: seq<Step>, published: Block, k: nat)
    requires IsRun(run, steps, published) && k <= |steps|
    requires run[k].receiver == Done && Waiting(run[k])
    ensures Enabled(run[k], Handler)
    ensures var s := Handled(run[k]);
      s.handler == GetBlock || (Enabled(s, Handler) && Handled(s).handler == GetBlock)
  {
    InvRun(run, steps, published, k);
  }

  /** The callback will dereference a null pointer, or has done so. */
  predicate Doomed(s: State) {
    !s.condition && s.receiver != Done && (s.receiver == Notify ==> !s.pointer)
  }

  /** The callback needs the synchronization context no more. */
  predicate Through(s: State) {
    s.receiver == Done || (s.receiver == Notify && s.pointer)
  }

  lemma {:induction false} FateStays(run: seq<State>, steps: seq<Step>, published: Block, k: nat, m: nat)
    requires IsRun(run, steps, published) && k <= m <= |steps|
    ensures Doomed(run[k]) ==> Doomed(run[m])
    ensures Through(run[k]) ==> Through(run[m])
  {
    if k < m {
      FateStays(run, steps, published, k, m - 1);
    }
  }

  predicate LooksUpAgain(receiver: ReceiverAt) {
    receiver != Notify && receiver != Done && receiver != Crashed
  }

  /** The handler clears the slot in step `k`. */
  predicate ClearsAt(run: seq<State>, steps: seq<Step>, k: nat) {
    k < |steps| < |run| && run[k].handler == ClearSlot && steps[k] == Handler
  }

  lemma {:induction false} ClearedOnce(run: seq<State>, steps: seq<Step>, published: Block, m: nat) returns (k: nat)
    requires IsRun(run, steps, published) && m <= |steps| && run[m].handler == Cleared
    ensures k < m && ClearsAt(run, steps, k)
  {
    if run[m - 1].handler == Cleared {
      k := ClearedOnce(run, steps, published, m - 1);
    } else {
      k := m - 1;
    }
  }

  lemma CrashAfterClearing(run: seq<State>, steps: seq<Step>, published: Block, k: nat)
    requires IsRun(run, steps, published) && ClearsAt(run, steps, k)
    requires !Enabled(run[|steps|], Receiver)
    ensures run[|steps|].receiver == Crashed <==> LooksUpAgain(run[k].receiver)
  {
    InvRun(run, steps, published, k);
    FateStays(run, steps, published, k + 1, |steps|);
  }

  /**
    The callback is not safe against the handler clearing the slot under it: it crashes
    exactly if the slot is cleared while it has one of its two lookups still to make.
   */
  lemma CrashesExactlyIfCleared(run: seq<State>, steps: seq<Step>, published: Block)
    requires IsRun(run, steps, published) && !Enabled(run[|steps|], Receiver)
    ensures run[|steps|].receiver == Crashed <==>
            exists k: nat :: ClearsAt(run, steps, k) && LooksUpAgain(run[k].receiver)
  {
    InvRun(run, steps, published, |steps|);
    if run[|steps|].receiver == Crashed {
      var k := ClearedOnce(run, steps, published, |steps|);
      CrashAfterClearing(run, steps, published, k);
    } else if k: nat :| ClearsAt(run, steps, k) && LooksUpAgain(run[k].receiver) {
      CrashAfterClearing(run, steps, published, k);
    }
  }

  /** The interleaving exists: the handler takes the early exit as soon as the mark is set. */
  lemma CallbackOvertaken(s: State, published: Block) returns (run: seq<State>, steps: seq<Step>)
    requires Start(s)
    ensures IsRun(run, steps, published)
    ensures run[0] == s && run[|steps|].receiver == Crashed && run[|steps|].saved == Some(published)
  {
    var s2 := Received(Received(s, published), published);
    var s4 := Handled(Handled(s2));
    var s6 := Handled(Handled(s4));
    var s7 := Handled(s6);
    var s8 := Received(s7, published);
    steps := [Receiver, Receiver, Handler, Handler, Handler, Handler, Handler, Receiver, Receiver];
    run := [s, Received(s, published), s2, Handled(s2), s4, Handled(s4), s6, s7, s8, Received(s8, published)];
  }

  /** Without interleaving, the calls of the callback amount to one receiving step of the slot. */
  lemma AtomicCallback(s: State, n: Protocol.Node, from: Address, published: Block)
    requires s.receiver == AddBlock && from in n.store && from in n.taken && n.status == Protocol.Running
    requires s.entry == n.store[from] && s.condition == n.condition && s.synchronized == n.synchronized
    ensures var m := Protocol.Receive(n, from, Broadcast(published));
      var t := Received(Received(Received(Received(s, published), published), published), published);
      && t.entry == m.store[from] && t.condition == m.condition && t.synchronized == m.synchronized
      && (t.receiver == Crashed <==> m.status == Protocol.Crashed(Protocol.NullCondition))
      && (t.receiver == LookUpToNotify ==> Received(Received(t, published), published) == t.(receiver := Done))
  {
  }

  /** Likewise for the early exit of the handler. */
  lemma AtomicEarlyExit(s: State, n: Protocol.Node)
    requires s.handler == CheckResolved && s.entry.isResolved
    requires n.validator in n.store && s.entry == n.store[n.validator] && !n.isValidator
    ensures var m, t := Protocol.CheckBroadcast(n), Handled(Handled(Handled(s)));
      && t.handler == Save && m.pc == Protocol.SAVE_COMPLETE
      && t.broadcastBlock == m.broadcastBlock && !t.synchronized && !m.synchronized
      && t.entry == m.store[n.validator]
  {
  }

  /** Likewise for one turn of its wait: it passes with the flag raised and the mark set, or waits on. */
  lemma AtomicWait(s: State, n: Protocol.Node)
    requires s.handler == WaitSynchronized && s.synchronized == n.synchronized
    requires n.validator in n.store && s.entry == n.store[n.validator]
    ensures Enabled(s, Handler) && s.entry.isResolved ==>
              var m, t := Protocol.AdoptBroadcast(n), Handled(Handled(Handled(Handled(s))));
              && t.handler == Save && m.pc == Protocol.SAVE_COMPLETE
              && t.broadcastBlock == m.broadcastBlock && !t.synchronized && !m.synchronized
              && t.entry == m.store[n.validator]
    ensures Enabled(s, Handler) && !s.entry.isResolved ==> Handled(Handled(s)) == s
  {
  }
}
