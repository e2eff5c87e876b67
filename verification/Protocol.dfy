/**
  One slot as a transition system over any set of nodes. A node runs the handlers of
  `SlotHandler` in order, and receives packets in the order each sender published them.
  Every step changes the record of exactly one node.
 */
module Protocol {
  import opened Types
  import opened StorageSpec

  // Program positions: the initialisation done by the timer, then the thirteen handlers;
  // `waitForNodesElection` and `waitForBroadcast` take several positions.
  const INIT: nat := 0
  const SAVE_PENDING: nat := 1
  const NOTIFY: nat := 2
  const WAIT_INSPECTION: nat := 3
  const TRY_REMOVE: nat := 4
  const SEND_ELECTION: nat := 5
  const LOOP_PRESENT: nat := 6
  const LOOP_UNIQUE: nat := 7
  const LOCK: nat := 8
  const WAIT_PRESENT: nat := 9
  const CHECK_UNIQUE: nat := 10
  const RESET: nat := 11
  const UNLOCK: nat := 12
  const REDRAW: nat := 13
  const NOMINATE: nat := 14
  const TRANSFER: nat := 15
  const WAIT_DATA: nat := 16
  const BROADCAST: nat := 17
  const CHECK_BROADCAST: nat := 18
  const WAIT_BROADCAST: nat := 19
  const SAVE_COMPLETE: nat := 20
  const PUBLISH: nat := 21
  const FINISHED: nat := 22

  datatype CrashReason =
    | Relock           // the election loop locks a mutex it already holds
    | EmptyOptional    // `isContributing.value()` on an unknown contribution
    | NullCondition    // the synchronization context of the slot does not exist
    | NoSuchEntry      // the chain has no entry at the remembered index

  datatype Status = Running | Stopped | Crashed(reason: CrashReason)

  datatype Node = Node(
    pc: nat,
    status: Status,
    lockHeld: bool,
    // ConsensusStorage, restricted to this slot
    store: SlotView,
    synchronized: bool,
    condition: bool,
    // SlotContext
    block: Block,
    contributing: bool,
    validator: Address,
    isValidator: bool,
    broadcastBlock: Block,
    // every value drawn, everything published to each peer, and how much of what
    // each peer published has been received
    draws: seq<nat>,
    sent: map<Address, seq<Packet>>,
    taken: map<Address, nat>)

  type System = map<Address, Node>

  /** Everything a handler does not decide itself: the popped block, the draw, the map order. */
  datatype Choice = Choice(input: Option<Block>, clock: Block, draw: nat, nominee: Address, merged: Block)

  function InitialNode(nodes: set<Address>, self: Address): Node {
    Node(INIT, Running, false,
         map a | a in nodes :: FRESH_CONTEXT, false, false,
         EMPTY_BLOCK, false, Address(""), false, EMPTY_BLOCK,
         [], map a | a in nodes - {self} :: [], map a | a in nodes - {self} :: 0)
  }

  function Initial(nodes: set<Address>): System {
    map a | a in nodes :: InitialNode(nodes, a)
  }

  function ToAll(sent: map<Address, seq<Packet>>, p: Packet): (r: map<Address, seq<Packet>>)
    ensures r.Keys == sent.Keys
  {
    map a | a in sent :: sent[a] + [p]
  }

  // ----- the handlers -----

  function Initialise(n: Node): Node {
    n.(pc := SAVE_PENDING, condition := true)
  }

  function SavePendingBlock(self: Address, n: Node, c: Choice): Node
    requires self in n.store
  {
    var block := if c.input.Some? then c.input.value else c.clock;
    n.(pc := NOTIFY,
    block := block,
    contributing := c.input.Some?,
    store := n.store[self := n.store[self].(block := block)])
  }

  function NotifyContribution(self: Address, n: Node): Node
    requires self in n.store
  {
    n.(pc := WAIT_INSPECTION,
    sent := ToAll(n.sent, Inspection(n.contributing)),
    store := n.store[self := n.store[self].(isContributing := Some(n.contributing))])
  }

  function PassInspection(n: Node): Node {
    n.(pc := TRY_REMOVE, synchronized := false)
  }

  function TryRemove(n: Node): Node {
    var proceed := AllConfirmed(n.store) && AnyContributing(n.store);
    n.(pc := if proceed then SEND_ELECTION else n.pc,
    status := if proceed then n.status
    else if AllConfirmed(n.store) then Stopped
    else Crashed(EmptyOptional))
  }

  /** Draws a value, stores it, and sends it to everybody. */
  function SendElection(self: Address, n: Node, draw: nat): Node
    requires self in n.store
  {
    n.(pc := LOOP_PRESENT,
    sent := ToAll(n.sent, Election(draw)),
    draws := n.draws + [draw],
    store := n.store[self := n.store[self].(electionValue := draw)])
  }

  // The loop of `ElectionWaiter::wait`; every access to the storage is a step of its own.

  function ReadPresent(n: Node): Node {
    n.(pc := if AllPresent(n.store) then LOOP_UNIQUE else LOCK)
  }

  /** Leaving the loop destroys the `unique_lock`, which releases it if it is held. */
  function ReadUnique(self: Address, n: Node): Node
    requires self in n.store
  {
    n.(pc := if IsUnique(n.store, self) then NOMINATE else LOCK,
    lockHeld := n.lockHeld && !IsUnique(n.store, self))
  }

  function TakeLock(n: Node): Node {
    n.(pc := if n.lockHeld then n.pc else WAIT_PRESENT,
    lockHeld := true,
    status := if n.lockHeld then Crashed(Relock) else n.status)
  }

  function PassValues(n: Node): Node {
    n.(pc := CHECK_UNIQUE)
  }

  function Recheck(self: Address, n: Node): Node
    requires self in n.store
  {
    n.(pc := if IsUnique(n.store, self) then LOOP_PRESENT else RESET)
  }

  function ResetValues(n: Node): Node {
    n.(pc := UNLOCK, store := ResetAll(n.store))
  }

  function ReleaseLock(n: Node): Node {
    n.(pc := REDRAW, synchronized := false, lockHeld := false)
  }

  function NominateValidator(n: Node, nominee: Address): Node
    requires nominee in n.store
  {
    n.(pc := TRANSFER, store := n.store[nominee := n.store[nominee].(isValidator := true)])
  }

  function TransferData(self: Address, n: Node, validator: Address): Node
    requires self in n.store
    requires validator == self || validator in n.sent
  {
    var upload := validator != self && n.contributing;
    n.(pc := WAIT_DATA,
    validator := validator,
    isValidator := validator == self,
    store :=
      if upload then n.store[self := n.store[self].(block := n.block, isResolved := true)] else n.store,
    sent := if upload then n.sent[validator := n.sent[validator] + [Upload(n.block)]] else n.sent)
  }

  function CollectData(self: Address, n: Node, merged: Block): Node
    requires self in n.store && n.validator in n.store
  {
    var crash := n.isValidator && !AllConfirmed(n.store);
    var merge := n.isValidator && !crash;
    var store := n.store[n.validator := n.store[n.validator].(block := merged)];
    n.(pc := if crash then n.pc else BROADCAST,
    status := if crash then Crashed(EmptyOptional) else n.status,
    broadcastBlock := if merge then merged else n.broadcastBlock,
    store := if merge then store[self := store[self].(isResolved := true)] else n.store,
    synchronized := n.synchronized && !merge)
  }

  function BroadcastBlock(n: Node): Node {
    n.(pc := CHECK_BROADCAST,
    sent := if n.isValidator then ToAll(n.sent, Broadcast(n.broadcastBlock)) else n.sent)
  }

  /** The early exits of `BroadcastWaiter::wait`. */
  function CheckBroadcast(n: Node): Node
    requires n.validator in n.store
  {
    var adopt := !n.isValidator && n.store[n.validator].isResolved;
    n.(pc := if n.isValidator || adopt then SAVE_COMPLETE else WAIT_BROADCAST,
    broadcastBlock := if adopt then n.store[n.validator].block else n.broadcastBlock,
    synchronized := n.synchronized && !adopt)
  }

  function AdoptBroadcast(n: Node): Node
    requires n.validator in n.store
  {
    n.(pc := SAVE_COMPLETE, broadcastBlock := n.store[n.validator].block, synchronized := false)
  }

  function SaveCompleteBlock(n: Node): Node {
    n.(pc := PUBLISH, store := map a | a in n.store :: FRESH_CONTEXT,
    condition := false, synchronized := false)
  }

  function PublishBlock(n: Node): Node {
    n.(pc := FINISHED)
  }

  /** Whether the next handler of `n` can run, with choices the source could make. */
  ghost predicate Enabled(self: Address, n: Node, c: Choice) {
    && n.status.Running? && n.pc < FINISHED && self in n.store
    && (n.pc == SAVE_PENDING ==>
          && (c.input.Some? ==> c.input.value.state == PENDING && |c.input.value.data| > 0)
          && c.clock.state == PENDING && c.clock.data == [])
    && (n.pc == WAIT_INSPECTION ==> AllConfirmed(n.store))
    && (n.pc == SEND_ELECTION || n.pc == REDRAW ==> MIN_DRAW <= c.draw <= MAX_DRAW)
    && (n.pc == WAIT_PRESENT ==> AllPresent(n.store))
    && (n.pc == NOMINATE ==> IsNominee(Values(n.store), c.nominee))
    && (n.pc == TRANSFER ==>
          && c.nominee in n.store && n.store[c.nominee].isValidator
          && (c.nominee == self || c.nominee in n.sent))
    && (n.pc >= WAIT_DATA ==> n.validator in n.store)
    && (n.pc == WAIT_DATA && n.isValidator && AllConfirmed(n.store) ==>
          Collected(n.store) && IsMerge(n.store, n.validator, c.merged))
    && (n.pc == WAIT_BROADCAST ==> n.synchronized && n.store[n.validator].isResolved)
  }

  ghost function RunHandler(self: Address, n: Node, c: Choice): Node
    requires Enabled(self, n, c)
  {
    if n.pc <= SEND_ELECTION then RunInspection(self, n, c)
    else if n.pc <= REDRAW then RunElection(self, n, c)
    else RunBroadcast(self, n, c)
  }

  ghost function RunInspection(self: Address, n: Node, c: Choice): Node
    requires Enabled(self, n, c) && n.pc <= SEND_ELECTION
  {
    if n.pc == INIT then Initialise(n)
    else if n.pc == SAVE_PENDING then SavePendingBlock(self, n, c)
    else if n.pc == NOTIFY then NotifyContribution(self, n)
    else if n.pc == WAIT_INSPECTION then PassInspection(n)
    else if n.pc == TRY_REMOVE then TryRemove(n)
    else SendElection(self, n, c.draw)
  }

  ghost function RunElection(self: Address, n: Node, c: Choice): Node
    requires Enabled(self, n, c) && LOOP_PRESENT <= n.pc <= REDRAW
  {
    if n.pc == LOOP_PRESENT then ReadPresent(n)
    else if n.pc == LOOP_UNIQUE then ReadUnique(self, n)
    else if n.pc == LOCK then TakeLock(n)
    else if n.pc == WAIT_PRESENT then PassValues(n)
    else if n.pc == CHECK_UNIQUE then Recheck(self, n)
    else if n.pc == RESET then ResetValues(n)
    else if n.pc == UNLOCK then ReleaseLock(n)
    else SendElection(self, n, c.draw)
  }

  ghost function RunBroadcast(self: Address, n: Node, c: Choice): Node
    requires Enabled(self, n, c) && n.pc >= NOMINATE
  {
    if n.pc == NOMINATE then NominateValidator(n, c.nominee)
    else if n.pc == TRANSFER then TransferData(self, n, c.nominee)
    else if n.pc == WAIT_DATA then CollectData(self, n, c.merged)
    else if n.pc == BROADCAST then BroadcastBlock(n)
    else if n.pc == CHECK_BROADCAST then CheckBroadcast(n)
    else if n.pc == WAIT_BROADCAST then AdoptBroadcast(n)
    else if n.pc == SAVE_COMPLETE then SaveCompleteBlock(n)
    else PublishBlock(n)
  }

  // ----- the receiver -----

  /** What a packet writes into the receiver's entry of its sender. */
  function Recorded(context: ConsensusContext, p: Packet): ConsensusContext {
    match p
    case Inspection(isContributing) => context.(isContributing := Some(isContributing))
    case Election(value) => context.(electionValue := value)
    case Upload(block) => context.(block := block)
    case Broadcast(block) => context.(block := block, isResolved := true)
  }

  /** Whether the callback then wakes the slot handler. */
  predicate Wakes(v: SlotView, p: Packet) {
    match p
    case Inspection(_) => AllConfirmed(v)
    case Election(_) => AllPresent(v)
    case Upload(_) => AllConfirmed(v) && Collected(v)
    case Broadcast(_) => true
  }

  /**
    The consume callback: one packet from one peer. An upload makes it look at every
    contribution; waking the handler needs the synchronization context of the slot.
   */
  function Receive(n: Node, from: Address, p: Packet): Node
    requires from in n.store && from in n.taken
  {
    var store := n.store[from := Recorded(n.store[from], p)];
    var condition := n.condition || p.Inspection?;
    n.(taken := n.taken[from := n.taken[from] + 1],
    store := store,
    condition := condition,
    synchronized := n.synchronized || (Wakes(store, p) && condition),
    status :=
      if p.Upload? && !AllConfirmed(store) then Crashed(EmptyOptional)
      else if Wakes(store, p) && !condition then Crashed(NullCondition)
      else n.status)
  }

  // ----- steps and runs -----

  datatype Step = Handle(self: Address, choice: Choice) | Deliver(from: Address, to: Address)

  ghost predicate StepEnabled(s: System, step: Step) {
    match step
    case Handle(a, c) => a in s && Enabled(a, s[a], c)
    case Deliver(from, to) =>
      && from in s && to in s && !s[to].status.Crashed?
      && to in s[from].sent && from in s[to].taken && from in s[to].store
      && s[to].taken[from] < |s[from].sent[to]|
  }

  ghost function Next(s: System, step: Step): System
    requires StepEnabled(s, step)
  {
    match step
    case Handle(a, c) => s[a := RunHandler(a, s[a], c)]
    case Deliver(from, to) => s[to := Receive(s[to], from, s[from].sent[to][s[to].taken[from]])]
  }

  /** States joined by steps. */
  ghost predicate IsPath(run: seq<System>, steps: seq<Step>) {
    && |run| == |steps| + 1
    && forall k | 0 <= k < |steps| :: StepEnabled(run[k], steps[k]) && run[k + 1] == Next(run[k], steps[k])
  }

  /** A run starts where no node has done anything. */
  ghost predicate IsRun(nodes: set<Address>, run: seq<System>, steps: seq<Step>) {
    IsPath(run, steps) && run[0] == Initial(nodes)
  }

  ghost predicate Reachable(nodes: set<Address>, s: System) {
    exists run, steps :: IsRun(nodes, run, steps) && run[|steps|] == s
  }

  lemma ReachableNext(nodes: set<Address>, s: System, step: Step)
    requires Reachable(nodes, s) && StepEnabled(s, step)
    ensures Reachable(nodes, Next(s, step))
  {
    hide StepEnabled, Next, Initial;
    var run, steps :| IsRun(nodes, run, steps) && run[|steps|] == s;
    var longer := run + [Next(s, step)];
    assert IsRun(nodes, longer, steps + [step]);
  }

  lemma ReachableInitial(nodes: set<Address>)
    ensures Reachable(nodes, Initial(nodes))
  {
    hide Initial;
    var run: seq<System> := [Initial(nodes)];
    var steps: seq<Step> := [];
    assert IsRun(nodes, run, steps) && run[|steps|] == Initial(nodes);
  }
}
