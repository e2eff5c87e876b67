/**
  Many slots: every node takes its slots one at a time, feeding them from its buffer and
  writing their outcome to its chain. Slots share nothing but the nodes; packets of
  different slots may overtake each other, which allows more runs than one queue would.
 */
module World {
  import opened Types
  import opened Protocol
  import opened Invariants
  import opened Links
  import opened Agreement
  import opened Conservation
  import opened Slot
  import opened Buffers
  import opened Redis

  /** What a node keeps from slot to slot; `current` counts the slots it is done with. */
  datatype Site = Site(current: nat, buffer: BufferValue, chain: seq<Block>, blockIndex: int, pushed: multiset<Message>)

  datatype World = World(slots: seq<System>, sites: map<Address, Site>)

  function InitialWorld(nodes: set<Address>, count: nat): World {
    World(seq(count, _ => Initial(nodes)),
          map a | a in nodes :: Site(0, EMPTY_BUFFER, [], 0, multiset{}))
  }

  datatype WorldStep =
    | PushBatch(a: Address, messages: seq<Message>)
    | PushOne(a: Address, message: Message)
    | Work(a: Address, choice: Choice, now: nat)
    | Arrive(slot: nat, from: Address, to: Address)

  /** The block that `PendingBlockSaver::save` takes from the buffer. */
  function NextInput(site: Site, now: nat): Option<Block> {
    Front(Saved(site.buffer, now))
  }

  ghost predicate WorldEnabled(w: World, step: WorldStep) {
    match step
    case PushBatch(a, _) => a in w.sites
    case PushOne(a, _) => a in w.sites
    case Work(a, c, now) =>
      && a in w.sites && w.sites[a].current < |w.slots|
      && StepEnabled(w.slots[w.sites[a].current], Handle(a, c))
      && (w.slots[w.sites[a].current][a].pc == SAVE_PENDING ==> c.input == NextInput(w.sites[a], now))
    case Arrive(k, from, to) => k < |w.slots| && StepEnabled(w.slots[k], Deliver(from, to))
  }

  /**
    The effect on the site of a handler that takes its node from `n` to `n'`. A placeholder
    that is not there would be an exception; `ReplicatedLog.PlaceholderInPlace` rules it out.
   */
  function SiteAfter(site: Site, n: Node, n': Node, now: nat): Site {
    if n.pc == SAVE_PENDING then
      site.(buffer := Popped(Saved(site.buffer, now)),
      chain := Appended(site.chain, n'.block),
      blockIndex := |site.chain|)
    else if n.pc == TRY_REMOVE && n'.status.Stopped? then
      site.(current := site.current + 1,
      chain := match At(site.chain, site.blockIndex) case Some(b) => Removed(site.chain, b) case None => site.chain)
    else if n.pc == SAVE_COMPLETE then
      site.(chain := match Overwritten(site.chain, site.blockIndex, n.broadcastBlock)
                     case Some(chain) => chain case None => site.chain)
    else if n'.pc == FINISHED then
      site.(current := site.current + 1)
    else site
  }

  ghost function WorldNext(w: World, step: WorldStep): World
    requires WorldEnabled(w, step)
  {
    match step
    case PushBatch(a, messages) =>
      var site := w.sites[a];
      w.(sites := w.sites[a := site.(buffer := PushedAll(site.buffer, messages),
                                     pushed := site.pushed + multiset(messages))])
    case PushOne(a, message) =>
      var site := w.sites[a];
      w.(sites := w.sites[a := site.(buffer := Pushed(site.buffer, message),
                                     pushed := site.pushed + multiset{message})])
    case Work(a, c, now) =>
      var k := w.sites[a].current;
      var s' := Next(w.slots[k], Handle(a, c));
      World(w.slots[k := s'], w.sites[a := SiteAfter(w.sites[a], w.slots[k][a], s'[a], now)])
    case Arrive(k, from, to) => w.(slots := w.slots[k := Next(w.slots[k], Deliver(from, to))])
  }

  ghost predicate IsWorldRun(nodes: set<Address>, count: nat, run: seq<World>, steps: seq<WorldStep>) {
    && |run| == |steps| + 1
    && run[0] == InitialWorld(nodes, count)
    && forall k | 0 <= k < |steps| :: WorldEnabled(run[k], steps[k]) && run[k + 1] == WorldNext(run[k], steps[k])
  }

  ghost predicate WorldReachable(nodes: set<Address>, count: nat, w: World) {
    exists run, steps :: IsWorldRun(nodes, count, run, steps) && run[|steps|] == w
  }

  ghost predicate AllSettled(w: World) {
    forall k | 0 <= k < |w.slots| :: Settled(w.slots[k])
  }

  // ----- the log a node has written -----

  /** The blocks a node has completed in its first `k` slots. */
  function LogOf(slots: seq<System>, a: Address, k: nat): seq<Block>
    requires k <= |slots| && forall i | 0 <= i < k :: a in slots[i]
  {
    if k == 0 then []
    else
      LogOf(slots, a, k - 1)
      + (if slots[k - 1][a].status.Stopped? then [] else [slots[k - 1][a].broadcastBlock])
  }

  /** What the slot under way has put behind the log. */
  function Open(n: Node): seq<Block> {
    if n.pc <= SAVE_PENDING || n.status.Stopped? then []
    else if n.pc <= SAVE_COMPLETE then [n.block]
    else [n.broadcastBlock]
  }

  /** The messages a node has put into its first `k` slots. */
  function InputsOf(slots: seq<System>, a: Address, k: nat): multiset<Message>
    requires k <= |slots| && forall i | 0 <= i < k :: a in slots[i]
  {
    if k == 0 then multiset{} else InputsOf(slots, a, k - 1) + multiset(slots[k - 1][a].block.data)
  }

  function InputOf(n: Node): multiset<Message> {
    if n.pc <= SAVE_PENDING then multiset{} else multiset(n.block.data)
  }

  function OpenIn(slots: seq<System>, a: Address, k: nat): seq<Block>
    requires forall i | 0 <= i < |slots| :: a in slots[i]
  {
    if k < |slots| then Open(slots[k][a]) else []
  }

  function InputIn(slots: seq<System>, a: Address, k: nat): multiset<Message>
    requires forall i | 0 <= i < |slots| :: a in slots[i]
  {
    if k < |slots| then InputOf(slots[k][a]) else multiset{}
  }

  // ----- the invariant -----

  ghost predicate SlotOk(nodes: set<Address>, s: System) {
    Inv(nodes, s) && AllGathered(s) && Decided(s)
  }

  predicate DoneWith(n: Node) {
    n.status.Stopped? || n.pc == FINISHED
  }

  ghost predicate InOrder(slots: seq<System>, a: Address, current: nat) {
    && current <= |slots|
    && (forall k | 0 <= k < |slots| :: a in slots[k])
    && (forall k | 0 <= k < current :: DoneWith(slots[k][a]))
    && (forall k | current < k < |slots| :: slots[k][a].pc == INIT && !slots[k][a].status.Stopped?)
    && (current < |slots| ==> !DoneWith(slots[current][a]))
  }

  ghost predicate SiteOk(slots: seq<System>, a: Address, site: Site) {
    && InOrder(slots, a, site.current)
    && NoneEmpty(site.buffer.blocks)
    && site.chain == LogOf(slots, a, site.current) + OpenIn(slots, a, site.current)
    && (OpenIn(slots, a, site.current) != [] ==> site.blockIndex == |LogOf(slots, a, site.current)|)
    && site.pushed == Held(site.buffer) + InputsOf(slots, a, site.current) + InputIn(slots, a, site.current)
  }

  /** Each slot of a world is a slot of its own: what holds of one slot holds of all of them. */
  ghost predicate SlotsReachable(nodes: set<Address>, w: World) {
    forall k | 0 <= k < |w.slots| :: Reachable(nodes, w.slots[k])
  }

  ghost predicate WorldOk(nodes: set<Address>, w: World) {
    && w.sites.Keys == nodes
    && SlotsReachable(nodes, w)
    && (forall a | a in nodes :: SiteOk(w.slots, a, w.sites[a]))
  }

  // ----- slots -----

  lemma SlotOkAt(nodes: set<Address>, s: System)
    requires Reachable(nodes, s)
    ensures SlotOk(nodes, s)
  {
    hide Inv, AllGathered, Decided, Reachable;
    InvReachable(nodes, s);
    GatheredReachable(nodes, s);
    DecidedReachable(nodes, s);
  }

  lemma SlotsReachableNext(nodes: set<Address>, w: World, step: WorldStep)
    requires SlotsReachable(nodes, w) && WorldEnabled(w, step)
    ensures SlotsReachable(nodes, WorldNext(w, step))
  {
    hide Reachable, Next, StepEnabled, SiteAfter;
    match step
    case PushBatch(_, _) =>
    case PushOne(_, _) =>
    case Work(a, c, _) => ReachableNext(nodes, w.slots[w.sites[a].current], Handle(a, c));
    case Arrive(k, from, to) => ReachableNext(nodes, w.slots[k], Deliver(from, to));
  }

  // ----- a site that does not move -----

  /** A node whose record keeps its outcome, its block and its progress. */
  predicate SameOutcome(n: Node, n': Node) {
    && n'.pc == n.pc && n'.block == n.block && n'.broadcastBlock == n.broadcastBlock
    && n'.status.Stopped? == n.status.Stopped?
  }

  lemma {:induction false} SameLog(slots: seq<System>, slots': seq<System>, a: Address, k: nat)
    requires k <= |slots| == |slots'|
    requires forall i | 0 <= i < k :: a in slots[i] && a in slots'[i] && SameOutcome(slots[i][a], slots'[i][a])
    ensures LogOf(slots', a, k) == LogOf(slots, a, k)
    ensures InputsOf(slots', a, k) == InputsOf(slots, a, k)
  {
    if k > 0 {
      SameLog(slots, slots', a, k - 1);
      assert SameOutcome(slots[k - 1][a], slots'[k - 1][a]);
    }
  }

  lemma SiteUnmoved(slots: seq<System>, slots': seq<System>, a: Address, site: Site)
    requires SiteOk(slots, a, site) && |slots'| == |slots|
    requires forall i | 0 <= i < |slots| :: a in slots'[i] && (a in slots[i] ==> SameOutcome(slots[i][a], slots'[i][a]))
    ensures SiteOk(slots', a, site)
  {
    hide LogOf, InputsOf, Held;
    forall i | 0 <= i < |slots|
      ensures a in slots[i] && a in slots'[i] && SameOutcome(slots[i][a], slots'[i][a])
    {
    }
    SameLog(slots, slots', a, site.current);
  }

  /** A step of another node, or a delivery, keeps the outcome of `a` in its slot. */
  lemma OutcomeKept(nodes: set<Address>, s: System, step: Step, a: Address)
    requires Inv(nodes, s) && StepEnabled(s, step) && a in nodes && !(step.Handle? && step.self == a)
    ensures a in s && a in Next(s, step) && SameOutcome(s[a], Next(s, step)[a])
  {
    hide Inv, RunHandler, Enabled;
    KeysAt(nodes, s);
    if step.Deliver? {
      DeliverStep(nodes, s, step.from, step.to);
      hide Delivered;
      if step.to == a {
        DeliverFrame(a, s[a], step.from, s[step.from]);
        if s[a].status.Stopped? {
          StoppedStill(nodes, s, step.from, a);
        }
      }
    }
  }

  /** A delivery does not crash a stopped node. */
  lemma StoppedStill(nodes: set<Address>, s: System, b: Address, a: Address)
    requires Inv(nodes, s) && StepEnabled(s, Deliver(b, a)) && a in s && s[a].status.Stopped?
    ensures Next(s, Deliver(b, a))[a].status == s[a].status
  {
    hide Inv;
    DeliverStep(nodes, s, b, a);
    LocalAt(nodes, s, a);
    LocalAt(nodes, s, b);
    PairAt(nodes, s, a, b);
    PairAt(nodes, s, b, a);
    DeliverUnharmed(nodes, a, s[a], b, s[b]);
    hide Local, Pair, Delivered, Receive;
    DeliverEntry(a, s[a], b, s[b]);
  }

  // ----- the site of the node that works -----

  lemma TakeFromBuffer(v: BufferValue, now: nat)
    requires NoneEmpty(v.blocks)
    ensures NoneEmpty(Saved(v, now).blocks) && NoneEmpty(Popped(Saved(v, now)).blocks)
    ensures Held(v) == Held(Popped(Saved(v, now)))
                       + (match Front(Saved(v, now)) case Some(b) => multiset(b.data) case None => multiset{})
  {
    if v.messages != [] {
      DataOfConcat(v.blocks, [NewBlock(v.messages, now)]);
      assert DataOf([NewBlock(v.messages, now)]) == multiset(v.messages);
    }
  }

  lemma RunSave(a: Address, n: Node, c: Choice)
    requires Enabled(a, n, c) && n.pc == SAVE_PENDING
    ensures var n' := RunHandler(a, n, c);
      && n'.pc == NOTIFY && n'.status == n.status
      && (c.input.Some? ==> n'.block == c.input.value)
      && (c.input.None? ==> n'.block == c.clock && c.clock.data == [])
      && (n'.contributing <==> c.input.Some?)
  {
  }

  /** Every block a node has completed is marked completed. */
  lemma {:induction false} LogCompleted(nodes: set<Address>, slots: seq<System>, a: Address, k: nat)
    requires k <= |slots| && a in nodes
    requires forall i | 0 <= i < k :: a in slots[i] && DoneWith(slots[i][a])
    requires forall i | 0 <= i < k :: SlotOk(nodes, slots[i])
    ensures forall i | 0 <= i < |LogOf(slots, a, k)| :: LogOf(slots, a, k)[i].state == COMPLETED
  {
    hide Inv, AllGathered, Decided;
    if k > 0 {
      LogCompleted(nodes, slots, a, k - 1);
      var s := slots[k - 1];
      assert SlotOk(nodes, s);
      if !s[a].status.Stopped? {
        SavedBlock(s, a);
      }
    }
  }

  /** The slots of the other nodes, and the other slots of the node, stay as they are. */
  lemma LogAfterWork(slots: seq<System>, s': System, a: Address, site: Site)
    requires InOrder(slots, a, site.current) && site.current < |slots| && a in s'
    ensures var slots' := slots[site.current := s'];
      && LogOf(slots', a, site.current) == LogOf(slots, a, site.current)
      && InputsOf(slots', a, site.current) == InputsOf(slots, a, site.current)
  {
    SameLog(slots, slots[site.current := s'], a, site.current);
  }

  /** The slot under way stays under way. */
  lemma StillUnderWay(slots: seq<System>, s': System, a: Address, current: nat)
    requires InOrder(slots, a, current) && current < |slots| && a in s' && !DoneWith(s'[a])
    ensures InOrder(slots[current := s'], a, current)
  {
  }

  lemma WorkSave(slots: seq<System>, s': System, a: Address, site: Site, c: Choice, now: nat)
    requires SiteOk(slots, a, site) && site.current < |slots| && a in s'
    requires Enabled(a, slots[site.current][a], c) && s'[a] == RunHandler(a, slots[site.current][a], c)
    requires slots[site.current][a].pc == SAVE_PENDING && c.input == NextInput(site, now)
    ensures SiteOk(slots[site.current := s'], a, SiteAfter(site, slots[site.current][a], s'[a], now))
  {
    RunSave(a, slots[site.current][a], c);
    hide RunHandler, Enabled, LogOf, InputsOf, Held, Saved, Front, Popped;
    LogAfterWork(slots, s', a, site);
    TakeFromBuffer(site.buffer, now);
    StillUnderWay(slots, s', a, site.current);
    hide InOrder, NoneEmpty, DoneWith;
  }

  /** The last entry of the chain is the placeholder of the slot under way, and no other entry equals it. */
  lemma PlaceholderLast(nodes: set<Address>, slots: seq<System>, a: Address, site: Site)
    requires SiteOk(slots, a, site) && site.current < |slots| && a in nodes
    requires forall i | 0 <= i < |slots| :: SlotOk(nodes, slots[i])
    requires SAVE_PENDING < slots[site.current][a].pc <= SAVE_COMPLETE && !slots[site.current][a].status.Stopped?
    ensures site.chain == LogOf(slots, a, site.current) + [slots[site.current][a].block]
    ensures site.blockIndex == |LogOf(slots, a, site.current)|
    ensures Removed(site.chain, slots[site.current][a].block) == LogOf(slots, a, site.current)
  {
    hide Inv, AllGathered, Decided, Held;
    var n := slots[site.current][a];
    var log := LogOf(slots, a, site.current);
    assert SlotOk(nodes, slots[site.current]);
    ShapeAt(nodes, slots[site.current], a);
    LogCompleted(nodes, slots, a, site.current);
    hide LogOf, InputsOf;
    assert site.chain == log + [n.block];
    RemovedAt(site.chain, |log|);
    assert site.chain[..|log|] + site.chain[|log| + 1..] == log;
  }

  lemma WorkStop(nodes: set<Address>, slots: seq<System>, s': System, a: Address, site: Site, now: nat)
    requires SiteOk(slots, a, site) && site.current < |slots| && a in nodes && a in s'
    requires forall i | 0 <= i < |slots| :: SlotOk(nodes, slots[i])
    requires slots[site.current][a].pc == TRY_REMOVE && s'[a].status.Stopped?
    requires s'[a].block == slots[site.current][a].block
    ensures SiteOk(slots[site.current := s'], a, SiteAfter(site, slots[site.current][a], s'[a], now))
  {
    hide Held, SlotOk, Removed;
    PlaceholderLast(nodes, slots, a, site);
    LogAfterWork(slots, s', a, site);
    var slots' := slots[site.current := s'];
    NextSlotUntouched(slots, s', a, site);
  }

  /** The slot after the current one has not been begun. */
  lemma NextSlotUntouched(slots: seq<System>, s': System, a: Address, site: Site)
    requires InOrder(slots, a, site.current) && site.current < |slots| && a in s' && DoneWith(s'[a])
    ensures InOrder(slots[site.current := s'], a, site.current + 1)
    ensures OpenIn(slots[site.current := s'], a, site.current + 1) == []
    ensures InputIn(slots[site.current := s'], a, site.current + 1) == multiset{}
  {
  }

  lemma WorkSaveComplete(slots: seq<System>, s': System, a: Address, site: Site, now: nat)
    requires SiteOk(slots, a, site) && site.current < |slots| && a in s'
    requires var n := slots[site.current][a];
      && n.pc == SAVE_COMPLETE && s'[a].pc == PUBLISH && s'[a].block == n.block
      && s'[a].broadcastBlock == n.broadcastBlock && !s'[a].status.Stopped?
    ensures SiteOk(slots[site.current := s'], a, SiteAfter(site, slots[site.current][a], s'[a], now))
  {
    hide Held, LogOf, InputsOf;
    LogAfterWork(slots, s', a, site);
    var n := slots[site.current][a];
    var log := LogOf(slots, a, site.current);
    assert site.chain == log + [n.block];
    assert site.chain[|log| := n.broadcastBlock] == log + [n.broadcastBlock];
  }

  lemma WorkPublish(slots: seq<System>, s': System, a: Address, site: Site, now: nat)
    requires SiteOk(slots, a, site) && site.current < |slots| && a in s'
    requires var n := slots[site.current][a];
      && n.pc == PUBLISH && s'[a].pc == FINISHED && s'[a].block == n.block
      && s'[a].broadcastBlock == n.broadcastBlock && !s'[a].status.Stopped?
    ensures SiteOk(slots[site.current := s'], a, SiteAfter(site, slots[site.current][a], s'[a], now))
  {
    hide Held;
    LogAfterWork(slots, s', a, site);
    NextSlotUntouched(slots, s', a, site);
  }

  /** The handlers that touch neither buffer nor chain. */
  lemma WorkQuiet(slots: seq<System>, s': System, a: Address, site: Site, now: nat)
    requires SiteOk(slots, a, site) && site.current < |slots| && a in s'
    requires var n := slots[site.current][a];
      && Keeps(a, n, s'[a]) && n.status.Running? && !s'[a].status.Stopped?
      && n.pc != SAVE_PENDING && n.pc < SAVE_COMPLETE
    ensures SiteOk(slots[site.current := s'], a, SiteAfter(site, slots[site.current][a], s'[a], now))
  {
    hide Held, LogOf, InputsOf;
    var n := slots[site.current][a];
    var n' := s'[a];
    assert n'.pc <= SAVE_COMPLETE && (n.pc == INIT || (n'.pc > SAVE_PENDING && n'.block == n.block));
    assert n.pc == INIT ==> n'.pc == SAVE_PENDING;
    hide Keeps;
    LogAfterWork(slots, s', a, site);
  }

  lemma SiteWorks(nodes: set<Address>, slots: seq<System>, a: Address, site: Site, c: Choice, now: nat)
    requires SiteOk(slots, a, site) && site.current < |slots| && a in nodes
    requires forall i | 0 <= i < |slots| :: SlotOk(nodes, slots[i])
    requires StepEnabled(slots[site.current], Handle(a, c))
    requires slots[site.current][a].pc == SAVE_PENDING ==> c.input == NextInput(site, now)
    ensures var s' := Next(slots[site.current], Handle(a, c));
      a in s' && SiteOk(slots[site.current := s'], a, SiteAfter(site, slots[site.current][a], s'[a], now))
  {
    hide RunHandler, SiteOk, SlotOk, SiteAfter;
    var s := slots[site.current];
    var n := s[a];
    var s' := Next(s, Handle(a, c));
    assert n.status.Running? && n.pc < FINISHED;
    hide Enabled;
    WorkKeeps(nodes, s, a, c);
    if n.pc == SAVE_PENDING {
      WorkSave(slots, s', a, site, c, now);
    } else if n.pc == SAVE_COMPLETE {
      WorkSaveComplete(slots, s', a, site, now);
    } else if n.pc == PUBLISH {
      WorkPublish(slots, s', a, site, now);
    } else if s'[a].status.Stopped? {
      WorkStop(nodes, slots, s', a, site, now);
    } else {
      WorkQuiet(slots, s', a, site, now);
    }
  }

  lemma WorkKeeps(nodes: set<Address>, s: System, a: Address, c: Choice)
    requires SlotOk(nodes, s) && StepEnabled(s, Handle(a, c))
    ensures a in Next(s, Handle(a, c)) && Keeps(a, s[a], Next(s, Handle(a, c))[a])
  {
    hide Inv, RunHandler, Enabled, AllGathered, Decided, Keeps;
    KeysAt(nodes, s);
    ShapeAt(nodes, s, a);
    HandleKeeps(nodes, a, s[a], c);
  }

  // ----- every reachable world -----

  lemma PushedSite(slots: seq<System>, a: Address, site: Site, buffer: BufferValue, messages: multiset<Message>)
    requires SiteOk(slots, a, site)
    requires buffer.blocks == site.buffer.blocks
    requires multiset(buffer.messages) == multiset(site.buffer.messages) + messages
    ensures SiteOk(slots, a, site.(buffer := buffer, pushed := site.pushed + messages))
  {
    hide LogOf, InputsOf, InOrder, OpenIn, InputIn, NoneEmpty;
  }

  lemma OtherSite(nodes: set<Address>, slots: seq<System>, k: nat, step: Step, a: Address, site: Site)
    requires k < |slots| && Reachable(nodes, slots[k]) && StepEnabled(slots[k], step) && a in nodes
    requires SiteOk(slots, a, site) && !(step.Handle? && step.self == a)
    ensures SiteOk(slots[k := Next(slots[k], step)], a, site)
  {
    hide Reachable, Inv, Next, StepEnabled, LogOf, InputsOf, Held, OpenIn, InputIn;
    InvReachable(nodes, slots[k]);
    OutcomeKept(nodes, slots[k], step, a);
    forall i | 0 <= i < |slots|
      ensures a in slots[i]
    {
    }
    SiteUnmoved(slots, slots[k := Next(slots[k], step)], a, site);
  }

  lemma SiteNext(nodes: set<Address>, w: World, step: WorldStep, a: Address)
    requires WorldOk(nodes, w) && WorldEnabled(w, step) && a in nodes
    ensures a in WorldNext(w, step).sites && SiteOk(WorldNext(w, step).slots, a, WorldNext(w, step).sites[a])
  {
    hide SlotOk, SiteOk, Reachable, Next, StepEnabled, SiteAfter;
    assert SiteOk(w.slots, a, w.sites[a]);
    match step
    case PushBatch(b, messages) =>
      if a == b {
        PushedSite(w.slots, a, w.sites[a], PushedAll(w.sites[a].buffer, messages), multiset(messages));
      }
    case PushOne(b, message) =>
      if a == b {
        PushedSite(w.slots, a, w.sites[a], Pushed(w.sites[a].buffer, message), multiset{message});
      }
    case Work(b, c, now) =>
      if a == b {
        forall i | 0 <= i < |w.slots|
          ensures SlotOk(nodes, w.slots[i])
        {
          SlotOkAt(nodes, w.slots[i]);
        }
        SiteWorks(nodes, w.slots, a, w.sites[a], c, now);
      } else {
        OtherSite(nodes, w.slots, w.sites[b].current, Handle(b, c), a, w.sites[a]);
      }
    case Arrive(k, from, to) =>
      OtherSite(nodes, w.slots, k, Deliver(from, to), a, w.sites[a]);
  }

  lemma WorldOkNext(nodes: set<Address>, w: World, step: WorldStep)
    requires WorldOk(nodes, w) && WorldEnabled(w, step)
    ensures WorldOk(nodes, WorldNext(w, step))
  {
    hide SlotsReachable, SiteOk, Next, StepEnabled, SiteAfter;
    SlotsReachableNext(nodes, w, step);
    forall a | a in nodes
      ensures a in WorldNext(w, step).sites && SiteOk(WorldNext(w, step).slots, a, WorldNext(w, step).sites[a])
    {
      SiteNext(nodes, w, step, a);
    }
  }

  lemma WorldOkInitial(nodes: set<Address>, count: nat)
    ensures WorldOk(nodes, InitialWorld(nodes, count))
  {
    hide Reachable;
    ReachableInitial(nodes);
  }

  lemma {:induction false} SlotsReachableRun(nodes: set<Address>, count: nat, run: seq<World>, steps: seq<WorldStep>,
                                             k: nat)
    requires IsWorldRun(nodes, count, run, steps) && k <= |steps|
    ensures SlotsReachable(nodes, run[k])
  {
    hide WorldNext, WorldEnabled, Reachable;
    if k == 0 {
      ReachableInitial(nodes);
    } else {
      SlotsReachableRun(nodes, count, run, steps, k - 1);
      SlotsReachableNext(nodes, run[k - 1], steps[k - 1]);
    }
  }

  lemma {:induction false} WorldOkRun(nodes: set<Address>, count: nat, run: seq<World>, steps: seq<WorldStep>, k: nat)
    requires IsWorldRun(nodes, count, run, steps) && k <= |steps|
    ensures WorldOk(nodes, run[k])
  {
    hide WorldOk, WorldNext, WorldEnabled, InitialWorld, SlotsReachable;
    if k == 0 {
      WorldOkInitial(nodes, count);
    } else {
      SlotsReachableRun(nodes, count, run, steps, k - 1);
      WorldOkRun(nodes, count, run, steps, k - 1);
      WorldOkNext(nodes, run[k - 1], steps[k - 1]);
    }
  }

  /** Every reachable world is in order, collisions included. */
  lemma WorldOkReachable(nodes: set<Address>, count: nat, w: World)
    requires WorldReachable(nodes, count, w)
    ensures WorldOk(nodes, w)
  {
    hide WorldOk;
    var run, steps :| IsWorldRun(nodes, count, run, steps) && run[|steps|] == w;
    WorldOkRun(nodes, count, run, steps, |steps|);
  }

  /** A node contributes exactly if its buffer holds a message: its oldest block, or all that is loose. */
  lemma ContributesExactly(nodes: set<Address>, count: nat, w: World, a: Address, c: Choice, now: nat)
    requires WorldReachable(nodes, count, w) && WorldEnabled(w, Work(a, c, now))
    requires w.slots[w.sites[a].current][a].pc == SAVE_PENDING
    ensures var k, buffer := w.sites[a].current, w.sites[a].buffer; var w' := WorldNext(w, Work(a, c, now));
      && k < |w'.slots| && a in w'.slots[k]
      && (w'.slots[k][a].contributing <==> Held(buffer) != multiset{})
      && (buffer.blocks != [] ==> w'.slots[k][a].block == buffer.blocks[0])
      && (buffer.blocks == [] && buffer.messages != [] ==> w'.slots[k][a].block == NewBlock(buffer.messages, now))
  {
    WorldOkReachable(nodes, count, w);
    var k, buffer := w.sites[a].current, w.sites[a].buffer;
    assert SiteOk(w.slots, a, w.sites[a]);
    OldestFirst(buffer, now);
    assert a in w.sites && a in nodes && NoneEmpty(buffer.blocks);
    hide WorldOk, SiteOk, WorldReachable, Held, Saved, Front, NoneEmpty;
    RunSave(a, w.slots[k][a], c);
    hide RunHandler, Enabled;
  }

  lemma SlotsOfWorld(nodes: set<Address>, count: nat, w: World)
    requires WorldReachable(nodes, count, w)
    ensures SlotsReachable(nodes, w)
  {
    hide SlotsReachable;
    var run, steps :| IsWorldRun(nodes, count, run, steps) && run[|steps|] == w;
    SlotsReachableRun(nodes, count, run, steps, |steps|);
  }

  /** Distinct first draws in every slot settle all elections. */
  lemma DistinctDrawsSettleAll(nodes: set<Address>, count: nat, w: World)
    requires WorldReachable(nodes, count, w)
    requires forall k | 0 <= k < |w.slots| :: FirstDrawsDistinct(w.slots[k]) || AllNominated(w.slots[k])
    ensures AllSettled(w)
  {
    hide FirstDrawsDistinct, AllNominated, Settled, Reachable;
    SlotsOfWorld(nodes, count, w);
    forall k | 0 <= k < |w.slots|
      ensures Settled(w.slots[k])
    {
      if FirstDrawsDistinct(w.slots[k]) {
        DistinctDrawsSettle(nodes, w.slots[k]);
      } else {
        InvReachable(nodes, w.slots[k]);
        AllNominatedSettled(nodes, w.slots[k]);
      }
    }
  }
}
