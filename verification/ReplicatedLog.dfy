/** The results about the chains of all nodes over any number of slots. */
module ReplicatedLog {
  import opened Types
  import opened Totals
  import opened Protocol
  import opened Invariants
  import opened Links
  import opened Agreement
  import opened Settlement
  import opened Conservation
  import opened Slot
  import opened Buffers
  import opened Redis
  import opened World

  /** The completed blocks of a chain. */
  function CompletedPart(chain: seq<Block>): seq<Block> {
    if chain == [] then []
    else
      CompletedPart(chain[..|chain| - 1])
      + (if chain[|chain| - 1].state == COMPLETED then [chain[|chain| - 1]] else [])
  }

  lemma {:induction false} AllCompleted(chain: seq<Block>)
    requires forall k | 0 <= k < |chain| :: chain[k].state == COMPLETED
    ensures CompletedPart(chain) == chain
  {
    if chain != [] {
      AllCompleted(chain[..|chain| - 1]);
      assert chain == chain[..|chain| - 1] + [chain[|chain| - 1]];
    }
  }

  /** How many slots a node has written to its chain, the one under way included. */
  function SavedSlots(slots: seq<System>, a: Address, current: nat): nat
    requires forall k | 0 <= k < |slots| :: a in slots[k]
  {
    if current < |slots| && slots[current][a].pc > SAVE_COMPLETE then current + 1 else current
  }

  predicate SavedIn(s: System, a: Address)
    requires a in s
  {
    s[a].status.Stopped? || s[a].pc > SAVE_COMPLETE
  }

  // ----- the chain of one node -----

  /** Behind the log there is at most the placeholder of the slot under way. */
  lemma ChainIs(slots: seq<System>, a: Address, site: Site)
    requires SiteOk(slots, a, site)
    ensures InOrder(slots, a, site.current) && SavedSlots(slots, a, site.current) <= |slots|
    ensures var log := LogOf(slots, a, SavedSlots(slots, a, site.current));
      || site.chain == log
      || (site.current < |slots| && slots[site.current][a].pc > SAVE_PENDING
          && site.chain == log + [slots[site.current][a].block])
  {
    hide Held, InputsOf, InputIn;
  }

  lemma CompletedAndPending(log: seq<Block>, b: Block)
    requires forall k | 0 <= k < |log| :: log[k].state == COMPLETED
    requires b.state == PENDING
    ensures CompletedPart(log) == log && CompletedPart(log + [b]) == log
  {
    AllCompleted(log);
    assert (log + [b])[..|log|] == log;
  }

  lemma ChainShape(nodes: set<Address>, w: World, a: Address)
    requires WorldOk(nodes, w) && a in nodes
    ensures a in w.sites && InOrder(w.slots, a, w.sites[a].current)
    ensures SavedSlots(w.slots, a, w.sites[a].current) <= |w.slots|
    ensures var log := LogOf(w.slots, a, SavedSlots(w.slots, a, w.sites[a].current));
      && (forall k | 0 <= k < |log| :: log[k].state == COMPLETED)
      && (w.sites[a].chain == log || exists b: Block :: b.state == PENDING && w.sites[a].chain == log + [b])
      && CompletedPart(w.sites[a].chain) == log
  {
    hide Inv, Reachable, SlotOk, SiteOk, CompletedPart, SavedSlots, LogOf;
    var slots := w.slots;
    var site := w.sites[a];
    ChainIs(slots, a, site);
    var k := SavedSlots(slots, a, site.current);
    var log := LogOf(slots, a, k);
    SavedCompleted(nodes, w, a, k);
    AllCompleted(log);
    if site.chain != log {
      SlotOkOf(nodes, w, site.current);
      OpenPending(nodes, slots[site.current], a);
      CompletedAndPending(log, slots[site.current][a].block);
    }
  }

  lemma SlotOkOf(nodes: set<Address>, w: World, i: nat)
    requires WorldOk(nodes, w) && i < |w.slots|
    ensures SlotOk(nodes, w.slots[i])
  {
    hide SlotOk, SiteOk, Reachable;
    assert Reachable(nodes, w.slots[i]);
    SlotOkAt(nodes, w.slots[i]);
  }

  lemma SavedCompleted(nodes: set<Address>, w: World, a: Address, k: nat)
    requires WorldOk(nodes, w) && a in nodes && a in w.sites
    requires InOrder(w.slots, a, w.sites[a].current)
    requires k == SavedSlots(w.slots, a, w.sites[a].current) <= |w.slots|
    ensures forall i | 0 <= i < |LogOf(w.slots, a, k)| :: LogOf(w.slots, a, k)[i].state == COMPLETED
  {
    hide Inv, Reachable, SlotOk, SiteOk, WorldOk;
    forall i | 0 <= i < |w.slots|
      ensures SlotOk(nodes, w.slots[i])
    {
      SlotOkOf(nodes, w, i);
    }
    var current := w.sites[a].current;
    LogCompleted(nodes, w.slots, a, current);
    if k > current {
      OpenCompleted(nodes, w.slots[current], a);
    }
  }

  lemma OpenCompleted(nodes: set<Address>, s: System, a: Address)
    requires SlotOk(nodes, s) && a in s && s[a].pc > SAVE_COMPLETE
    ensures s[a].broadcastBlock.state == COMPLETED
  {
    hide Inv, AllGathered;
    SavedBlock(s, a);
  }

  lemma OpenPending(nodes: set<Address>, s: System, a: Address)
    requires SlotOk(nodes, s) && a in nodes
    ensures a in s && (s[a].pc > SAVE_PENDING ==> s[a].block.state == PENDING)
  {
    hide Inv;
    ShapeAt(nodes, s, a);
  }

  /**
    While a slot is under way, the remembered index is the last entry of the chain and holds
    the placeholder: removing it by value removes exactly that entry, and overwriting it
    replaces exactly that entry.
   */
  lemma PlaceholderInPlace(nodes: set<Address>, count: nat, w: World, a: Address, b: Block)
    requires WorldReachable(nodes, count, w)
    requires a in w.sites && w.sites[a].current < |w.slots| && a in w.slots[w.sites[a].current]
    requires var n := w.slots[w.sites[a].current][a];
      SAVE_PENDING < n.pc <= SAVE_COMPLETE && !n.status.Stopped?
    ensures var site := w.sites[a]; var n := w.slots[site.current][a];
      && site.blockIndex == |site.chain| - 1
      && At(site.chain, site.blockIndex) == Some(n.block)
      && Removed(site.chain, n.block) == CompletedPart(site.chain) == site.chain[..site.blockIndex]
      && Overwritten(site.chain, site.blockIndex, b) == Some(CompletedPart(site.chain) + [b])
  {
    hide Inv, Reachable, SlotOk, SiteOk, CompletedPart, LogOf, Removed;
    WorldOkReachable(nodes, count, w);
    var site := w.sites[a];
    forall i | 0 <= i < |w.slots|
      ensures SlotOk(nodes, w.slots[i])
    {
      SlotOkOf(nodes, w, i);
    }
    PlaceholderLast(nodes, w.slots, a, site);
    ChainShape(nodes, w, a);
    var log := LogOf(w.slots, a, site.current);
    assert site.chain[..|log|] == log;
    assert site.chain[|log| := b] == log + [b];
  }

  // ----- the chains of two nodes -----

  /** Two nodes that have written a slot have written the same, or both nothing. */
  lemma SameEntry(nodes: set<Address>, s: System, a: Address, b: Address)
    requires Reachable(nodes, s) && a in s && b in s && SavedIn(s, a) && SavedIn(s, b)
    ensures s[a].status.Stopped? <==> s[b].status.Stopped?
    ensures !s[a].status.Stopped? ==>
              multiset(s[a].broadcastBlock.data) == multiset(s[b].broadcastBlock.data)
    ensures Settled(s) && !s[a].status.Stopped? ==> s[a].broadcastBlock == s[b].broadcastBlock
  {
    hide Reachable, Settled;
    if s[a].status.Stopped? {
      UnanimousRemoval(nodes, s, a);
    } else if s[b].status.Stopped? {
      UnanimousRemoval(nodes, s, b);
    } else {
      SavedIsComplete(nodes, s, a);
      if Settled(s) {
        SlotAgreement(nodes, s, a, b);
      }
    }
  }

  lemma {:induction false} SameLogs(nodes: set<Address>, slots: seq<System>, a: Address, b: Address, k: nat)
    requires k <= |slots|
    requires forall i | 0 <= i < k :: Reachable(nodes, slots[i]) && Settled(slots[i]) && a in slots[i] && b in slots[i]
    requires forall i | 0 <= i < k :: SavedIn(slots[i], a) && SavedIn(slots[i], b)
    ensures LogOf(slots, a, k) == LogOf(slots, b, k)
  {
    hide Reachable, Settled, SavedIn;
    if k > 0 {
      SameLogs(nodes, slots, a, b, k - 1);
      SameEntry(nodes, slots[k - 1], a, b);
    }
  }

  /** What the blocks of a chain hold, block by block. */
  function Contents(chain: seq<Block>): (c: seq<multiset<Message>>)
    ensures |c| == |chain| && forall i | 0 <= i < |chain| :: c[i] == multiset(chain[i].data)
  {
    if chain == [] then [] else Contents(chain[..|chain| - 1]) + [multiset(chain[|chain| - 1].data)]
  }

  lemma ContentsGrow(xs: seq<Block>, ys: seq<Block>)
    requires xs <= ys
    ensures Contents(xs) <= Contents(ys)
  {
  }

  lemma SameContentsAppended(xs: seq<Block>, ys: seq<Block>, x: Block, y: Block)
    requires Contents(xs) == Contents(ys) && multiset(x.data) == multiset(y.data)
    ensures Contents(xs + [x]) == Contents(ys + [y])
  {
    assert (xs + [x])[..|xs|] == xs && (ys + [y])[..|ys|] == ys;
  }

  /** Settled or not, the logs hold the same messages in the same order of blocks. */
  lemma {:induction false} SameContents(nodes: set<Address>, slots: seq<System>, a: Address, b: Address, k: nat)
    requires k <= |slots|
    requires forall i | 0 <= i < k :: Reachable(nodes, slots[i]) && a in slots[i] && b in slots[i]
    requires forall i | 0 <= i < k :: SavedIn(slots[i], a) && SavedIn(slots[i], b)
    ensures Contents(LogOf(slots, a, k)) == Contents(LogOf(slots, b, k))
  {
    hide Reachable, Settled, SavedIn, Contents;
    if k > 0 {
      SameContents(nodes, slots, a, b, k - 1);
      var n, m := slots[k - 1][a], slots[k - 1][b];
      SameEntry(nodes, slots[k - 1], a, b);
      if n.status.Stopped? {
        assert LogOf(slots, a, k) == LogOf(slots, a, k - 1) && LogOf(slots, b, k) == LogOf(slots, b, k - 1);
      } else {
        SameContentsAppended(LogOf(slots, a, k - 1), LogOf(slots, b, k - 1), n.broadcastBlock, m.broadcastBlock);
      }
    }
  }

  lemma {:induction false} LogGrows(slots: seq<System>, a: Address, k: nat, m: nat)
    requires k <= m <= |slots| && forall i | 0 <= i < m :: a in slots[i]
    ensures LogOf(slots, a, k) <= LogOf(slots, a, m)
    decreases m
  {
    if k < m {
      LogGrows(slots, a, k, m - 1);
    }
  }

  lemma SavedBefore(nodes: set<Address>, w: World, a: Address)
    requires WorldOk(nodes, w) && a in nodes
    ensures a in w.sites && InOrder(w.slots, a, w.sites[a].current)
    ensures forall i | 0 <= i < SavedSlots(w.slots, a, w.sites[a].current) :: SavedIn(w.slots[i], a)
  {
    hide SlotsReachable, LogOf, InputsOf, Held, OpenIn, InputIn;
    assert SiteOk(w.slots, a, w.sites[a]);
    InOrderSaved(w.slots, a, w.sites[a].current);
  }

  lemma InOrderSaved(slots: seq<System>, a: Address, current: nat)
    requires InOrder(slots, a, current)
    ensures forall i | 0 <= i < SavedSlots(slots, a, current) :: SavedIn(slots[i], a)
  {
  }

  lemma ShorterLog(nodes: set<Address>, w: World, a: Address, b: Address)
    requires WorldOk(nodes, w) && a in nodes && b in nodes && a in w.sites && b in w.sites
    requires InOrder(w.slots, a, w.sites[a].current) && InOrder(w.slots, b, w.sites[b].current)
    requires SavedSlots(w.slots, a, w.sites[a].current) <= SavedSlots(w.slots, b, w.sites[b].current)
    ensures Contents(CompletedPart(w.sites[a].chain)) <= Contents(CompletedPart(w.sites[b].chain))
    ensures AllSettled(w) ==> CompletedPart(w.sites[a].chain) <= CompletedPart(w.sites[b].chain)
  {
    ChainShape(nodes, w, a);
    ChainShape(nodes, w, b);
    SavedBefore(nodes, w, a);
    SavedBefore(nodes, w, b);
    assert SlotsReachable(nodes, w);
    hide WorldOk, LogOf, CompletedPart, Contents, Reachable, Settled, SavedIn;
    var k, m := SavedSlots(w.slots, a, w.sites[a].current), SavedSlots(w.slots, b, w.sites[b].current);
    LogGrows(w.slots, b, k, m);
    SameContents(nodes, w.slots, a, b, k);
    ContentsGrow(LogOf(w.slots, b, k), LogOf(w.slots, b, m));
    if AllSettled(w) {
      SameLogs(nodes, w.slots, a, b, k);
    }
  }

  /**
    The completed blocks of any two nodes hold the same messages, block by block, up to how
    far each node is; if all slots are settled they are the same blocks.
   */
  lemma PrefixRelated(nodes: set<Address>, count: nat, w: World, a: Address, b: Address)
    requires WorldReachable(nodes, count, w) && a in w.sites && b in w.sites
    ensures var x, y := CompletedPart(w.sites[a].chain), CompletedPart(w.sites[b].chain);
      && (Contents(x) <= Contents(y) || Contents(y) <= Contents(x))
      && (AllSettled(w) ==> x <= y || y <= x)
  {
    hide WorldReachable, AllSettled, SlotsReachable, Contents;
    WorldOkReachable(nodes, count, w);
    SavedBefore(nodes, w, a);
    SavedBefore(nodes, w, b);
    if SavedSlots(w.slots, a, w.sites[a].current) <= SavedSlots(w.slots, b, w.sites[b].current) {
      ShorterLog(nodes, w, a, b);
    } else {
      ShorterLog(nodes, w, b, a);
    }
  }

  /** Completed blocks neither change nor move; only the last entry can be a placeholder. */
  lemma AppendOnly(nodes: set<Address>, count: nat, w: World, step: WorldStep, a: Address)
    requires WorldReachable(nodes, count, w) && WorldEnabled(w, step)
    requires a in w.sites
    ensures a in WorldNext(w, step).sites
    ensures CompletedPart(w.sites[a].chain) <= CompletedPart(WorldNext(w, step).sites[a].chain)
    ensures CompletedPart(w.sites[a].chain) <= w.sites[a].chain
    ensures |w.sites[a].chain| <= |CompletedPart(w.sites[a].chain)| + 1
  {
    hide WorldReachable, SlotsReachable, WorldEnabled, WorldNext;
    var w' := WorldNext(w, step);
    SlotsOfWorld(nodes, count, w);
    WorldOkReachable(nodes, count, w);
    WorldOkNext(nodes, w, step);
    ChainShape(nodes, w, a);
    ChainShape(nodes, w', a);
    hide WorldOk, LogOf, CompletedPart;
    LogStays(nodes, w, step, a);
  }

  lemma LogStays(nodes: set<Address>, w: World, step: WorldStep, a: Address)
    requires WorldOk(nodes, w) && WorldEnabled(w, step) && WorldOk(nodes, WorldNext(w, step)) && a in nodes
    ensures a in w.sites && a in WorldNext(w, step).sites
    ensures InOrder(w.slots, a, w.sites[a].current)
    ensures InOrder(WorldNext(w, step).slots, a, WorldNext(w, step).sites[a].current)
    ensures var k := SavedSlots(w.slots, a, w.sites[a].current);
      var w' := WorldNext(w, step);
      var m := SavedSlots(w'.slots, a, w'.sites[a].current);
      k <= |w.slots| && m <= |w'.slots| && LogOf(w.slots, a, k) <= LogOf(w'.slots, a, m)
  {
    hide SlotsReachable, LogOf, InputsOf, Held, OpenIn, InputIn, WorldNext, WorldEnabled;
    var w' := WorldNext(w, step);
    assert SiteOk(w.slots, a, w.sites[a]) && SiteOk(w'.slots, a, w'.sites[a]);
    CurrentGrows(w, step, a);
    hide SiteOk;
    var k := SavedSlots(w.slots, a, w.sites[a].current);
    forall i | 0 <= i < k
      ensures EntryStays(w.slots[i][a], w'.slots[i][a])
    {
      SlotEntryStays(nodes, w, step, a, i);
    }
    SavedGrows(nodes, w, step, a);
    hide WorldOk;
    EntriesStay(w.slots, w'.slots, a, k);
    LogGrows(w'.slots, a, k, SavedSlots(w'.slots, a, w'.sites[a].current));
  }

  predicate EntryStays(n: Node, n': Node) {
    n'.status.Stopped? == n.status.Stopped? && n'.broadcastBlock == n.broadcastBlock
  }

  lemma {:induction false} EntriesStay(slots: seq<System>, slots': seq<System>, a: Address, k: nat)
    requires k <= |slots| == |slots'|
    requires forall i | 0 <= i < |slots| :: a in slots[i] && a in slots'[i]
    requires forall i | 0 <= i < k :: EntryStays(slots[i][a], slots'[i][a])
    ensures LogOf(slots', a, k) == LogOf(slots, a, k)
  {
    if k > 0 {
      EntriesStay(slots, slots', a, k - 1);
      assert EntryStays(slots[k - 1][a], slots'[k - 1][a]);
    }
  }

  /** The slot a world step takes place in, if any, and what happens there. */
  lemma SlotMoves(nodes: set<Address>, w: World, step: WorldStep, i: nat)
    requires SlotsReachable(nodes, w) && WorldEnabled(w, step) && i < |w.slots|
    ensures Inv(nodes, w.slots[i]) && i < |WorldNext(w, step).slots|
    ensures var s := w.slots[i]; var s' := WorldNext(w, step).slots[i];
      || s' == s
      || (step.Work? && i == w.sites[step.a].current
          && StepEnabled(s, Handle(step.a, step.choice)) && s' == Next(s, Handle(step.a, step.choice)))
      || (step.Arrive? && StepEnabled(s, Deliver(step.from, step.to)) && s' == Next(s, Deliver(step.from, step.to)))
  {
    hide Reachable, Inv, Next, StepEnabled, SiteAfter;
    InvReachable(nodes, w.slots[i]);
  }

  lemma SlotEntryStays(nodes: set<Address>, w: World, step: WorldStep, a: Address, i: nat)
    requires SlotsReachable(nodes, w) && WorldEnabled(w, step) && a in nodes && a in w.sites
    requires i < |w.slots| && InOrder(w.slots, a, w.sites[a].current)
    requires i < SavedSlots(w.slots, a, w.sites[a].current)
    ensures i < |WorldNext(w, step).slots|
    ensures a in WorldNext(w, step).slots[i] && EntryStays(w.slots[i][a], WorldNext(w, step).slots[i][a])
  {
    SlotMoves(nodes, w, step, i);
    hide Inv, Next, StepEnabled, WorldNext, WorldEnabled, SlotsReachable;
    var s := w.slots[i];
    var s' := WorldNext(w, step).slots[i];
    if s' != s {
      if step.Arrive? {
        OutcomeKept(nodes, s, Deliver(step.from, step.to), a);
      } else if step.a != a {
        OutcomeKept(nodes, s, Handle(step.a, step.choice), a);
      } else {
        FinishEntry(nodes, s, a, step.choice);
      }
    }
  }

  lemma FinishEntry(nodes: set<Address>, s: System, a: Address, c: Choice)
    requires Inv(nodes, s) && StepEnabled(s, Handle(a, c)) && a in s && s[a].pc > SAVE_COMPLETE
    ensures a in Next(s, Handle(a, c))
    ensures EntryStays(s[a], Next(s, Handle(a, c))[a])
  {
    hide Inv;
    KeysAt(nodes, s);
    FinishStatus(a, s[a], c);
    StepLater(nodes, s, Handle(a, c), a);
  }

  lemma SavedGrows(nodes: set<Address>, w: World, step: WorldStep, a: Address)
    requires SlotsReachable(nodes, w) && WorldEnabled(w, step) && a in nodes && a in w.sites
    requires InOrder(w.slots, a, w.sites[a].current)
    requires a in WorldNext(w, step).sites
    requires InOrder(WorldNext(w, step).slots, a, WorldNext(w, step).sites[a].current)
    requires w.sites[a].current <= WorldNext(w, step).sites[a].current
    requires |WorldNext(w, step).slots| == |w.slots|
    ensures var w' := WorldNext(w, step);
      SavedSlots(w.slots, a, w.sites[a].current) <= SavedSlots(w'.slots, a, w'.sites[a].current)
  {
    hide WorldNext, WorldEnabled, SlotsReachable, Inv, Next, StepEnabled;
    var k := w.sites[a].current;
    if k < |w.slots| && w.slots[k][a].pc > SAVE_COMPLETE {
      SavedStays(nodes, w, step, a, k);
    }
  }

  lemma SavedStays(nodes: set<Address>, w: World, step: WorldStep, a: Address, i: nat)
    requires SlotsReachable(nodes, w) && WorldEnabled(w, step) && i < |w.slots| && a in nodes
    requires a in w.slots[i] && w.slots[i][a].pc > SAVE_COMPLETE
    ensures i < |WorldNext(w, step).slots| && a in WorldNext(w, step).slots[i]
    ensures WorldNext(w, step).slots[i][a].pc > SAVE_COMPLETE
  {
    SlotMoves(nodes, w, step, i);
    hide Inv, Next, StepEnabled, WorldNext, WorldEnabled, SlotsReachable;
    var s := w.slots[i];
    if WorldNext(w, step).slots[i] != s {
      StepLater(nodes, s, if step.Work? then Handle(step.a, step.choice) else Deliver(step.from, step.to), a);
    }
  }

  lemma CurrentGrows(w: World, step: WorldStep, a: Address)
    requires WorldEnabled(w, step) && a in w.sites
    ensures a in WorldNext(w, step).sites && w.sites[a].current <= WorldNext(w, step).sites[a].current
    ensures |WorldNext(w, step).slots| == |w.slots|
  {
    hide Next, StepEnabled;
  }

  // ----- nothing is lost, nothing is doubled -----

  ghost function SlotInputs(s: System): map<Address, multiset<Message>> {
    map b | b in s :: multiset(s[b].block.data)
  }

  ghost function AllInputs(nodes: set<Address>, slots: seq<System>, k: nat): map<Address, multiset<Message>>
    requires k <= |slots| && forall i | 0 <= i < k :: nodes <= slots[i].Keys
  {
    map b | b in nodes :: InputsOf(slots, b, k)
  }

  /** What a node has written for a slot is what all nodes have put into it. */
  lemma SlotData(nodes: set<Address>, s: System, a: Address)
    requires Reachable(nodes, s) && a in s && SavedIn(s, a)
    ensures Union(SlotInputs(s)) == if s[a].status.Stopped? then multiset{} else multiset(s[a].broadcastBlock.data)
  {
    hide Inv, Union;
    InvReachable(nodes, s);
    KeysAt(nodes, s);
    forall b | b in s && !s[b].contributing && s[b].pc > SAVE_PENDING
      ensures s[b].block.data == []
    {
      ShapeAt(nodes, s, b);
    }
    var inputs := Inputs(s);
    var gathered := map k | k in inputs :: multiset(inputs[k]);
    if s[a].status.Stopped? {
      UnanimousRemoval(nodes, s, a);
      UnionRestrict(SlotInputs(s), map[]);
      assert Union(map[]) == multiset{} by { UnionEmpty(); }
    } else {
      forall b | b in s
        ensures s[b].pc > SAVE_PENDING
      {
        Begun(nodes, s, a, b);
      }
      SavedIsComplete(nodes, s, a);
      UnionRestrict(SlotInputs(s), gathered);
    }
  }

  lemma UnionEmpty()
    ensures Union(map[]) == multiset{}
  {
  }

  lemma Begun(nodes: set<Address>, s: System, a: Address, b: Address)
    requires Inv(nodes, s) && a in s && b in s && s[a].pc > SAVE_COMPLETE
    ensures s[b].pc > SAVE_PENDING
  {
    hide Inv;
    KeysAt(nodes, s);
    AllHaveDrawn(nodes, s, a, b);
    ShapeAt(nodes, s, b);
  }

  lemma {:induction false} LogData(nodes: set<Address>, slots: seq<System>, a: Address, k: nat)
    requires k <= |slots| && a in nodes
    requires forall i | 0 <= i < k :: Reachable(nodes, slots[i]) && slots[i].Keys == nodes
    requires forall i | 0 <= i < k :: SavedIn(slots[i], a)
    ensures DataOf(LogOf(slots, a, k)) == Union(AllInputs(nodes, slots, k))
  {
    hide Reachable, SavedIn, Union, Inv, AllInputs, SlotInputs;
    if k == 0 {
      NoInputs(nodes, slots);
    } else {
      LogData(nodes, slots, a, k - 1);
      SlotData(nodes, slots[k - 1], a);
      InputsAdd(nodes, slots, k);
      UnionPlus(AllInputs(nodes, slots, k - 1), SlotInputs(slots[k - 1]));
      LogDataStep(slots, a, k);
    }
  }

  lemma LogDataStep(slots: seq<System>, a: Address, k: nat)
    requires 0 < k <= |slots| && forall i | 0 <= i < k :: a in slots[i]
    ensures var n := slots[k - 1][a];
      DataOf(LogOf(slots, a, k)) == DataOf(LogOf(slots, a, k - 1))
        + (if n.status.Stopped? then multiset{} else multiset(n.broadcastBlock.data))
  {
    hide DataOf;
    if !slots[k - 1][a].status.Stopped? {
      DataOfAppend(LogOf(slots, a, k - 1), slots[k - 1][a].broadcastBlock);
    } else {
      assert LogOf(slots, a, k) == LogOf(slots, a, k - 1) + [] == LogOf(slots, a, k - 1);
    }
  }

  lemma NoInputs(nodes: set<Address>, slots: seq<System>)
    ensures Union(AllInputs(nodes, slots, 0)) == multiset{}
  {
    hide Union;
    UnionRestrict(AllInputs(nodes, slots, 0), map[]);
    UnionEmpty();
  }

  lemma InputsAdd(nodes: set<Address>, slots: seq<System>, k: nat)
    requires 0 < k <= |slots| && forall i | 0 <= i < k :: slots[i].Keys == nodes
    ensures AllInputs(nodes, slots, k - 1).Keys == SlotInputs(slots[k - 1]).Keys
    ensures AllInputs(nodes, slots, k) == Plus(AllInputs(nodes, slots, k - 1), SlotInputs(slots[k - 1]))
  {
  }

  ghost function Buffered(w: World): map<Address, multiset<Message>> {
    map b | b in w.sites :: Held(w.sites[b].buffer)
  }

  ghost function PushedBy(w: World): map<Address, multiset<Message>> {
    map b | b in w.sites :: w.sites[b].pushed
  }

  /** Every node is done with the same `k` slots and has not begun another. */
  ghost predicate Between(w: World, k: nat) {
    && k <= |w.slots|
    && (forall a | a in w.sites :: w.sites[a].current == k)
    && (k < |w.slots| ==> forall a | a in w.sites && a in w.slots[k] :: w.slots[k][a].pc <= SAVE_PENDING)
  }

  lemma SiteBetween(nodes: set<Address>, w: World, k: nat, a: Address)
    requires WorldOk(nodes, w) && Between(w, k) && a in nodes
    ensures a in w.sites && InOrder(w.slots, a, k)
    ensures w.sites[a].chain == LogOf(w.slots, a, k)
    ensures w.sites[a].pushed == Held(w.sites[a].buffer) + InputsOf(w.slots, a, k)
    ensures forall i | 0 <= i < k :: SavedIn(w.slots[i], a)
  {
    hide SlotsReachable, LogOf, InputsOf, Held;
    assert SiteOk(w.slots, a, w.sites[a]);
  }

  lemma PushedSplits(nodes: set<Address>, w: World, k: nat)
    requires WorldOk(nodes, w) && Between(w, k)
    requires k <= |w.slots| && forall i | 0 <= i < |w.slots| :: w.slots[i].Keys == nodes
    ensures Buffered(w).Keys == AllInputs(nodes, w.slots, k).Keys
    ensures PushedBy(w) == Plus(Buffered(w), AllInputs(nodes, w.slots, k))
  {
    hide Between, SlotsReachable, SiteOk, Held, InputsOf, SavedIn;
    forall b | b in nodes
      ensures w.sites[b].pushed == Held(w.sites[b].buffer) + InputsOf(w.slots, b, k)
    {
      SiteBetween(nodes, w, k, b);
    }
  }

  /** Exactly once: each chain and all buffers together hold what clients have pushed anywhere. */
  lemma ExactlyOnce(nodes: set<Address>, count: nat, w: World, k: nat, a: Address)
    requires WorldReachable(nodes, count, w) && Between(w, k) && a in w.sites
    ensures DataOf(w.sites[a].chain) + Union(Buffered(w)) == Union(PushedBy(w))
  {
    hide WorldReachable, Reachable, Union, Inv, SiteOk, LogOf, Held, InputsOf, SavedIn;
    assert k <= |w.slots|;
    hide Between;
    WorldOkReachable(nodes, count, w);
    forall i | 0 <= i < |w.slots|
      ensures w.slots[i].Keys == nodes
    {
      InvReachable(nodes, w.slots[i]);
      KeysAt(nodes, w.slots[i]);
    }
    SiteBetween(nodes, w, k, a);
    LogData(nodes, w.slots, a, k);
    PushedSplits(nodes, w, k);
    hide WorldOk, Buffered, PushedBy, AllInputs;
    UnionPlus(Buffered(w), AllInputs(nodes, w.slots, k));
  }
}
