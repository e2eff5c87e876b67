/**
  Elections on demand. The course of an election is decided by few facts about each node,
  its sketch; a move changes the sketch of one node, and every move that is possible on
  sketches can be carried out by a run. Schedules of moves are used to build runs.
 */
module Schedules {
  import opened Types
  import opened StorageSpec
  import opened Protocol
  import opened Invariants
  import opened Links
  import opened Agreement

  datatype Sketch = Sketch(pc: nat, lockHeld: bool, draws: seq<nat>, taken: map<Address, nat>, held: map<Address, nat>)

  type Sketches = map<Address, Sketch>

  /** What every node has drawn. */
  type DrawLog = map<Address, seq<nat>>

  function SketchOf(n: Node): Sketch {
    Sketch(n.pc, n.lockHeld, n.draws, n.taken, Values(n.store))
  }

  predicate FitsNode(n: Node, k: Sketch) {
    n.status.Running? && (n.pc > SAVE_PENDING ==> n.contributing) && SketchOf(n) == k
  }

  /** `s` is reachable, everybody contributes, and the nodes are as sketched. */
  ghost predicate Fits(nodes: set<Address>, s: System, k: Sketches) {
    && Reachable(nodes, s)
    && s.Keys == k.Keys == nodes
    && forall a | a in nodes :: FitsNode(s[a], k[a])
  }

  // ----- moves -----

  datatype Move =
    | Begin                       // take a block and announce it
    | Take(from: set<Address>)    // receive the next packet of each of these
    | Draw(value: nat)            // pass inspection and draw
    | Leave                       // find the own value unique and leave the election
    | Redraw(value: nat)          // find a collision, reset, and draw again
    | Doze                        // miss a value and wait with the lock held
    | Rouse                       // wake up, find the own value unique, and look again

  predicate AllHeld(k: Sketch) {
    forall b | b in k.held :: k.held[b] > 0
  }

  predicate OwnUnique(k: Sketch, a: Address)
    requires a in k.held
  {
    forall b | b in k.held && b != a :: k.held[b] != k.held[a]
  }

  /** The next packet of `b` has been published, and is one of inspection or election. */
  predicate CanTake(k: Sketches, a: Address, b: Address) {
    && a in k && b in k && a != b && b in k[a].taken && b in k[a].held
    && k[a].pc <= NOMINATE && NOTIFY < k[b].pc <= NOMINATE && k[a].taken[b] <= |k[b].draws|
  }

  predicate Can(k: Sketches, a: Address, move: Move) {
    && a in k && a in k[a].held
    && match move
       case Begin => k[a].pc == INIT
       case Take(from) => forall b | b in from :: CanTake(k, a, b)
       case Draw(value) =>
         k[a].pc == WAIT_INSPECTION && MIN_DRAW <= value <= MAX_DRAW && forall b | b in k[a].taken :: k[a].taken[b] >= 1
       case Leave => k[a].pc == LOOP_PRESENT && !k[a].lockHeld && AllHeld(k[a]) && OwnUnique(k[a], a)
       case Redraw(value) =>
         && k[a].pc == LOOP_PRESENT && !k[a].lockHeld && AllHeld(k[a]) && !OwnUnique(k[a], a)
         && MIN_DRAW <= value <= MAX_DRAW
       case Doze => k[a].pc == LOOP_PRESENT && !k[a].lockHeld && !AllHeld(k[a])
       case Rouse => k[a].pc == WAIT_PRESENT && k[a].lockHeld && AllHeld(k[a]) && OwnUnique(k[a], a)
  }

  /** The value held of `b` after its next packet; the first one is not of the election. */
  function NextValue(k: Sketches, a: Address, b: Address): nat
    requires CanTake(k, a, b)
  {
    if k[a].taken[b] == 0 then k[a].held[b] else k[b].draws[k[a].taken[b] - 1]
  }

  function Taken(k: Sketches, a: Address, from: set<Address>): Sketch
    requires a in k && forall b | b in from :: CanTake(k, a, b)
  {
    k[a].(taken := map b | b in k[a].taken :: if b in from then k[a].taken[b] + 1 else k[a].taken[b],
          held := map b | b in k[a].held :: if b in from then NextValue(k, a, b) else k[a].held[b])
  }

  function Redrawn(k: Sketch, a: Address, value: nat): Sketch {
    k.(draws := k.draws + [value], held := map b | b in k.held :: if b == a then value else 0)
  }

  function Moved(k: Sketches, a: Address, move: Move): Sketch
    requires Can(k, a, move)
  {
    match move
    case Begin => k[a].(pc := WAIT_INSPECTION)
    case Take(from) => Taken(k, a, from)
    case Draw(value) =>
      k[a].(pc := LOOP_PRESENT, draws := k[a].draws + [value], held := k[a].held[a := value])
    case Leave => k[a].(pc := NOMINATE)
    case Redraw(value) => Redrawn(k[a], a, value)
    case Doze => k[a].(pc := WAIT_PRESENT, lockHeld := true)
    case Rouse => k[a].(pc := LOOP_UNIQUE)
  }

  // ----- carrying out handlers -----

  /** One more handler of `a`, counted from an earlier state `s0` in which only `a` differs. */
  lemma HandlerRuns(nodes: set<Address>, s0: System, s: System, a: Address, c: Choice) returns (s': System)
    requires Reachable(nodes, s) && a in s0 && a in s && s == s0[a := s[a]] && Enabled(a, s[a], c)
    ensures Reachable(nodes, s') && a in s' && s' == s0[a := s'[a]] && s'[a] == RunHandler(a, s[a], c)
  {
    hide Reachable, Enabled, RunHandler;
    ReachableNext(nodes, s, Handle(a, c));
    s' := Next(s, Handle(a, c));
  }

  lemma OneMoves(nodes: set<Address>, s: System, k: Sketches, a: Address, s': System)
    requires Fits(nodes, s, k) && a in nodes && a in s' && FitsNode(s'[a], SketchOf(s'[a]))
    requires s' == s[a := s'[a]] && Reachable(nodes, s')
    ensures Fits(nodes, s', k[a := SketchOf(s'[a])])
  {
    hide Reachable, FitsNode;
  }

  const INPUT := Block(PENDING, 0, 0, [Message(0, "", "")])

  function Chosen(draw: nat, nominee: Address): Choice {
    Choice(Some(INPUT), EMPTY_BLOCK, draw, nominee, EMPTY_BLOCK)
  }

  lemma Stores(nodes: set<Address>, s: System, k: Sketches, a: Address)
    requires Fits(nodes, s, k) && a in nodes
    ensures s[a].store.Keys == nodes == k[a].held.Keys && k[a].taken.Keys == nodes - {a}
  {
    hide Reachable, Inv;
    InvReachable(nodes, s);
    ShapeAt(nodes, s, a);
  }

  /** Neither the fate of a node, nor what it drew and received, nor the values it holds have changed. */
  predicate SameCourse(n: Node, n': Node) {
    && n'.status == n.status && n'.contributing == n.contributing
    && n'.draws == n.draws && n'.taken == n.taken && Values(n'.store) == Values(n.store)
  }

  lemma SameValues(v: SlotView, w: SlotView)
    requires v.Keys == w.Keys && forall b | b in v :: v[b].electionValue == w[b].electionValue
    ensures Values(v) == Values(w)
  {
  }

  lemma Announces(nodes: set<Address>, s: System, a: Address) returns (s': System)
    requires Reachable(nodes, s) && a in s && s[a].status.Running? && s[a].pc == INIT && a in s[a].store
    ensures Reachable(nodes, s') && a in s' && s' == s[a := s'[a]]
    ensures SameCourse(s[a].(contributing := true), s'[a])
    ensures s'[a].pc == WAIT_INSPECTION && s'[a].lockHeld == s[a].lockHeld
  {
    hide Reachable, ToAll, RunElection, RunBroadcast, Values;
    var c := Chosen(0, a);
    s' := HandlerRuns(nodes, s, s, a, c);
    s' := HandlerRuns(nodes, s, s', a, c);
    s' := HandlerRuns(nodes, s, s', a, c);
    SameValues(s[a].store, s'[a].store);
  }

  lemma Begins(nodes: set<Address>, s: System, k: Sketches, a: Address) returns (s': System)
    requires Fits(nodes, s, k) && Can(k, a, Begin)
    ensures Fits(nodes, s', k[a := Moved(k, a, Begin)])
  {
    hide Reachable, Values;
    Stores(nodes, s, k, a);
    s' := Announces(nodes, s, a);
    OneMoves(nodes, s, k, a, s');
  }

  // ----- receiving -----

  lemma CanReceive(nodes: set<Address>, s: System, k: Sketches, a: Address, b: Address)
    requires Fits(nodes, s, k) && CanTake(k, a, b)
    ensures CanDeliver(a, s[a], b, s[b]) && StepEnabled(s, Deliver(b, a))
    ensures var t := s[a].taken[b];
      s[b].sent[a][t] == if t == 0 then Inspection(s[b].contributing) else Election(s[b].draws[t - 1])
  {
    hide Reachable, Inv, OwnEntry, Flags, Gates, Known, InRound, Passed;
    InvReachable(nodes, s);
    LocalAt(nodes, s, b);
    PairAt(nodes, s, a, b);
    assert SentTo(s[b], a);
  }

  lemma DeliverIs(s: System, a: Address, b: Address)
    requires a in s && b in s && a != b && CanDeliver(a, s[a], b, s[b]) && StepEnabled(s, Deliver(b, a))
    ensures Next(s, Deliver(b, a)) == s[a := Delivered(a, s[a], b, s[b])]
  {
    hide Receive;
  }

  /** A packet that arrives before the receiver clears its slot does no harm. */
  lemma StillRuns(nodes: set<Address>, s: System, s': System, a: Address, b: Address)
    requires Reachable(nodes, s') && a in s && b in s && a != b && CanDeliver(a, s[a], b, s[b])
    requires a in s' && s'[a] == Delivered(a, s[a], b, s[b]) && s[a].status.Running? && s[a].pc <= NOMINATE
    ensures s'[a].status.Running?
  {
    hide Reachable, Inv, Local, Delivered;
    InvReachable(nodes, s');
    KeysAt(nodes, s');
    LocalAt(nodes, s', a);
    DeliverFrame(a, s[a], b, s[b]);
    DeliverEntry(a, s[a], b, s[b]);
  }

  lemma OneValueChanged(v: SlotView, w: SlotView, b: Address, value: nat)
    requires b in v && b in w && w == v[b := w[b]] && w[b].electionValue == value
    ensures Values(w) == Values(v)[b := value]
  {
  }

  lemma Receives(nodes: set<Address>, s: System, k: Sketches, a: Address, b: Address) returns (s': System)
    requires Fits(nodes, s, k) && CanTake(k, a, b)
    ensures Fits(nodes, s', k[a := Taken(k, a, {b})])
  {
    hide Reachable, Delivered;
    assert k[a].held[b] == s[a].store[b].electionValue;
    hide Values;
    CanReceive(nodes, s, k, a, b);
    ReachableNext(nodes, s, Deliver(b, a));
    s' := Next(s, Deliver(b, a));
    DeliverIs(s, a, b);
    hide Next, StepEnabled;
    DeliverFrame(a, s[a], b, s[b]);
    DeliverEntry(a, s[a], b, s[b]);
    StillRuns(nodes, s, s', a, b);
    OneValueChanged(s[a].store, s'[a].store, b, NextValue(k, a, b));
    TakenIs(k, a, b, s[a], s[b], s'[a]);
    OneMoves(nodes, s, k, a, s');
  }

  lemma TakenIs(k: Sketches, a: Address, b: Address, n: Node, m: Node, n': Node)
    requires CanTake(k, a, b) && FitsNode(n, k[a]) && FitsNode(m, k[b]) && b in n.taken && b in n.store
    requires n'.pc == n.pc && n'.lockHeld == n.lockHeld && n'.draws == n.draws
    requires n'.taken == n.taken[b := n.taken[b] + 1]
    requires b in Values(n.store) && Values(n'.store) == Values(n.store)[b := NextValue(k, a, b)]
    ensures SketchOf(n') == Taken(k, a, {b})
  {
  }

  lemma {:induction false} TakesAll(nodes: set<Address>, s: System, k: Sketches, a: Address, from: set<Address>)
    returns (s': System)
    requires Fits(nodes, s, k) && Can(k, a, Take(from))
    ensures Fits(nodes, s', k[a := Taken(k, a, from)])
    decreases |from|
  {
    hide Fits, Taken, CanTake;
    if from == {} {
      s' := s;
      TakenNothing(k, a);
    } else {
      var b :| b in from;
      var rest := from - {b};
      assert rest + {b} == from;
      s' := Receives(nodes, s, k, a, b);
      TakenRest(k, a, b, rest);
      var x := Taken(k, a, {b});
      s' := TakesAll(nodes, s', k[a := x], a, rest);
      assert k[a := x][a := Taken(k, a, from)] == k[a := Taken(k, a, from)];
    }
  }

  lemma TakenNothing(k: Sketches, a: Address)
    requires a in k
    ensures k[a := Taken(k, a, {})] == k
  {
    assert Taken(k, a, {}).taken == k[a].taken && Taken(k, a, {}).held == k[a].held;
  }

  lemma TakenRest(k: Sketches, a: Address, b: Address, rest: set<Address>)
    requires a in k && a in k[a].held && b !in rest && forall d | d in rest + {b} :: CanTake(k, a, d)
    ensures var k' := k[a := Taken(k, a, {b})];
      && Can(k', a, Take(rest)) && Taken(k', a, rest) == Taken(k, a, rest + {b})
  {
    var k' := k[a := Taken(k, a, {b})];
    forall d | d in rest
      ensures CanTake(k', a, d) && NextValue(k', a, d) == NextValue(k, a, d)
    {
      assert CanTake(k, a, d);
    }
    assert CanTake(k, a, b);
    var x, y := Taken(k', a, rest), Taken(k, a, rest + {b});
    assert x.taken == y.taken && x.held == y.held;
  }

  // ----- the other moves -----

  lemma Inspected(nodes: set<Address>, s: System, k: Sketches, a: Address, value: nat)
    requires Fits(nodes, s, k) && Can(k, a, Draw(value))
    ensures s[a].store.Keys == nodes && AllConfirmed(s[a].store) && AnyContributing(s[a].store)
  {
    hide Reachable, Inv;
    Stores(nodes, s, k, a);
    InvReachable(nodes, s);
    LocalAt(nodes, s, a);
    forall b | b in nodes
      ensures s[a].store[b].isContributing.Some?
    {
      if b != a {
        PairAt(nodes, s, a, b);
      }
    }
    assert s[a].store[a].isContributing == Some(true);
  }

  lemma Decides(nodes: set<Address>, s: System, a: Address) returns (s': System)
    requires Reachable(nodes, s) && a in s && s[a].status.Running? && s[a].pc == WAIT_INSPECTION
    requires a in s[a].store && AllConfirmed(s[a].store) && AnyContributing(s[a].store)
    ensures Reachable(nodes, s') && a in s' && s' == s[a := s'[a]]
    ensures SameCourse(s[a], s'[a]) && s'[a].pc == SEND_ELECTION && s'[a].lockHeld == s[a].lockHeld
    ensures a in s'[a].store
  {
    hide Reachable, AllConfirmed, AnyContributing, RunElection, RunBroadcast, Values;
    s' := HandlerRuns(nodes, s, s, a, Chosen(0, a));
    s' := HandlerRuns(nodes, s, s', a, Chosen(0, a));
  }

  /** Drawing is the same at both places. */
  lemma DrawsNow(nodes: set<Address>, s0: System, s: System, a: Address, value: nat) returns (s': System)
    requires Reachable(nodes, s) && a in s0 && a in s && s == s0[a := s[a]] && s[a].status.Running?
    requires (s[a].pc == SEND_ELECTION || s[a].pc == REDRAW) && a in s[a].store
    requires MIN_DRAW <= value <= MAX_DRAW
    ensures Reachable(nodes, s') && a in s' && s' == s0[a := s'[a]]
    ensures var n, n' := s[a], s'[a];
      && n'.status == n.status && n'.contributing == n.contributing && n'.pc == LOOP_PRESENT
      && n'.lockHeld == n.lockHeld && n'.taken == n.taken && n'.draws == n.draws + [value]
      && Values(n'.store) == Values(n.store)[a := value]
  {
    hide Reachable, ToAll, RunBroadcast;
    s' := HandlerRuns(nodes, s0, s, a, Chosen(value, a));
    OneValueChanged(s[a].store, s'[a].store, a, value);
  }

  lemma Draws(nodes: set<Address>, s: System, k: Sketches, a: Address, value: nat) returns (s': System)
    requires Fits(nodes, s, k) && Can(k, a, Draw(value))
    ensures Fits(nodes, s', k[a := Moved(k, a, Draw(value))])
  {
    hide Reachable, AllConfirmed, AnyContributing, Values;
    Inspected(nodes, s, k, a, value);
    var s1 := Decides(nodes, s, a);
    s' := DrawsNow(nodes, s, s1, a, value);
    OneMoves(nodes, s, k, a, s');
  }

  /** The questions the election asks are about the values held. */
  lemma Answers(n: Node, k: Sketch, a: Address)
    requires FitsNode(n, k) && a in k.held
    ensures a in n.store && n.store.Keys == k.held.Keys
    ensures AllPresent(n.store) <==> AllHeld(k)
    ensures IsUnique(n.store, a) <==> OwnUnique(k, a)
  {
    assert forall b | b in k.held :: k.held[b] == n.store[b].electionValue;
  }

  lemma Looks(nodes: set<Address>, s: System, a: Address) returns (s': System)
    requires Reachable(nodes, s) && a in s && s[a].status.Running? && s[a].pc == LOOP_PRESENT
    requires a in s[a].store && AllPresent(s[a].store) && !s[a].lockHeld
    ensures Reachable(nodes, s') && a in s' && s' == s[a := s'[a]] && SameCourse(s[a], s'[a]) && !s'[a].lockHeld
    ensures s'[a].pc == (if IsUnique(s[a].store, a) then NOMINATE else LOCK) && s'[a].store == s[a].store
  {
    hide Reachable, AllPresent, IsUnique, RunInspection, RunBroadcast, Values;
    s' := HandlerRuns(nodes, s, s, a, Chosen(0, a));
    s' := HandlerRuns(nodes, s, s', a, Chosen(0, a));
  }

  lemma Leaves(nodes: set<Address>, s: System, k: Sketches, a: Address) returns (s': System)
    requires Fits(nodes, s, k) && Can(k, a, Leave)
    ensures Fits(nodes, s', k[a := Moved(k, a, Leave)])
  {
    hide Reachable, Values, AllPresent, IsUnique, AllHeld, OwnUnique;
    Stores(nodes, s, k, a);
    Answers(s[a], k[a], a);
    s' := Looks(nodes, s, a);
    OneMoves(nodes, s, k, a, s');
  }

  lemma Resets(nodes: set<Address>, s0: System, s: System, a: Address) returns (s': System)
    requires Reachable(nodes, s) && a in s0 && a in s && s == s0[a := s[a]] && s[a].status.Running?
    requires s[a].pc == LOCK && !s[a].lockHeld && a in s[a].store
    requires AllPresent(s[a].store) && !IsUnique(s[a].store, a)
    ensures Reachable(nodes, s') && a in s' && s' == s0[a := s'[a]]
    ensures SameCourse(s[a].(store := ResetAll(s[a].store)), s'[a]) && s'[a].pc == UNLOCK && a in s'[a].store
  {
    hide Reachable, AllPresent, IsUnique, RunInspection, RunBroadcast, Values;
    var c := Chosen(0, a);
    s' := HandlerRuns(nodes, s0, s, a, c);
    s' := HandlerRuns(nodes, s0, s', a, c);
    s' := HandlerRuns(nodes, s0, s', a, c);
    s' := HandlerRuns(nodes, s0, s', a, c);
  }

  lemma Releases(nodes: set<Address>, s0: System, s: System, a: Address) returns (s': System)
    requires Reachable(nodes, s) && a in s0 && a in s && s == s0[a := s[a]] && s[a].status.Running?
    requires s[a].pc == UNLOCK && a in s[a].store
    ensures Reachable(nodes, s') && a in s' && s' == s0[a := s'[a]] && SameCourse(s[a], s'[a])
    ensures s'[a].pc == REDRAW && !s'[a].lockHeld && a in s'[a].store
  {
    hide Reachable, RunInspection, RunBroadcast, Values;
    s' := HandlerRuns(nodes, s0, s, a, Chosen(0, a));
  }

  lemma ResetValuesAre(v: SlotView, a: Address, value: nat)
    requires a in v
    ensures Values(ResetAll(v))[a := value] == map b | b in Values(v) :: if b == a then value else 0
  {
  }

  lemma Redraws(nodes: set<Address>, s: System, k: Sketches, a: Address, value: nat) returns (s': System)
    requires Fits(nodes, s, k) && Can(k, a, Redraw(value))
    ensures Fits(nodes, s', k[a := Moved(k, a, Redraw(value))])
  {
    hide Reachable, Values, ResetAll, AllPresent, IsUnique, AllHeld, OwnUnique;
    Stores(nodes, s, k, a);
    Answers(s[a], k[a], a);
    ResetValuesAre(s[a].store, a, value);
    var s1 := Looks(nodes, s, a);
    var s2 := Resets(nodes, s, s1, a);
    var s3 := Releases(nodes, s, s2, a);
    s' := DrawsNow(nodes, s, s3, a, value);
    OneMoves(nodes, s, k, a, s');
  }

  lemma Dozes(nodes: set<Address>, s: System, k: Sketches, a: Address) returns (s': System)
    requires Fits(nodes, s, k) && Can(k, a, Doze)
    ensures Fits(nodes, s', k[a := Moved(k, a, Doze)])
  {
    hide Reachable, AllPresent, IsUnique, RunInspection, RunBroadcast, AllHeld, OwnUnique;
    Stores(nodes, s, k, a);
    Answers(s[a], k[a], a);
    hide Values;
    s' := HandlerRuns(nodes, s, s, a, Chosen(0, a));
    s' := HandlerRuns(nodes, s, s', a, Chosen(0, a));
    OneMoves(nodes, s, k, a, s');
  }

  lemma Rouses(nodes: set<Address>, s: System, k: Sketches, a: Address) returns (s': System)
    requires Fits(nodes, s, k) && Can(k, a, Rouse)
    ensures Fits(nodes, s', k[a := Moved(k, a, Rouse)])
  {
    hide Reachable, AllPresent, IsUnique, RunInspection, RunBroadcast, AllHeld, OwnUnique;
    Stores(nodes, s, k, a);
    Answers(s[a], k[a], a);
    hide Values;
    s' := HandlerRuns(nodes, s, s, a, Chosen(0, a));
    s' := HandlerRuns(nodes, s, s', a, Chosen(0, a));
    s' := HandlerRuns(nodes, s, s', a, Chosen(0, a));
    OneMoves(nodes, s, k, a, s');
  }

  // ----- schedules -----

  /** Every move that is possible on sketches can be carried out. */
  lemma Performs(nodes: set<Address>, s: System, k: Sketches, a: Address, move: Move) returns (s': System)
    requires Fits(nodes, s, k) && Can(k, a, move)
    ensures Fits(nodes, s', k[a := Moved(k, a, move)])
  {
    hide Fits, Taken, Redrawn, AllHeld, OwnUnique;
    match move
    case Begin => s' := Begins(nodes, s, k, a);
    case Take(from) => s' := TakesAll(nodes, s, k, a, from);
    case Draw(value) => s' := Draws(nodes, s, k, a, value);
    case Leave => s' := Leaves(nodes, s, k, a);
    case Redraw(value) => s' := Redraws(nodes, s, k, a, value);
    case Doze => s' := Dozes(nodes, s, k, a);
    case Rouse => s' := Rouses(nodes, s, k, a);
  }

  /** Every node has drawn these values, and perhaps more. */
  predicate DrawsExtend(k: Sketches, draws: DrawLog) {
    k.Keys == draws.Keys && forall a | a in k :: draws[a] <= k[a].draws
  }

  /** No move takes a draw back. */
  lemma MovedExtends(k: Sketches, draws: DrawLog, a: Address, move: Move)
    requires DrawsExtend(k, draws) && Can(k, a, move)
    ensures DrawsExtend(k[a := Moved(k, a, move)], draws)
  {
  }

  /** The same, naming the sketches afterwards. */
  lemma PerformOne(nodes: set<Address>, s: System, k: Sketches, draws: DrawLog, a: Address, move: Move)
    returns (s': System, k': Sketches)
    requires Fits(nodes, s, k) && Can(k, a, move) && DrawsExtend(k, draws)
    ensures Fits(nodes, s', k') && k'.Keys == k.Keys && k'[a] == Moved(k, a, move) && DrawsExtend(k', draws)
    ensures forall b | b in k && b != a :: k'[b] == k[b]
  {
    MovedExtends(k, draws, a, move);
    hide Fits, Can, Moved, DrawsExtend;
    s' := Performs(nodes, s, k, a, move);
    k' := k[a := Moved(k, a, move)];
  }

  /** A move of one node neither prevents a move of another one nor changes what it leads to. */
  lemma Undisturbed(k: Sketches, a: Address, move: Move, b: Address, other: Move)
    requires a != b && Can(k, a, move) && Can(k, b, other)
    ensures var k' := k[b := Moved(k, b, other)];
      Can(k', a, move) && Moved(k', a, move) == Moved(k, a, move)
  {
    var k' := k[b := Moved(k, b, other)];
    if move.Take? {
      forall d | d in move.from
        ensures CanTake(k', a, d) && NextValue(k', a, d) == NextValue(k, a, d)
      {
        assert CanTake(k, a, d);
      }
      assert Taken(k', a, move.from).held == Taken(k, a, move.from).held;
    }
  }

  /** The sketches after each of `todo` has made its move. */
  function After(k: Sketches, todo: set<Address>, moves: map<Address, Move>): Sketches
    requires todo <= k.Keys && todo <= moves.Keys
    requires forall a | a in todo :: Can(k, a, moves[a])
  {
    map a | a in k :: if a in todo then Moved(k, a, moves[a]) else k[a]
  }

  lemma {:induction false} PerformAll(nodes: set<Address>, s: System, k: Sketches, todo: set<Address>,
                                      moves: map<Address, Move>)
    returns (s': System)
    requires Fits(nodes, s, k) && todo <= k.Keys && todo <= moves.Keys
    requires forall a | a in todo :: Can(k, a, moves[a])
    ensures Fits(nodes, s', After(k, todo, moves))
    decreases |todo|
  {
    hide Fits, Can, Moved;
    if todo == {} {
      s' := s;
      assert After(k, todo, moves) == k;
    } else {
      var b :| b in todo;
      s' := Performs(nodes, s, k, b, moves[b]);
      var k' := k[b := Moved(k, b, moves[b])];
      forall a | a in todo - {b}
        ensures Can(k', a, moves[a]) && Moved(k', a, moves[a]) == Moved(k, a, moves[a])
      {
        Undisturbed(k, a, moves[a], b, moves[b]);
      }
      s' := PerformAll(nodes, s', k', todo - {b}, moves);
      assert After(k', todo - {b}, moves) == After(k, todo, moves);
    }
  }

  /** Everybody makes a move. */
  lemma AllMove(nodes: set<Address>, s: System, k: Sketches, moves: map<Address, Move>, k': Sketches)
    returns (s': System)
    requires Fits(nodes, s, k) && k.Keys == k'.Keys == moves.Keys == nodes
    requires forall a | a in nodes :: Can(k, a, moves[a]) && Moved(k, a, moves[a]) == k'[a]
    ensures Fits(nodes, s', k')
  {
    hide Fits, Can, Moved;
    s' := PerformAll(nodes, s, k, nodes, moves);
    assert After(k, nodes, moves) == k';
  }
}
