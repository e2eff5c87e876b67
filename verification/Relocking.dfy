/**
  When a node can lock the mutex it already holds: a node that wakes up, finds its value
  unique and goes round with the lock held crashes if a new value of a peer collides before
  it looks again. From given first draws some run does so if and only if there are at least
  three nodes and two first draws are equal.
 */
module Relocking {
  import opened Types
  import opened StorageSpec
  import opened Protocol
  import opened Invariants
  import opened Links
  import opened Agreement
  import opened Slot
  import opened Schedules
  import opened Disagreement

  // ----- two nodes -----

  predicate Resetting(n: Node) {
    n.pc == RESET || n.pc == UNLOCK || n.pc == REDRAW
  }

  /** Of two nodes, one draws again only after a round in which both drew the same. */
  ghost predicate Matched(n: Node, m: Node) {
    && (m.draws != [] && |n.draws| == |m.draws| + 1 ==> n.draws[|m.draws| - 1] == Last(m.draws))
    && (Resetting(n) && |n.draws| == |m.draws| ==> Last(n.draws) == Last(m.draws))
  }

  /** A node that goes round with the lock held still has a value of its own. */
  ghost predicate Assured(a: Address, n: Node) {
    && n.status != Crashed(Relock)
    && (n.pc == LOCK ==> !n.lockHeld)
    && (n.lockHeld && (n.pc == LOOP_PRESENT || n.pc == LOOP_UNIQUE) && a in n.store ==> IsUnique(n.store, a))
  }

  ghost predicate InvTwo(nodes: set<Address>, s: System) {
    && s.Keys == nodes
    && (forall a | a in nodes :: Assured(a, s[a]))
    && (forall a, b | a in nodes && b in nodes && a != b :: Matched(s[a], s[b]))
  }

  /** A node that resets has received a value of its round from every peer. */
  lemma ResettingHas(nodes: set<Address>, a: Address, n: Node, b: Address, m: Node)
    requires Local(nodes, a, n) && Pair(a, n, b, m) && a != b && b in nodes && Resetting(n)
    ensures |n.draws| <= |m.draws|
  {
    hide SentAll, Flags, Known, Passed;
  }

  lemma DrawsClose(nodes: set<Address>, s: System, a: Address, b: Address)
    requires Inv(nodes, s) && a in nodes && b in nodes && a != b
    ensures |s[a].draws| <= |s[b].draws| + 1
  {
    hide Inv, Local;
    PairAt(nodes, s, a, b);
  }

  /** A collision is with the last value of the peer, unless the peer has drawn again. */
  lemma CollidesWithLast(nodes: set<Address>, a: Address, n: Node, b: Address, m: Node)
    requires Local(nodes, a, n) && Pair(a, n, b, m) && a != b && b in nodes
    requires n.pc == CHECK_UNIQUE && a in n.store && b in n.store
    requires n.store[b].electionValue == n.store[a].electionValue && |n.draws| == |m.draws|
    ensures Last(n.draws) == Last(m.draws)
  {
    hide SentAll, Flags, Known, Passed;
  }

  lemma OnlyPeer(nodes: set<Address>, v: SlotView, a: Address, b: Address)
    requires |nodes| <= 2 && v.Keys == nodes && a in nodes && b in nodes && a != b
    ensures IsUnique(v, a) <==> v[b].electionValue != v[a].electionValue
  {
    TwoNodes(nodes, a, b);
  }

  // ----- a handler -----

  lemma AssuredInLoop(nodes: set<Address>, a: Address, n: Node, c: Choice)
    requires Local(nodes, a, n) && Enabled(a, n, c) && Assured(a, n) && LOOP_PRESENT <= n.pc < NOMINATE
    ensures Assured(a, RunHandler(a, n, c))
  {
    hide SentAll, OwnEntry, Flags, AllPresent, AllConfirmed, AnyContributing, ToAll, RunInspection, RunBroadcast;
  }

  lemma DrawsUnlocked(a: Address, n: Node, c: Choice)
    requires Enabled(a, n, c) && n.pc == SEND_ELECTION
    ensures RunHandler(a, n, c).lockHeld == n.lockHeld && n.status.Running?
  {
  }

  lemma AssuredElsewhere(nodes: set<Address>, a: Address, n: Node, c: Choice)
    requires Local(nodes, a, n) && Enabled(a, n, c) && Assured(a, n) && (n.pc < LOOP_PRESENT || n.pc >= NOMINATE)
    ensures Assured(a, RunHandler(a, n, c))
  {
    hide RunHandler, Enabled, SentAll, OwnEntry, Flags, IsUnique;
    HandleKeeps(nodes, a, n, c);
    if n.pc == SEND_ELECTION {
      DrawsUnlocked(a, n, c);
    }
  }

  /** The node that runs. */
  lemma MatchedRuns(nodes: set<Address>, s: System, a: Address, b: Address, c: Choice)
    requires |nodes| <= 2 && Inv(nodes, s) && InvTwo(nodes, s)
    requires s.Keys == nodes && a in nodes && b in nodes && a != b && Enabled(a, s[a], c)
    ensures Matched(RunHandler(a, s[a], c), s[b])
  {
    hide Inv, Local, Pair, RunHandler, Enabled, InvTwo;
    assert Matched(s[a], s[b]) by { MatchedAt(nodes, s, a, b); }
    LocalAt(nodes, s, a);
    PairAt(nodes, s, a, b);
    ShapeAt(nodes, s, a);
    HandleKeeps(nodes, a, s[a], c);
    if s[a].pc == CHECK_UNIQUE {
      FindsCollision(nodes, a, s[a], b, s[b], c);
    } else {
      EntersReset(nodes, a, s[a], c);
    }
  }

  lemma MatchedAt(nodes: set<Address>, s: System, a: Address, b: Address)
    requires InvTwo(nodes, s) && a in nodes && b in nodes && a != b
    ensures Matched(s[a], s[b]) && Assured(a, s[a])
  {
    hide Matched, Assured;
  }

  lemma FindsCollision(nodes: set<Address>, a: Address, n: Node, b: Address, m: Node, c: Choice)
    requires |nodes| <= 2 && Local(nodes, a, n) && Pair(a, n, b, m) && a != b && b in nodes
    requires n.pc == CHECK_UNIQUE && Enabled(a, n, c)
    ensures RunHandler(a, n, c).draws == n.draws
    ensures Resetting(RunHandler(a, n, c)) && |n.draws| == |m.draws| ==> Last(n.draws) == Last(m.draws)
  {
    hide Local, Pair, RunInspection, RunBroadcast, IsUnique;
    assert a in nodes && n.store.Keys == nodes by { hide RunHandler, Enabled; StoreKeys(nodes, a, n); }
    OnlyPeer(nodes, n.store, a, b);
    if n.store[b].electionValue == n.store[a].electionValue && |n.draws| == |m.draws| {
      CollidesWithLast(nodes, a, n, b, m);
    }
  }

  lemma StoreKeys(nodes: set<Address>, a: Address, n: Node)
    requires Local(nodes, a, n)
    ensures a in nodes && n.store.Keys == nodes
  {
    hide SentAll, OwnEntry, Flags, Gates;
  }

  lemma EntersReset(nodes: set<Address>, a: Address, n: Node, c: Choice)
    requires Shape(nodes, a, n) && Enabled(a, n, c) && n.pc != CHECK_UNIQUE
    ensures Resetting(RunHandler(a, n, c)) ==> Resetting(n)
    ensures n.pc == REDRAW || n.pc == SEND_ELECTION ==> RunHandler(a, n, c).pc == LOOP_PRESENT
  {
    if LOOP_PRESENT <= n.pc < NOMINATE {
      EntersResetInLoop(a, n, c);
    } else {
      hide RunHandler, Enabled;
      HandleKeeps(nodes, a, n, c);
    }
  }

  lemma LoopTargets(a: Address, n: Node, draw: nat)
    requires a in n.store
    ensures !Resetting(ReadPresent(n)) && !Resetting(ReadUnique(a, n)) && !Resetting(PassValues(n))
    ensures n.pc == LOCK ==> !Resetting(TakeLock(n))
    ensures SendElection(a, n, draw).pc == LOOP_PRESENT
  {
    hide AllPresent, IsUnique, ToAll;
  }

  lemma EntersResetInLoop(a: Address, n: Node, c: Choice)
    requires Enabled(a, n, c) && LOOP_PRESENT <= n.pc < NOMINATE && n.pc != CHECK_UNIQUE
    ensures Resetting(RunHandler(a, n, c)) ==> Resetting(n)
    ensures n.pc == REDRAW ==> RunHandler(a, n, c).pc == LOOP_PRESENT
  {
    LoopTargets(a, n, c.draw);
    hide ReadPresent, ReadUnique, TakeLock, PassValues, ResetValues, ReleaseLock, SendElection,
      RunInspection, RunBroadcast;
  }

  /** The other node. */
  lemma MatchedWaits(nodes: set<Address>, s: System, a: Address, b: Address, c: Choice)
    requires Inv(nodes, s) && InvTwo(nodes, s)
    requires s.Keys == nodes && a in nodes && b in nodes && a != b && Enabled(a, s[a], c)
    ensures Matched(s[b], RunHandler(a, s[a], c))
  {
    hide Inv, Local, Pair, RunHandler, Enabled, InvTwo;
    assert Matched(s[b], s[a]) by { MatchedAt(nodes, s, b, a); }
    LocalAt(nodes, s, b);
    PairAt(nodes, s, b, a);
    ShapeAt(nodes, s, a);
    HandleKeeps(nodes, a, s[a], c);
    DrawsClose(nodes, s, b, a);
    if Resetting(s[b]) {
      ResettingHas(nodes, b, s[b], a, s[a]);
    }
  }

  lemma HandleKeepsTwo(nodes: set<Address>, s: System, a: Address, c: Choice)
    requires |nodes| <= 2 && Inv(nodes, s) && InvTwo(nodes, s) && StepEnabled(s, Handle(a, c))
    ensures InvTwo(nodes, Next(s, Handle(a, c)))
  {
    hide Inv, RunHandler, Enabled, Matched, Assured;
    KeysAt(nodes, s);
    LocalAt(nodes, s, a);
    hide Local;
    if LOOP_PRESENT <= s[a].pc < NOMINATE {
      AssuredInLoop(nodes, a, s[a], c);
    } else {
      AssuredElsewhere(nodes, a, s[a], c);
    }
    forall b | b in nodes && b != a
      ensures Matched(RunHandler(a, s[a], c), s[b]) && Matched(s[b], RunHandler(a, s[a], c))
    {
      MatchedRuns(nodes, s, a, b, c);
      MatchedWaits(nodes, s, a, b, c);
    }
  }

  // ----- a delivery -----

  /** No further value can reach a node that goes round with the lock held: its peer waits for it. */
  lemma NoNewValue(nodes: set<Address>, s: System, a: Address, b: Address)
    requires Inv(nodes, s) && InvTwo(nodes, s) && a in nodes && b in nodes && a != b
    requires CanDeliver(a, s[a], b, s[b]) && s[a].lockHeld && (s[a].pc == LOOP_PRESENT || s[a].pc == LOOP_UNIQUE)
    ensures !s[b].sent[a][s[a].taken[b]].Election?
  {
    hide Inv, SentAll, InvTwo, Passed;
    LocalAt(nodes, s, a);
    PairAt(nodes, s, a, b);
    MatchedAt(nodes, s, a, b);
    MatchedAt(nodes, s, b, a);
    DrawsClose(nodes, s, b, a);
    NextElection(nodes, s, a, b);
    hide SentTo;
  }

  lemma NextElection(nodes: set<Address>, s: System, a: Address, b: Address)
    requires Inv(nodes, s) && a in nodes && b in nodes && a != b && CanDeliver(a, s[a], b, s[b])
    ensures s[b].sent[a][s[a].taken[b]].Election? ==> 1 <= s[a].taken[b] <= |s[b].draws|
  {
    hide Inv, OwnEntry, Flags, Gates, Known, InRound, Passed;
    LocalAt(nodes, s, b);
    PairAt(nodes, s, a, b);
    assert SentTo(s[b], a);
  }

  lemma AssuredReceives(nodes: set<Address>, s: System, b: Address, a: Address)
    requires |nodes| <= 2 && Inv(nodes, s) && InvTwo(nodes, s)
    requires s.Keys == nodes && a in nodes && b in nodes && a != b && CanDeliver(a, s[a], b, s[b])
    ensures Assured(a, Delivered(a, s[a], b, s[b]))
  {
    hide Inv, InvTwo, Delivered, Local;
    MatchedAt(nodes, s, a, b);
    DeliverFrame(a, s[a], b, s[b]);
    DeliverEntry(a, s[a], b, s[b]);
    if s[a].lockHeld && (s[a].pc == LOOP_PRESENT || s[a].pc == LOOP_UNIQUE) {
      NoNewValue(nodes, s, a, b);
      LocalAt(nodes, s, a);
      StoreKeys(nodes, a, s[a]);
      OnlyPeer(nodes, s[a].store, a, b);
      OnlyPeer(nodes, Delivered(a, s[a], b, s[b]).store, a, b);
    }
    hide IsUnique;
  }

  lemma DeliverKeepsTwo(nodes: set<Address>, s: System, b: Address, a: Address)
    requires |nodes| <= 2 && Inv(nodes, s) && InvTwo(nodes, s) && StepEnabled(s, Deliver(b, a))
    ensures InvTwo(nodes, Next(s, Deliver(b, a)))
  {
    hide Inv, Assured;
    KeysAt(nodes, s);
    DeliverStep(nodes, s, b, a);
    hide StepEnabled, Next, Delivered;
    AssuredReceives(nodes, s, b, a);
    DeliverFrame(a, s[a], b, s[b]);
  }

  lemma InitialTwo(nodes: set<Address>)
    ensures InvTwo(nodes, Initial(nodes))
  {
  }

  lemma {:induction false} TwoRun(nodes: set<Address>, run: seq<System>, steps: seq<Step>, k: nat)
    requires |nodes| <= 2 && IsRun(nodes, run, steps) && k <= |steps|
    ensures InvTwo(nodes, run[k])
  {
    hide InvTwo, Inv, Next, StepEnabled, Initial;
    if k == 0 {
      InitialTwo(nodes);
    } else {
      TwoRun(nodes, run, steps, k - 1);
      InvRun(nodes, run, steps, k - 1);
      match steps[k - 1]
      case Handle(a, c) => HandleKeepsTwo(nodes, run[k - 1], a, c);
      case Deliver(b, a) => DeliverKeepsTwo(nodes, run[k - 1], b, a);
    }
  }

  /** With two nodes or fewer the lock is never taken twice, whatever the draws. */
  lemma TwoNeverRelock(nodes: set<Address>, s: System, a: Address)
    requires |nodes| <= 2 && Reachable(nodes, s) && a in s
    ensures s[a].status != Crashed(Relock)
  {
    hide Matched, Next, StepEnabled, Initial;
    var run, steps :| IsRun(nodes, run, steps) && run[|steps|] == s;
    TwoRun(nodes, run, steps, |steps|);
  }

  // ----- three nodes -----

  function Asleep(k: Sketch): Sketch {
    k.(pc := WAIT_PRESENT, lockHeld := true)
  }

  lemma FallsAsleep(nodes: set<Address>, k: Sketches, draws: DrawLog, rounds: nat, e: Address, d: Address)
    requires rounds > 0 && e in nodes && d in nodes && e != d && k.Keys == nodes == draws.Keys
    requires k[e] == Standing(nodes, e, LOOP_PRESENT, draws[e], rounds)
    ensures Can(k, e, Doze) && Moved(k, e, Doze) == Asleep(k[e])
  {
    assert k[e].held[d] == 0;
  }

  lemma AsleepReady(nodes: set<Address>, k: Sketches, draws: DrawLog, rounds: nat, e: Address, d: Address)
    requires InStep(nodes, draws, rounds) && e in nodes && d in nodes && e != d && k.Keys == nodes
    requires k[e] == Asleep(Standing(nodes, e, LOOP_PRESENT, draws[e], rounds))
    requires k[d] == Informed(nodes, d, draws[d], rounds, Current(draws))
    requires forall b | b in nodes && b != e && b != d :: k[b] == AtStage(nodes, LOOP_PRESENT, draws, rounds)[b]
    ensures PacketsReady(nodes, k, e, rounds, Current(draws))
  {
    hide Counts, OwnOnly;
    OwnOnlyIs(nodes, e, Last(draws[e]));
  }

  lemma OwnOnlyIs(nodes: set<Address>, a: Address, value: nat)
    requires a in nodes
    ensures OwnOnly(nodes, a, value).Keys == nodes && OwnOnly(nodes, a, value)[a] == value
  {
  }

  lemma AwaitsNothing(nodes: set<Address>, k: Sketch, draws: DrawLog, rounds: nat, e: Address)
    requires e in draws && k == Asleep(Standing(nodes, e, LOOP_PRESENT, draws[e], rounds))
    ensures k.(taken := Counts(nodes, e, rounds + 1), held := Current(draws))
         == Asleep(Informed(nodes, e, draws[e], rounds, Current(draws)))
  {
  }

  /** All values arrive at `d`; `e` sleeps before it has any value of its peers, and then they arrive. */
  lemma SleepsAndReceives(nodes: set<Address>, s: System, draws: DrawLog, rounds: nat, e: Address, d: Address)
    returns (s': System, k': Sketches)
    requires InStep(nodes, draws, rounds) && Fits(nodes, s, AtStage(nodes, LOOP_PRESENT, draws, rounds))
    requires e in nodes && d in nodes && e != d
    ensures Fits(nodes, s', k') && k'.Keys == nodes && DrawsExtend(k', draws)
    ensures k'[e] == Asleep(Informed(nodes, e, draws[e], rounds, Current(draws)))
    ensures k'[d] == Informed(nodes, d, draws[d], rounds, Current(draws))
  {
    assert DrawsExtend(AtStage(nodes, LOOP_PRESENT, draws, rounds), draws);
    hide Fits, Can, Moved, PacketsReady, Counts, OwnOnly, DrawsExtend, Asleep;
    var k := AtStage(nodes, LOOP_PRESENT, draws, rounds);
    TakesValues(nodes, k, draws, rounds, d);
    var s1, k1 := PerformOne(nodes, s, k, draws, d, Take(nodes - {d}));
    FallsAsleep(nodes, k1, draws, rounds, e, d);
    var s2, k2 := PerformOne(nodes, s1, k1, draws, e, Doze);
    AsleepReady(nodes, k2, draws, rounds, e, d);
    TakesRound(nodes, k2, e, rounds, Current(draws));
    s', k' := PerformOne(nodes, s2, k2, draws, e, Take(nodes - {e}));
    AwaitsNothing(nodes, k2[e], draws, rounds, e);
  }

  /** `e` wakes up with a value of its own, and goes round. */
  lemma WakesAssured(k: Sketches, nodes: set<Address>, draws: DrawLog, rounds: nat, e: Address)
    requires InStep(nodes, draws, rounds) && e in nodes && Rivals(Current(draws), e) == {}
    requires k.Keys == nodes && k[e] == Asleep(Informed(nodes, e, draws[e], rounds, Current(draws)))
    ensures Can(k, e, Rouse) && Moved(k, e, Rouse) == k[e].(pc := LOOP_UNIQUE)
  {
    forall b | b in nodes && b != e
      ensures Last(draws[b]) != Last(draws[e])
    {
      assert b !in Rivals(Current(draws), e);
    }
  }

  /** `d` draws the value of `e`, which then holds it twice. */
  lemma DrawsTheSame(k: Sketches, nodes: set<Address>, draws: DrawLog, rounds: nat, e: Address, d: Address)
    requires InStep(nodes, draws, rounds) && e in nodes && d in nodes && e != d && k.Keys == nodes
    requires k[e].pc == LOOP_UNIQUE && k[e].taken == Counts(nodes, e, rounds + 1) && k[e].held == Current(draws)
    requires k[d] == Redrawn(Informed(nodes, d, draws[d], rounds, Current(draws)), d, Current(draws)[e])
    ensures Can(k, e, Take({d}))
    ensures var x := Moved(k, e, Take({d}));
      x.pc == LOOP_UNIQUE && x.lockHeld == k[e].lockHeld && x.draws == k[e].draws
      && e in x.held && !OwnUnique(x, e)
  {
    assert CanTake(k, e, d) && NextValue(k, e, d) == Current(draws)[e];
    var x := Taken(k, e, {d});
    assert x.held[d] == x.held[e];
  }

  /** `e` finds the new collision and takes the lock again. */
  lemma Relocks(nodes: set<Address>, s: System, k: Sketches, e: Address) returns (s': System)
    requires Fits(nodes, s, k) && e in nodes && k[e].pc == LOOP_UNIQUE && k[e].lockHeld
    requires e in k[e].held && !OwnUnique(k[e], e)
    ensures Reachable(nodes, s') && s'.Keys == nodes && s'[e].status == Crashed(Relock)
    ensures forall a | a in nodes :: s'[a].draws == k[a].draws
  {
    hide Reachable, AllPresent, IsUnique, RunInspection, RunBroadcast, AllHeld, OwnUnique;
    Stores(nodes, s, k, e);
    Answers(s[e], k[e], e);
    hide Values;
    s' := HandlerRuns(nodes, s, s, e, Chosen(0, e));
    s' := HandlerRuns(nodes, s, s', e, Chosen(0, e));
  }

  /** `e` goes round with the lock held. */
  lemma GoesRound(nodes: set<Address>, s: System, draws: DrawLog, rounds: nat, e: Address, d: Address)
    returns (s': System, k': Sketches)
    requires InStep(nodes, draws, rounds) && Fits(nodes, s, AtStage(nodes, LOOP_PRESENT, draws, rounds))
    requires d in nodes && e in nodes && e != d && Rivals(Current(draws), e) == {}
    ensures Fits(nodes, s', k') && k'.Keys == nodes && DrawsExtend(k', draws)
    ensures k'[e] == Asleep(Informed(nodes, e, draws[e], rounds, Current(draws))).(pc := LOOP_UNIQUE)
    ensures k'[d] == Informed(nodes, d, draws[d], rounds, Current(draws))
  {
    assert draws.Keys == nodes;
    hide Fits, Can, Moved, AtStage, Rivals, InStep, Informed, Asleep, Current, DrawsExtend;
    var s1, k1 := SleepsAndReceives(nodes, s, draws, rounds, e, d);
    WakesAssured(k1, nodes, draws, rounds, e);
    s', k' := PerformOne(nodes, s1, k1, draws, e, Rouse);
  }

  lemma InRange(nodes: set<Address>, draws: DrawLog, e: Address)
    requires ValidDraws(nodes, Current(draws)) && e in nodes
    ensures e in Current(draws) && MIN_DRAW <= Current(draws)[e] <= MAX_DRAW
  {
  }

  /** Only then does `d`, whose value collides, draw that of `e`. */
  lemma DrawsLate(nodes: set<Address>, s: System, draws: DrawLog, rounds: nat, e: Address, d: Address, c: Address)
    returns (s': System, k': Sketches)
    requires InStep(nodes, draws, rounds) && Fits(nodes, s, AtStage(nodes, LOOP_PRESENT, draws, rounds))
    requires ValidDraws(nodes, Current(draws)) && d in nodes && e in nodes && e != d
    requires Rivals(Current(draws), e) == {} && c in Rivals(Current(draws), d)
    ensures Fits(nodes, s', k') && k'.Keys == nodes && DrawsExtend(k', draws)
    ensures k'[e] == Asleep(Informed(nodes, e, draws[e], rounds, Current(draws))).(pc := LOOP_UNIQUE)
    ensures k'[d] == Redrawn(Informed(nodes, d, draws[d], rounds, Current(draws)), d, Current(draws)[e])
  {
    hide *;
    InRange(nodes, draws, e);
    var value := Current(draws)[e];
    var s1, k := GoesRound(nodes, s, draws, rounds, e, d);
    RedrawsValue(k, nodes, draws, rounds, d, c, value);
    s', k' := PerformOne(nodes, s1, k, draws, d, Redraw(value));
  }

  lemma RoundRelocks(nodes: set<Address>, s: System, draws: DrawLog, rounds: nat,
                     first: map<Address, nat>, e: Address, d: Address, c: Address)
    returns (s': System)
    requires InStep(nodes, draws, rounds) && Fits(nodes, s, AtStage(nodes, LOOP_PRESENT, draws, rounds))
    requires StartsWith(draws, first) && ValidDraws(nodes, Current(draws)) && d in nodes && e in nodes && e != d
    requires Rivals(Current(draws), e) == {} && c in Rivals(Current(draws), d)
    ensures Reachable(nodes, s') && DrawnFrom(s', first) && s'.Keys == nodes && s'[e].status == Crashed(Relock)
  {
    hide Fits, Can, AtStage, Rivals, Reachable, DrawnFrom, Taken, OwnUnique, ValidDraws, StartsWith, DrawsExtend;
    var s1, k1 := DrawsLate(nodes, s, draws, rounds, e, d, c);
    DrawsTheSame(k1, nodes, draws, rounds, e, d);
    hide Moved;
    var s2, k2 := PerformOne(nodes, s1, k1, draws, e, Take({d}));
    s' := Relocks(nodes, s2, k2, e);
    StillDrawn(s', k2, draws, first);
  }

  lemma RedrawsValue(k: Sketches, nodes: set<Address>, draws: DrawLog, rounds: nat, d: Address, c: Address,
                     value: nat)
    requires InStep(nodes, draws, rounds) && k.Keys == nodes && d in nodes && c in Rivals(Current(draws), d)
    requires k[d] == Informed(nodes, d, draws[d], rounds, Current(draws)) && MIN_DRAW <= value <= MAX_DRAW
    ensures Can(k, d, Redraw(value)) && Moved(k, d, Redraw(value)) == Redrawn(k[d], d, value)
  {
    hide Counts, Redrawn;
    assert !OwnUnique(k[d], d);
  }

  lemma StillDrawn(s: System, k: Sketches, draws: DrawLog, first: map<Address, nat>)
    requires StartsWith(draws, first) && DrawsExtend(k, draws) && s.Keys == k.Keys
    requires forall a | a in k :: s[a].draws == k[a].draws
    ensures DrawnFrom(s, first)
  {
  }

  lemma FirstRoundRelocks(nodes: set<Address>, first: map<Address, nat>, e: Address, d: Address, c: Address)
    returns (s: System)
    requires ValidDraws(nodes, first) && d in nodes && e in nodes && e != d
    requires Rivals(first, e) == {} && c in Rivals(first, d)
    ensures Reachable(nodes, s) && DrawnFrom(s, first) && s.Keys == nodes && s[e].status == Crashed(Relock)
  {
    var draws := FirstDraws(first);
    FirstDrawsStart(first);
    assert draws.Keys == nodes;
    hide *;
    s := AllDraw(nodes, first);
    s := RoundRelocks(nodes, s, draws, 1, first, e, d, c);
  }

  lemma NextRoundRelocks(nodes: set<Address>, s: System, draws: DrawLog, rounds: nat,
                         first: map<Address, nat>, renewed: map<Address, nat>, e: Address, d: Address, c: Address)
    returns (s': System)
    requires InStep(nodes, draws, rounds) && Fits(nodes, s, AllInformed(nodes, draws, rounds))
    requires StartsWith(draws, first) && AllCollide(Current(draws))
    requires ValidDraws(nodes, renewed) && renewed.Keys == draws.Keys && d in nodes && e in nodes && e != d
    requires Rivals(renewed, e) == {} && c in Rivals(renewed, d)
    ensures Reachable(nodes, s') && DrawnFrom(s', first) && s'.Keys == nodes && s'[e].status == Crashed(Relock)
  {
    hide *;
    ExtendedStarts(draws, first, renewed);
    ExtendedInStep(nodes, draws, rounds, renewed);
    var s1 := AllRedraw(nodes, s, draws, rounds, renewed);
    s' := RoundRelocks(nodes, s1, Extended(draws, renewed), rounds + 1, first, e, d, c);
  }

  lemma SecondRoundRelocks(nodes: set<Address>, first: map<Address, nat>, e: Address, d: Address, c: Address)
    returns (s: System)
    requires ValidDraws(nodes, first) && AllCollide(first)
    requires c in nodes && d in nodes && e in nodes && e != c && c != d && e != d
    ensures Reachable(nodes, s) && DrawnFrom(s, first) && s.Keys == nodes && s[e].status == Crashed(Relock)
  {
    var draws := FirstDraws(first);
    FirstDrawsStart(first);
    assert draws.Keys == nodes;
    hide *;
    s := AllDraw(nodes, first);
    s := AllTake(nodes, s, draws, 1);
    OddRivals(nodes, e, c, d);
    s := NextRoundRelocks(nodes, s, draws, 1, first, Odd(nodes, e), e, d, c);
  }

  /** With three nodes or more, a collision among the first draws can make a node lock twice. */
  lemma CollisionRelocks(nodes: set<Address>, first: map<Address, nat>, c: Address, d: Address)
    returns (s: System, e: Address)
    requires ValidDraws(nodes, first) && |nodes| >= 3
    requires c in nodes && d in nodes && c != d && first[c] == first[d]
    ensures Reachable(nodes, s) && DrawnFrom(s, first) && e in s && s[e].status == Crashed(Relock)
  {
    assert c in Rivals(first, d);
    hide Reachable, DrawnFrom, AllCollide, Rivals;
    if !AllCollide(first) {
      e := Apart(first);
      RivalKnown(first, d, c);
      s := FirstRoundRelocks(nodes, first, e, d, c);
    } else {
      e := ThirdNode(nodes, c, d);
      s := SecondRoundRelocks(nodes, first, e, d, c);
    }
  }

  /** Some run from the given first draws locks twice if and only if there are three nodes and a collision. */
  lemma RelockExactly(nodes: set<Address>, first: map<Address, nat>)
    requires ValidDraws(nodes, first)
    ensures (exists s: System, a ::
               Reachable(nodes, s) && DrawnFrom(s, first) && a in s && s[a].status == Crashed(Relock))
            <==> |nodes| >= 3 && !Distinct(first)
  {
    if |nodes| >= 3 && !Distinct(first) {
      hide Reachable, DrawnFrom;
      var c, d :| c in first && d in first && c != d && first[c] == first[d];
      var s, e := CollisionRelocks(nodes, first, c, d);
    } else {
      forall s: System, a | Reachable(nodes, s) && DrawnFrom(s, first) && a in s
        ensures s[a].status != Crashed(Relock)
      {
        if |nodes| <= 2 {
          hide Reachable;
          TwoNeverRelock(nodes, s, a);
        } else {
          assert FirstDrawsDistinct(s);
          hide FirstDrawsDistinct, Reachable;
          DistinctDrawsSettle(nodes, s);
        }
      }
    }
  }
}
