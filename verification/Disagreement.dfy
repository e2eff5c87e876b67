/**
  When agreement can fail. Given the first draw of every node, all marks agree in every run
  if and only if there are at most two nodes or the first draws are pairwise distinct. The
  other runs are built as schedules: a node leaves the election when its own value is unique
  among the values it holds, and these may be of different rounds for different nodes.
 */
module Disagreement {
  import opened Types
  import opened Totals
  import opened StorageSpec
  import opened Protocol
  import opened Invariants
  import opened Links
  import opened Agreement
  import opened Slot
  import opened Schedules

  /** The nodes of `s` that have drawn have drawn first what `first` says. */
  ghost predicate DrawnFrom(s: System, first: map<Address, nat>) {
    forall a | a in s && s[a].draws != [] :: a in first && s[a].draws[0] == first[a]
  }

  predicate ValidDraws(nodes: set<Address>, first: map<Address, nat>) {
    first.Keys == nodes && forall a | a in first :: MIN_DRAW <= first[a] <= MAX_DRAW
  }

  /** `p` is marked by `a`, which has not cleared the slot. */
  predicate Marks(s: System, a: Address, p: Address) {
    a in s && TRANSFER <= s[a].pc <= SAVE_COMPLETE && p in s[a].store && s[a].store[p].isValidator
  }

  ghost predicate MarksAgree(s: System) {
    forall a, b, p, q | Marks(s, a, p) && Marks(s, b, q) :: p == q
  }

  ghost predicate AlwaysAgree(nodes: set<Address>, first: map<Address, nat>) {
    forall s | Reachable(nodes, s) && DrawnFrom(s, first) :: MarksAgree(s)
  }

  // ----- where marks agree -----

  lemma OneMark(nodes: set<Address>, s: System, a: Address, p: Address, q: Address)
    requires Reachable(nodes, s) && Marks(s, a, p) && Marks(s, a, q)
    ensures p == q
  {
    hide Reachable, Inv;
    InvReachable(nodes, s);
    KeysAt(nodes, s);
    LocalAt(nodes, s, a);
  }

  lemma TwoNodes(nodes: set<Address>, a: Address, b: Address)
    requires |nodes| <= 2 && a in nodes && b in nodes && a != b
    ensures nodes == {a, b}
  {
    var rest := nodes - {a, b};
    assert nodes == rest + {a, b};
    assert |{a, b}| == 2;
  }

  lemma MarksAgreeHere(nodes: set<Address>, s: System, first: map<Address, nat>, a: Address, b: Address,
                       p: Address, q: Address)
    requires |nodes| <= 2 || Distinct(first)
    requires Reachable(nodes, s) && DrawnFrom(s, first) && Marks(s, a, p) && Marks(s, b, q)
    ensures p == q
  {
    hide Reachable, Inv, Settled;
    if a == b {
      OneMark(nodes, s, a, p, q);
    } else if Distinct(first) {
      DistinctDrawsSettle(nodes, s);
      SettledElection(nodes, s, a, b, p, q);
    } else {
      InvReachable(nodes, s);
      KeysAt(nodes, s);
      TwoNodes(nodes, a, b);
      ElectionAgreement(nodes, s, a, b, p, q);
    }
  }

  // ----- schedules up to the election -----

  function OwnOnly(nodes: set<Address>, a: Address, value: nat): map<Address, nat> {
    map b | b in nodes :: if b == a then value else 0
  }

  function Counts(nodes: set<Address>, a: Address, count: nat): map<Address, nat> {
    map b | b in nodes - {a} :: count
  }

  /** A node that has received as many packets of each peer, and holds its own value. */
  function Standing(nodes: set<Address>, a: Address, pc: nat, draws: seq<nat>, taken: nat): Sketch {
    Sketch(pc, false, draws, Counts(nodes, a, taken), OwnOnly(nodes, a, Last(draws)))
  }

  function AtStage(nodes: set<Address>, pc: nat, draws: DrawLog, taken: nat): (k: Sketches)
    requires draws.Keys == nodes
    ensures k.Keys == nodes
  {
    map a | a in nodes :: Standing(nodes, a, pc, draws[a], taken)
  }

  function NoDraws(nodes: set<Address>): DrawLog {
    map a | a in nodes :: []
  }

  /** The values of the current round. */
  function Current(draws: DrawLog): map<Address, nat> {
    map a | a in draws :: Last(draws[a])
  }

  predicate InStep(nodes: set<Address>, draws: DrawLog, rounds: nat) {
    rounds > 0 && draws.Keys == nodes && forall a | a in nodes :: |draws[a]| == rounds && Last(draws[a]) > 0
  }

  /** A node that has received the values of the current round. */
  function Informed(nodes: set<Address>, a: Address, draws: seq<nat>, rounds: nat, values: map<Address, nat>): Sketch {
    Sketch(LOOP_PRESENT, false, draws, Counts(nodes, a, rounds + 1), values)
  }

  function AllInformed(nodes: set<Address>, draws: DrawLog, rounds: nat): (k: Sketches)
    requires draws.Keys == nodes
    ensures k.Keys == nodes
  {
    map a | a in nodes :: Informed(nodes, a, draws[a], rounds, Current(draws))
  }

  lemma InitialNodeFits(nodes: set<Address>, a: Address)
    requires a in nodes
    ensures FitsNode(InitialNode(nodes, a), Standing(nodes, a, INIT, [], 0))
  {
    var n := InitialNode(nodes, a);
    assert n.taken == Counts(nodes, a, 0);
    assert Values(n.store) == OwnOnly(nodes, a, 0);
  }

  lemma InitialFits(nodes: set<Address>)
    ensures Fits(nodes, Initial(nodes), AtStage(nodes, INIT, NoDraws(nodes), 0))
  {
    hide Reachable, FitsNode, InitialNode, Standing;
    ReachableInitial(nodes);
    forall a | a in nodes
      ensures FitsNode(Initial(nodes)[a], AtStage(nodes, INIT, NoDraws(nodes), 0)[a])
    {
      InitialNodeFits(nodes, a);
    }
  }

  function TakeMoves(nodes: set<Address>): map<Address, Move> {
    map a | a in nodes :: Take(nodes - {a})
  }

  lemma CanBegin(nodes: set<Address>, k: Sketches, a: Address)
    requires a in nodes && a in k && k[a] == Standing(nodes, a, INIT, [], 0)
    ensures Can(k, a, Begin) && Moved(k, a, Begin) == Standing(nodes, a, WAIT_INSPECTION, [], 0)
  {
  }

  lemma AllBegin(nodes: set<Address>) returns (s: System)
    ensures Fits(nodes, s, AtStage(nodes, WAIT_INSPECTION, NoDraws(nodes), 0))
  {
    hide Fits, Can, Moved, Standing;
    InitialFits(nodes);
    var k, k' := AtStage(nodes, INIT, NoDraws(nodes), 0), AtStage(nodes, WAIT_INSPECTION, NoDraws(nodes), 0);
    var moves := map a | a in nodes :: Begin;
    forall a | a in nodes
      ensures Can(k, a, moves[a]) && Moved(k, a, moves[a]) == k'[a]
    {
      CanBegin(nodes, k, a);
    }
    s := AllMove(nodes, Initial(nodes), k, moves, k');
  }

  /** Every peer has published a packet with the given value, which has not been taken. */
  ghost predicate PacketsReady(nodes: set<Address>, k: Sketches, a: Address, taken: nat, values: map<Address, nat>) {
    && k.Keys == nodes == values.Keys && a in nodes && k[a].pc <= NOMINATE
    && k[a].taken == Counts(nodes, a, taken) && k[a].held.Keys == nodes && k[a].held[a] == values[a]
    && forall b | b in nodes - {a} ::
         && NOTIFY < k[b].pc <= NOMINATE && taken <= |k[b].draws|
         && values[b] == if taken == 0 then k[a].held[b] else k[b].draws[taken - 1]
  }

  lemma TakesRound(nodes: set<Address>, k: Sketches, a: Address, taken: nat, values: map<Address, nat>)
    requires PacketsReady(nodes, k, a, taken, values)
    ensures Can(k, a, Take(nodes - {a}))
    ensures Moved(k, a, Take(nodes - {a})) == k[a].(taken := Counts(nodes, a, taken + 1), held := values)
  {
    var from := nodes - {a};
    forall b | b in from
      ensures CanTake(k, a, b) && NextValue(k, a, b) == values[b]
    {
    }
    var x := Taken(k, a, from);
    assert x.taken == Counts(nodes, a, taken + 1);
    assert x.held == values;
  }

  lemma InspectionsReady(nodes: set<Address>, k: Sketches, a: Address)
    requires k == AtStage(nodes, WAIT_INSPECTION, NoDraws(nodes), 0) && a in nodes
    ensures PacketsReady(nodes, k, a, 0, OwnOnly(nodes, a, 0))
    ensures k[a] == Standing(nodes, a, WAIT_INSPECTION, [], 0)
  {
    hide Counts;
  }

  lemma TakesInspections(nodes: set<Address>, k: Sketches, a: Address)
    requires PacketsReady(nodes, k, a, 0, OwnOnly(nodes, a, 0)) && a in k
    requires k[a] == Standing(nodes, a, WAIT_INSPECTION, [], 0)
    ensures Can(k, a, Take(nodes - {a}))
    ensures Moved(k, a, Take(nodes - {a})) == Standing(nodes, a, WAIT_INSPECTION, [], 1)
  {
    hide Can, Moved, Counts, OwnOnly, PacketsReady;
    TakesRound(nodes, k, a, 0, OwnOnly(nodes, a, 0));
  }

  lemma AllInspect(nodes: set<Address>) returns (s: System)
    ensures Fits(nodes, s, AtStage(nodes, WAIT_INSPECTION, NoDraws(nodes), 1))
  {
    hide Fits, Can, Moved, Standing, PacketsReady;
    s := AllBegin(nodes);
    var k, k' := AtStage(nodes, WAIT_INSPECTION, NoDraws(nodes), 0), AtStage(nodes, WAIT_INSPECTION, NoDraws(nodes), 1);
    forall a | a in nodes
      ensures Can(k, a, TakeMoves(nodes)[a]) && Moved(k, a, TakeMoves(nodes)[a]) == k'[a]
    {
      InspectionsReady(nodes, k, a);
      TakesInspections(nodes, k, a);
    }
    s := AllMove(nodes, s, k, TakeMoves(nodes), k');
  }

  function FirstDraws(first: map<Address, nat>): DrawLog {
    map a | a in first :: [first[a]]
  }

  lemma CanDraw(nodes: set<Address>, k: Sketches, a: Address, value: nat)
    requires a in nodes && a in k && k[a] == Standing(nodes, a, WAIT_INSPECTION, [], 1)
    requires MIN_DRAW <= value <= MAX_DRAW
    ensures Can(k, a, Draw(value)) && Moved(k, a, Draw(value)) == Standing(nodes, a, LOOP_PRESENT, [value], 1)
  {
    assert [] + [value] == [value];
    assert OwnOnly(nodes, a, 0)[a := value] == OwnOnly(nodes, a, value);
  }

  /** Any first draws can be drawn. */
  lemma AllDraw(nodes: set<Address>, first: map<Address, nat>) returns (s: System)
    requires ValidDraws(nodes, first)
    ensures Fits(nodes, s, AtStage(nodes, LOOP_PRESENT, FirstDraws(first), 1))
    ensures InStep(nodes, FirstDraws(first), 1) && Current(FirstDraws(first)) == first
  {
    hide Fits, Can, Moved, Standing;
    s := AllInspect(nodes);
    var k, k' := AtStage(nodes, WAIT_INSPECTION, NoDraws(nodes), 1), AtStage(nodes, LOOP_PRESENT, FirstDraws(first), 1);
    var moves := map a | a in nodes :: Draw(first[a]);
    forall a | a in nodes
      ensures Can(k, a, moves[a]) && Moved(k, a, moves[a]) == k'[a]
    {
      CanDraw(nodes, k, a, first[a]);
    }
    s := AllMove(nodes, s, k, moves, k');
  }

  lemma TakesValues(nodes: set<Address>, k: Sketches, draws: DrawLog, rounds: nat, a: Address)
    requires InStep(nodes, draws, rounds) && a in nodes && k == AtStage(nodes, LOOP_PRESENT, draws, rounds)
    ensures Can(k, a, Take(nodes - {a}))
    ensures Moved(k, a, Take(nodes - {a})) == Informed(nodes, a, draws[a], rounds, Current(draws))
  {
    hide Can, Moved, Counts;
    TakesRound(nodes, k, a, rounds, Current(draws));
  }

  /** All nodes receive the values of the current round. */
  lemma AllTake(nodes: set<Address>, s: System, draws: DrawLog, rounds: nat) returns (s': System)
    requires InStep(nodes, draws, rounds) && Fits(nodes, s, AtStage(nodes, LOOP_PRESENT, draws, rounds))
    ensures Fits(nodes, s', AllInformed(nodes, draws, rounds))
  {
    assert draws.Keys == nodes;
    hide Fits, Can, Moved, Informed, Standing, InStep;
    var k, k' := AtStage(nodes, LOOP_PRESENT, draws, rounds), AllInformed(nodes, draws, rounds);
    forall a | a in nodes
      ensures Can(k, a, TakeMoves(nodes)[a]) && Moved(k, a, TakeMoves(nodes)[a]) == k'[a]
    {
      TakesValues(nodes, k, draws, rounds, a);
    }
    s' := AllMove(nodes, s, k, TakeMoves(nodes), k');
  }

  /** The other nodes that have the value of `c`. */
  function Rivals(values: map<Address, nat>, c: Address): set<Address>
    requires c in values
  {
    set b | b in values && b != c && values[b] == values[c]
  }

  /** No node has a value of its own. */
  ghost predicate AllCollide(values: map<Address, nat>) {
    forall a {:trigger Rivals(values, a)} | a in values :: Rivals(values, a) != {}
  }

  function Extended(draws: DrawLog, renewed: map<Address, nat>): DrawLog
    requires draws.Keys <= renewed.Keys
  {
    map a | a in draws :: draws[a] + [renewed[a]]
  }

  function RedrawMoves(renewed: map<Address, nat>): map<Address, Move> {
    map a | a in renewed :: Redraw(renewed[a])
  }

  lemma CanRedraw(nodes: set<Address>, k: Sketches, values: map<Address, nat>, rounds: nat, draws: seq<nat>,
                  a: Address, b: Address, value: nat)
    requires nodes == values.Keys && a in nodes && b in nodes
    requires a in k && k[a] == Informed(nodes, a, draws, rounds, values)
    requires a != b && values[a] == values[b] && forall d | d in values :: values[d] > 0
    requires MIN_DRAW <= value <= MAX_DRAW
    ensures Can(k, a, Redraw(value))
    ensures Moved(k, a, Redraw(value)) == Standing(nodes, a, LOOP_PRESENT, draws + [value], rounds + 1)
  {
    assert !OwnUnique(k[a], a);
    assert Redrawn(k[a], a, value).held == OwnOnly(nodes, a, value);
  }

  lemma ExtendedInStep(nodes: set<Address>, draws: DrawLog, rounds: nat, renewed: map<Address, nat>)
    requires InStep(nodes, draws, rounds) && ValidDraws(nodes, renewed)
    ensures InStep(nodes, Extended(draws, renewed), rounds + 1) && Current(Extended(draws, renewed)) == renewed
    ensures Current(draws).Keys == nodes && forall a | a in nodes :: Current(draws)[a] > 0
  {
    forall a | a in nodes
      ensures Last(draws[a] + [renewed[a]]) == renewed[a]
    {
    }
  }

  lemma RivalOf(values: map<Address, nat>, a: Address) returns (b: Address)
    requires AllCollide(values) && a in values
    ensures b in values && b != a && values[b] == values[a]
  {
    assert Rivals(values, a) != {};
    b :| b in Rivals(values, a);
  }

  lemma CanRedrawHere(nodes: set<Address>, draws: DrawLog, rounds: nat, renewed: map<Address, nat>,
                      a: Address)
    requires InStep(nodes, draws, rounds) && ValidDraws(nodes, renewed) && AllCollide(Current(draws)) && a in nodes
    ensures var k := AllInformed(nodes, draws, rounds);
      && Can(k, a, Redraw(renewed[a]))
      && Moved(k, a, Redraw(renewed[a])) == AtStage(nodes, LOOP_PRESENT, Extended(draws, renewed), rounds + 1)[a]
  {
    ExtendedInStep(nodes, draws, rounds, renewed);
    hide AllCollide, Informed, Standing, Can, Moved, Last;
    var values := Current(draws);
    var b := RivalOf(values, a);
    CanRedraw(nodes, AllInformed(nodes, draws, rounds), values, rounds, draws[a], a, b, renewed[a]);
  }

  lemma AllCanRedraw(nodes: set<Address>, draws: DrawLog, rounds: nat, renewed: map<Address, nat>,
                     k: Sketches, k': Sketches)
    requires InStep(nodes, draws, rounds) && ValidDraws(nodes, renewed) && AllCollide(Current(draws))
    requires k == AllInformed(nodes, draws, rounds)
    requires k' == AtStage(nodes, LOOP_PRESENT, Extended(draws, renewed), rounds + 1)
    ensures k.Keys == k'.Keys == RedrawMoves(renewed).Keys == nodes
    ensures forall a | a in nodes ::
              Can(k, a, RedrawMoves(renewed)[a]) && Moved(k, a, RedrawMoves(renewed)[a]) == k'[a]
  {
    assert draws.Keys == renewed.Keys == nodes;
    hide AtStage, AllInformed, InStep, Current, Extended, AllCollide, Can, Moved, ValidDraws;
    forall a | a in nodes
      ensures Can(k, a, RedrawMoves(renewed)[a]) && Moved(k, a, RedrawMoves(renewed)[a]) == k'[a]
    {
      CanRedrawHere(nodes, draws, rounds, renewed, a);
    }
  }

  /** If all collide, all can draw anything again. */
  lemma AllRedraw(nodes: set<Address>, s: System, draws: DrawLog, rounds: nat, renewed: map<Address, nat>)
    returns (s': System)
    requires InStep(nodes, draws, rounds) && Fits(nodes, s, AllInformed(nodes, draws, rounds))
    requires ValidDraws(nodes, renewed) && AllCollide(Current(draws))
    ensures Fits(nodes, s', AtStage(nodes, LOOP_PRESENT, Extended(draws, renewed), rounds + 1))
  {
    var k := AllInformed(nodes, draws, rounds);
    var k' := AtStage(nodes, LOOP_PRESENT, Extended(draws, renewed), rounds + 1);
    hide *;
    AllCanRedraw(nodes, draws, rounds, renewed, k, k');
    s' := AllMove(nodes, s, k, RedrawMoves(renewed), k');
  }

  // ----- a node that leaves although it collided -----

  /** Values of which each rival of `c` has drawn a new one. */
  function Overtaken(values: map<Address, nat>, c: Address, renewed: map<Address, nat>): map<Address, nat>
    requires c in values && Rivals(values, c) <= renewed.Keys
  {
    map b | b in values :: if b in Rivals(values, c) then renewed[b] else values[b]
  }

  /** New values for the rivals of `c`, none of them that of `c`. */
  predicate GetsOutOfTheWay(values: map<Address, nat>, c: Address, renewed: map<Address, nat>) {
    && c in values && renewed.Keys == Rivals(values, c)
    && forall b | b in renewed :: MIN_DRAW <= renewed[b] <= MAX_DRAW && renewed[b] != values[c]
  }

  /** The sketches afterwards: the rivals have drawn again, and `c` has left with the new values. */
  predicate HasLeft(k: Sketches, k': Sketches, c: Address, rivals: set<Address>, held: map<Address, nat>) {
    && k'.Keys == k.Keys && c in k && rivals <= k.Keys && c !in rivals
    && k'[c].pc == NOMINATE && k'[c].draws == k[c].draws && k'[c].held == held
    && (forall b | b in rivals :: k[b].draws < k'[b].draws && k'[b].pc == LOOP_PRESENT)
    && (forall b | b in k && b !in rivals && b != c :: k'[b] == k[b])
  }

  lemma RivalRedraws(k: Sketches, values: map<Address, nat>, c: Address, b: Address, value: nat)
    requires k.Keys == values.Keys && c in values && b in Rivals(values, c)
    requires k[b].pc == LOOP_PRESENT && !k[b].lockHeld && k[b].held == values
    requires forall a | a in values :: values[a] > 0
    requires MIN_DRAW <= value <= MAX_DRAW
    ensures Can(k, b, Redraw(value))
  {
    assert !OwnUnique(k[b], b);
  }

  lemma AllRivalsRedraw(nodes: set<Address>, s: System, k: Sketches, values: map<Address, nat>, c: Address,
                        renewed: map<Address, nat>)
    returns (s': System, k': Sketches)
    requires Fits(nodes, s, k) && k.Keys == values.Keys && GetsOutOfTheWay(values, c, renewed)
    requires forall a | a in values :: values[a] > 0
    requires forall b | b in renewed :: k[b].pc == LOOP_PRESENT && !k[b].lockHeld && k[b].held == values
    ensures Fits(nodes, s', k') && k'.Keys == k.Keys
    ensures forall b | b in renewed :: k'[b].draws == k[b].draws + [renewed[b]] && k'[b].pc == LOOP_PRESENT
    ensures forall b | b in k && b !in renewed :: k'[b] == k[b]
  {
    hide Fits, Can;
    var moves := RedrawMoves(renewed);
    forall b | b in renewed.Keys
      ensures Can(k, b, moves[b])
    {
      RivalRedraws(k, values, c, b, renewed[b]);
    }
    s' := PerformAll(nodes, s, k, renewed.Keys, moves);
    k' := After(k, renewed.Keys, moves);
  }

  lemma TakesNews(k: Sketches, values: map<Address, nat>, c: Address, renewed: map<Address, nat>, rounds: nat)
    requires k.Keys == values.Keys && GetsOutOfTheWay(values, c, renewed)
    requires k[c].pc == LOOP_PRESENT && k[c].held == values
    requires forall b | b in renewed :: b in k[c].taken && k[c].taken[b] == rounds + 1
    requires forall b | b in renewed ::
               |k[b].draws| == rounds + 1 && Last(k[b].draws) == renewed[b] && k[b].pc == LOOP_PRESENT
    ensures Can(k, c, Take(renewed.Keys))
    ensures Taken(k, c, renewed.Keys).held == Overtaken(values, c, renewed)
  {
    forall b | b in renewed.Keys
      ensures CanTake(k, c, b) && NextValue(k, c, b) == renewed[b]
    {
    }
  }

  lemma LeavesAlone(k: Sketches, values: map<Address, nat>, c: Address, renewed: map<Address, nat>)
    requires GetsOutOfTheWay(values, c, renewed) && c in k && forall a | a in values :: values[a] > 0
    requires k[c].pc == LOOP_PRESENT && !k[c].lockHeld && k[c].held == Overtaken(values, c, renewed)
    ensures Can(k, c, Leave)
  {
  }

  /** `c` receives the new values of all its rivals before it looks, and leaves the election. */
  lemma LeavesOvertaken(nodes: set<Address>, s: System, k: Sketches, values: map<Address, nat>, c: Address,
                        renewed: map<Address, nat>, rounds: nat)
    returns (s': System, k': Sketches)
    requires Fits(nodes, s, k) && k.Keys == values.Keys && GetsOutOfTheWay(values, c, renewed)
    requires forall a | a in values :: values[a] > 0
    requires forall b | b in renewed.Keys + {c} ::
               k[b].pc == LOOP_PRESENT && !k[b].lockHeld && k[b].held == values && |k[b].draws| == rounds
    requires forall b | b in renewed :: b in k[c].taken && k[c].taken[b] == rounds + 1
    ensures Fits(nodes, s', k') && HasLeft(k, k', c, renewed.Keys, Overtaken(values, c, renewed))
  {
    hide Fits, Can, Taken, Overtaken;
    var s1, k1 := AllRivalsRedraw(nodes, s, k, values, c, renewed);
    TakesNews(k1, values, c, renewed, rounds);
    var s2 := Performs(nodes, s1, k1, c, Take(renewed.Keys));
    var k2 := k1[c := Moved(k1, c, Take(renewed.Keys))];
    TakenKeeps(k1, c, renewed.Keys);
    LeavesAlone(k2, values, c, renewed);
    s' := Performs(nodes, s2, k2, c, Leave);
    k' := k2[c := Moved(k2, c, Leave)];
  }

  lemma TakenKeeps(k: Sketches, a: Address, from: set<Address>)
    requires Can(k, a, Take(from))
    ensures Moved(k, a, Take(from)) == Taken(k, a, from)
    ensures var x := Taken(k, a, from);
      x.pc == k[a].pc && x.lockHeld == k[a].lockHeld && x.draws == k[a].draws
  {
  }

  // ----- two nominees -----

  /** The least value other than `taken` of the given parity. */
  function Spare(taken: nat, odd: bool): (value: nat)
    ensures MIN_DRAW <= value <= MAX_DRAW && value != taken && (value % 2 == 1 <==> odd)
  {
    if odd then (if taken == 1 then 3 else 1) else (if taken == 2 then 4 else 2)
  }

  /** All rivals of `c` draw a spare value; that of `d` is chosen by parity. */
  function Renewed(values: map<Address, nat>, c: Address, d: Address, odd: bool): map<Address, nat>
    requires c in values
  {
    map b | b in Rivals(values, c) :: Spare(values[c], b == d && odd)
  }

  /** The rivals of `c` can draw new values that turn the parity of the sum around. */
  lemma ParityTurns(values: map<Address, nat>, c: Address, d: Address) returns (renewed: map<Address, nat>)
    requires c in values && d in Rivals(values, c)
    ensures GetsOutOfTheWay(values, c, renewed)
    ensures Sum(Overtaken(values, c, renewed)) % 2 != Sum(values) % 2
  {
    hide Sum, Spare;
    var even, odd := Renewed(values, c, d, false), Renewed(values, c, d, true);
    var x, y := Overtaken(values, c, even), Overtaken(values, c, odd);
    assert y == x[d := odd[d]];
    SumUpdate(x, d, odd[d]);
    renewed := if Sum(x) % 2 != Sum(values) % 2 then even else odd;
  }

  /** Views of opposite parity nominate different nodes, if `c` collides in the first and not in the second. */
  lemma DifferentNominees(values: map<Address, nat>, c: Address, d: Address, renewed: map<Address, nat>)
    returns (p: Address, q: Address)
    requires d in values && GetsOutOfTheWay(values, c, renewed) && d in Rivals(values, c)
    requires Sum(Overtaken(values, c, renewed)) % 2 != Sum(values) % 2
    ensures IsNominee(values, p) && IsNominee(Overtaken(values, c, renewed), q) && p != q
  {
    hide Sum;
    var later := Overtaken(values, c, renewed);
    assert c in later;
    q := NomineeExists(later);
    if IsNominee(values, c) {
      p := if q == c then d else c;
    } else {
      p := NomineeExists(values);
      assert values[p] != values[c];
      assert later[p] == values[p] && later[c] == values[c];
    }
  }

  /** A node that has left the election marks a nominee of the values it holds, whatever the others have done. */
  lemma Nominates(nodes: set<Address>, s: System, a: Address, p: Address) returns (s': System)
    requires Reachable(nodes, s) && a in s && s[a].status.Running? && s[a].pc == NOMINATE && a in s[a].store
    requires IsNominee(Values(s[a].store), p)
    ensures Reachable(nodes, s') && a in s' && s' == s[a := s'[a]] && Marks(s', a, p) && s'[a].draws == s[a].draws
  {
    hide Reachable, RunInspection, RunElection, IsNominee;
    s' := HandlerRuns(nodes, s, s, a, Chosen(0, p));
  }

  lemma BothNominate(nodes: set<Address>, s: System, k: Sketches, e: Address, c: Address, p: Address, q: Address)
    returns (s': System)
    requires Fits(nodes, s, k) && e in nodes && c in nodes && e != c && k[e].pc == k[c].pc == NOMINATE
    requires IsNominee(k[e].held, p) && IsNominee(k[c].held, q)
    ensures Reachable(nodes, s') && Marks(s', e, p) && Marks(s', c, q)
    ensures s'.Keys == nodes && forall a | a in nodes :: s'[a].draws == k[a].draws
  {
    hide Reachable, IsNominee, Values;
    Stores(nodes, s, k, e);
    Stores(nodes, s, k, c);
    var s1 := Nominates(nodes, s, e, p);
    s' := Nominates(nodes, s1, c, q);
  }

  lemma CanLeave(nodes: set<Address>, draws: DrawLog, rounds: nat, e: Address)
    requires InStep(nodes, draws, rounds) && e in nodes && Rivals(Current(draws), e) == {}
    ensures var k := AllInformed(nodes, draws, rounds);
      Can(k, e, Leave) && Moved(k, e, Leave) == k[e].(pc := NOMINATE)
  {
    var k := AllInformed(nodes, draws, rounds);
    forall b | b in nodes && b != e
      ensures Last(draws[b]) != Last(draws[e])
    {
      assert b !in Rivals(Current(draws), e);
    }
    assert OwnUnique(k[e], e);
  }

  // ----- disagreement -----

  /** The first draws of `draws` are those of `first`. */
  predicate StartsWith(draws: DrawLog, first: map<Address, nat>) {
    draws.Keys == first.Keys && forall a | a in draws :: draws[a] != [] && draws[a][0] == first[a]
  }

  /** What is needed of the sketches to let `c` leave. */
  ghost predicate ReadyToLeave(k: Sketches, values: map<Address, nat>, c: Address, rounds: nat) {
    && k.Keys == values.Keys && c in values
    && (forall a | a in values :: values[a] > 0)
    && (forall b | b in Rivals(values, c) + {c} ::
          k[b].pc == LOOP_PRESENT && !k[b].lockHeld && k[b].held == values && |k[b].draws| == rounds)
    && (forall b | b in Rivals(values, c) :: b in k[c].taken && k[c].taken[b] == rounds + 1)
  }

  lemma InformedReady(nodes: set<Address>, draws: DrawLog, rounds: nat, c: Address)
    requires InStep(nodes, draws, rounds) && c in nodes
    ensures ReadyToLeave(AllInformed(nodes, draws, rounds), Current(draws), c, rounds)
  {
  }

  lemma NotARival(values: map<Address, nat>, e: Address, c: Address)
    requires e in values && c in values && Rivals(values, e) == {} && Rivals(values, c) != {}
    ensures e != c && e !in Rivals(values, c)
  {
    assert c !in Rivals(values, e);
  }

  /** `e`, which has no rivals, leaves first. */
  lemma LeavesFirst(nodes: set<Address>, s: System, draws: DrawLog, rounds: nat, e: Address, c: Address)
    returns (s': System, k': Sketches)
    requires InStep(nodes, draws, rounds) && Fits(nodes, s, AllInformed(nodes, draws, rounds))
    requires e in nodes && Rivals(Current(draws), e) == {} && c in nodes && Rivals(Current(draws), c) != {}
    ensures Fits(nodes, s', k') && k'.Keys == nodes && ReadyToLeave(k', Current(draws), c, rounds)
    ensures e != c && e !in Rivals(Current(draws), c) && k'[e].pc == NOMINATE && k'[e].held == Current(draws)
    ensures forall a | a in nodes :: k'[a].draws == draws[a]
  {
    hide Fits, Counts, Can, Moved;
    var k, values := AllInformed(nodes, draws, rounds), Current(draws);
    CanLeave(nodes, draws, rounds, e);
    InformedReady(nodes, draws, rounds, c);
    NotARival(values, e, c);
    hide Rivals;
    s' := Performs(nodes, s, k, e, Leave);
    k' := k[e := Moved(k, e, Leave)];
  }

  lemma DrawnStill(s: System, k: Sketches, k': Sketches, c: Address, rivals: set<Address>, held: map<Address, nat>,
                   draws: DrawLog, first: map<Address, nat>)
    requires HasLeft(k, k', c, rivals, held) && StartsWith(draws, first) && k.Keys == draws.Keys
    requires forall a | a in k :: k[a].draws == draws[a]
    requires s.Keys == k.Keys && forall a | a in s :: s[a].draws == k'[a].draws
    ensures DrawnFrom(s, first)
  {
    forall a | a in s
      ensures s[a].draws != [] && s[a].draws[0] == first[a]
    {
      assert draws[a] <= k'[a].draws;
    }
  }

  /** `e` leaves with the values of the round, `c` with the new ones of its rivals. */
  lemma RoundDisagrees(nodes: set<Address>, s: System, draws: DrawLog, rounds: nat,
                       first: map<Address, nat>, e: Address, c: Address)
    returns (s': System)
    requires InStep(nodes, draws, rounds) && Fits(nodes, s, AllInformed(nodes, draws, rounds))
    requires StartsWith(draws, first)
    requires e in nodes && Rivals(Current(draws), e) == {} && c in nodes && Rivals(Current(draws), c) != {}
    ensures Reachable(nodes, s') && DrawnFrom(s', first) && !MarksAgree(s')
  {
    hide Fits, Rivals, Overtaken, IsNominee, Sum, Reachable, DrawnFrom, Marks;
    var values := Current(draws);
    var d :| d in Rivals(values, c);
    var renewed := ParityTurns(values, c, d);
    assert d in values by { RivalKnown(values, c, d); }
    var p, q := DifferentNominees(values, c, d, renewed);
    var s1, k1 := LeavesFirst(nodes, s, draws, rounds, e, c);
    var s2, k2 := LeavesOvertaken(nodes, s1, k1, values, c, renewed, rounds);
    assert k2[e] == k1[e];
    s' := BothNominate(nodes, s2, k2, e, c, p, q);
    DrawnStill(s', k1, k2, c, renewed.Keys, Overtaken(values, c, renewed), draws, first);
  }

  lemma RivalKnown(values: map<Address, nat>, c: Address, d: Address)
    requires c in values && d in Rivals(values, c)
    ensures d in values && d != c && c in Rivals(values, d)
  {
  }

  /** A round in which one node stands out and all others collide. */
  function Odd(nodes: set<Address>, e: Address): map<Address, nat> {
    map a | a in nodes :: if a == e then 1 else 2
  }

  lemma OddRivals(nodes: set<Address>, e: Address, c: Address, d: Address)
    requires e in nodes && c in nodes && d in nodes && e != c && c != d && e != d
    ensures Odd(nodes, e).Keys == nodes && ValidDraws(nodes, Odd(nodes, e))
    ensures Rivals(Odd(nodes, e), e) == {} && c in Rivals(Odd(nodes, e), d) && d in Rivals(Odd(nodes, e), c)
  {
  }

  lemma ThirdNode(nodes: set<Address>, c: Address, d: Address) returns (e: Address)
    requires |nodes| >= 3 && c in nodes && d in nodes && c != d
    ensures e in nodes && e != c && e != d
  {
    var rest := nodes - {c, d};
    assert nodes == rest + {c, d};
    assert |{c, d}| == 2;
    assert rest != {};
    e :| e in rest;
  }

  lemma ExtendedStarts(draws: DrawLog, first: map<Address, nat>, renewed: map<Address, nat>)
    requires StartsWith(draws, first) && renewed.Keys == draws.Keys
    ensures StartsWith(Extended(draws, renewed), first)
  {
  }

  lemma Apart(values: map<Address, nat>) returns (e: Address)
    requires !AllCollide(values)
    ensures e in values && Rivals(values, e) == {}
  {
    e :| e in values && Rivals(values, e) == {};
  }

  lemma FirstDrawsStart(first: map<Address, nat>)
    ensures StartsWith(FirstDraws(first), first)
  {
  }

  /** One node stands out at once. */
  lemma FirstRoundDisagrees(nodes: set<Address>, first: map<Address, nat>, e: Address, c: Address) returns (s: System)
    requires ValidDraws(nodes, first) && e in nodes && c in nodes
    requires Rivals(first, e) == {} && Rivals(first, c) != {}
    ensures Reachable(nodes, s) && DrawnFrom(s, first) && !MarksAgree(s)
  {
    hide Fits, Reachable, DrawnFrom, AtStage, AllInformed, Rivals, FirstDraws, MarksAgree, Current, StartsWith, InStep;
    var draws := FirstDraws(first);
    FirstDrawsStart(first);
    s := AllDraw(nodes, first);
    assert draws.Keys == nodes by { FirstKeys(first); }
    s := AllTake(nodes, s, draws, 1);
    s := RoundDisagrees(nodes, s, draws, 1, first, e, c);
  }

  lemma FirstKeys(first: map<Address, nat>)
    ensures FirstDraws(first).Keys == first.Keys
  {
  }

  /** All collide at first, and one stands out when all have drawn again. */
  lemma SecondRoundDisagrees(nodes: set<Address>, first: map<Address, nat>, e: Address, c: Address, d: Address)
    returns (s: System)
    requires ValidDraws(nodes, first) && AllCollide(first)
    requires e in nodes && c in nodes && d in nodes && e != c && c != d && e != d
    ensures Reachable(nodes, s) && DrawnFrom(s, first) && !MarksAgree(s)
  {
    var draws, renewed := FirstDraws(first), Odd(nodes, e);
    assert draws.Keys == renewed.Keys == nodes;
    OddRivals(nodes, e, c, d);
    FirstDrawsStart(first);
    ExtendedStarts(draws, first, renewed);
    hide *;
    s := AllDraw(nodes, first);
    s := AllTake(nodes, s, draws, 1);
    ExtendedInStep(nodes, draws, 1, renewed);
    s := AllRedraw(nodes, s, draws, 1, renewed);
    s := AllTake(nodes, s, Extended(draws, renewed), 2);
    s := RoundDisagrees(nodes, s, Extended(draws, renewed), 2, first, e, c);
  }

  /** With three nodes or more and a collision among the first draws, some run ends in disagreement. */
  lemma CollisionDisagrees(nodes: set<Address>, first: map<Address, nat>, c: Address, d: Address) returns (s: System)
    requires ValidDraws(nodes, first) && |nodes| >= 3
    requires c in nodes && d in nodes && c != d && first[c] == first[d]
    ensures Reachable(nodes, s) && DrawnFrom(s, first) && !MarksAgree(s)
  {
    assert d in Rivals(first, c);
    hide Reachable, DrawnFrom, AllCollide, Rivals, MarksAgree;
    if !AllCollide(first) {
      var e := Apart(first);
      s := FirstRoundDisagrees(nodes, first, e, c);
    } else {
      var e := ThirdNode(nodes, c, d);
      s := SecondRoundDisagrees(nodes, first, e, c, d);
    }
  }

  lemma SettledAgrees(nodes: set<Address>, s: System)
    requires Reachable(nodes, s) && Settled(s)
    ensures MarksAgree(s)
  {
    hide Reachable, Settled;
    forall a, b, p, q | Marks(s, a, p) && Marks(s, b, q)
      ensures p == q
    {
      SettledElection(nodes, s, a, b, p, q);
    }
  }

  /** For instance with three nodes that draw 5, 1 and 5. */
  lemma NominatorsDisagree(a: Address, b: Address, c: Address) returns (s: System)
    requires a != b && b != c && a != c
    ensures Reachable({a, b, c}, s) && DrawnFrom(s, map[a := 5, b := 1, c := 5])
    ensures !MarksAgree(s) && !Settled(s)
  {
    var first := map[a := 5, b := 1, c := 5];
    assert first.Keys == {a, b, c} && |{a, b, c}| == 3;
    hide Reachable, DrawnFrom, MarksAgree, Settled;
    s := CollisionDisagrees({a, b, c}, first, a, c);
    if Settled(s) {
      SettledAgrees({a, b, c}, s);
    }
  }

  /** Agreement, exactly: it holds in all runs from the given first draws if and only if the condition holds. */
  lemma AgreementExactly(nodes: set<Address>, first: map<Address, nat>)
    requires ValidDraws(nodes, first)
    ensures AlwaysAgree(nodes, first) <==> |nodes| <= 2 || Distinct(first)
  {
    hide Reachable, DrawnFrom;
    if |nodes| <= 2 || Distinct(first) {
      forall s, a, b, p, q | Reachable(nodes, s) && DrawnFrom(s, first) && Marks(s, a, p) && Marks(s, b, q)
        ensures p == q
      {
        MarksAgreeHere(nodes, s, first, a, b, p, q);
      }
      hide Marks;
      assert AlwaysAgree(nodes, first);
    } else {
      hide MarksAgree;
      var c, d :| c in first && d in first && c != d && first[c] == first[d];
      var s := CollisionDisagrees(nodes, first, c, d);
    }
  }
}
