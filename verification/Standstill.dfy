/**
  When a slot can come to a standstill. From given first draws there is a run after which
  nothing is possible although not every node is done, if and only if two first draws are
  equal. A node that collides and leaves all the same leaves the others waiting for it.
 */
module Standstill {
  import opened Types
  import opened StorageSpec
  import opened Protocol
  import opened Invariants
  import opened Links
  import opened Agreement
  import opened Progress
  import opened Termination
  import opened Schedules
  import opened Disagreement

  ghost predicate AtRest(s: System) {
    !AllDone(s) && forall step :: !StepEnabled(s, step)
  }

  /** A state in which everybody is done has a settled election, or none at all. */
  lemma DoneIsSettled(nodes: set<Address>, s: System)
    requires Reachable(nodes, s) && AllDone(s)
    ensures Settled(s)
  {
    hide Reachable, Inv, SettledAt;
    InvReachable(nodes, s);
    KeysAt(nodes, s);
    if a :| a in s && s[a].status.Stopped? {
      UnanimousRemoval(nodes, s, a);
    } else {
      AllNominatedSettled(nodes, s);
    }
  }

  /** `c` has left after one draw less than `rounds`, and some other node has drawn again. */
  ghost predicate LeftBehind(s: System, first: map<Address, nat>, c: Address, rounds: nat) {
    && !Settled(s) && DrawnFrom(s, first) && (forall a | a in s :: s[a].draws != [])
    && c in s && s[c].pc >= NOMINATE && |s[c].draws| + 1 == rounds
  }

  lemma DrawnNext(nodes: set<Address>, s: System, step: Step, first: map<Address, nat>)
    requires Reachable(nodes, s) && StepEnabled(s, step)
    requires DrawnFrom(s, first) && forall a | a in s :: s[a].draws != []
    ensures Next(s, step).Keys == s.Keys
    ensures DrawnFrom(Next(s, step), first) && forall a | a in s :: Next(s, step)[a].draws != []
  {
    hide Reachable, Inv;
    InvReachable(nodes, s);
    KeysAt(nodes, s);
    var s' := Next(s, step);
    assert s'.Keys == s.Keys;
    hide Next, StepEnabled;
    forall a | a in s
      ensures s[a].draws <= s'[a].draws
    {
      DrawsGrow(nodes, s, step, a);
    }
  }

  lemma StillLeftBehind(nodes: set<Address>, s: System, step: Step, first: map<Address, nat>, c: Address, rounds: nat)
    requires Reachable(nodes, s) && StepEnabled(s, step) && LeftBehind(s, first, c, rounds)
    ensures Reachable(nodes, Next(s, step)) && LeftBehind(Next(s, step), first, c, rounds)
    ensures DrawsAtMost(Next(s, step), rounds)
  {
    hide Reachable, Inv, Settled, DrawnFrom, Next, StepEnabled;
    var s' := Next(s, step);
    InvReachable(nodes, s);
    KeysAt(nodes, s);
    ReachableNext(nodes, s, step);
    DrawnNext(nodes, s, step, first);
    DrawsGrow(nodes, s, step, c);
    if Settled(s') {
      SettledBefore(nodes, s, step);
    }
    forall b | b in s'
      ensures |s'[b].draws| <= rounds
    {
      if b != c {
        RoundDiscipline(nodes, s', b, c);
      }
    }
  }

  /** Whatever happens from then on ends, and not with everybody done. */
  lemma {:induction false} ComesToRest(nodes: set<Address>, s: System, first: map<Address, nat>, c: Address,
                                       rounds: nat)
    returns (t: System)
    requires Reachable(nodes, s) && LeftBehind(s, first, c, rounds)
    ensures Reachable(nodes, t) && DrawnFrom(t, first) && AtRest(t)
    decreases Budget(rounds, s)
  {
    hide Reachable, Settled, DrawnFrom, Next, StepEnabled, Budget, DrawsAtMost;
    if step :| StepEnabled(s, step) {
      StillLeftBehind(nodes, s, step, first, c, rounds);
      StepUsesBudget(nodes, rounds, s, step);
      t := ComesToRest(nodes, Next(s, step), first, c, rounds);
    } else {
      t := s;
      if AllDone(s) {
        DoneIsSettled(nodes, s);
      }
    }
  }

  /** All rivals of `c` draw a value that is not that of `c`. */
  lemma OutOfTheWay(values: map<Address, nat>, c: Address) returns (renewed: map<Address, nat>)
    requires c in values
    ensures GetsOutOfTheWay(values, c, renewed)
  {
    hide Spare;
    renewed := map b | b in Rivals(values, c) :: Spare(values[c], true);
  }

  lemma LeftIsLeftBehind(s: System, k: Sketches, k': Sketches, first: map<Address, nat>, c: Address, d: Address,
                         rivals: set<Address>, held: map<Address, nat>)
    requires HasLeft(k, k', c, rivals, held) && d in rivals && k.Keys == first.Keys
    requires forall a | a in k :: k[a].draws == [first[a]]
    requires s.Keys == k.Keys && forall a | a in s :: SketchOf(s[a]) == k'[a]
    ensures LeftBehind(s, first, c, 2)
  {
    forall a | a in s
      ensures s[a].draws != [] && s[a].draws[0] == first[a]
    {
      assert k[a].draws <= k'[a].draws;
    }
    assert k[d].draws < k'[d].draws;
    assert !SettledAt(s, |s[c].draws|);
  }

  /** A collision among the first draws can bring the slot to a standstill. */
  lemma CollisionRests(nodes: set<Address>, first: map<Address, nat>, c: Address, d: Address) returns (t: System)
    requires ValidDraws(nodes, first) && c in nodes && d in nodes && c != d && first[c] == first[d]
    ensures Reachable(nodes, t) && DrawnFrom(t, first) && AtRest(t)
  {
    assert d in Rivals(first, c);
    var draws := FirstDraws(first);
    var k := AllInformed(nodes, draws, 1);
    assert forall a | a in nodes :: k[a].draws == [first[a]];
    hide Fits, Reachable, DrawnFrom, AtStage, Rivals, AtRest, LeftBehind, AllInformed, Overtaken;
    var s := AllDraw(nodes, first);
    s := AllTake(nodes, s, draws, 1);
    InformedReady(nodes, draws, 1, c);
    var renewed := OutOfTheWay(first, c);
    var s', k' := LeavesOvertaken(nodes, s, k, first, c, renewed, 1);
    FitsMeans(nodes, s', k');
    LeftIsLeftBehind(s', k, k', first, c, d, renewed.Keys, Overtaken(first, c, renewed));
    t := ComesToRest(nodes, s', first, c, 2);
  }

  lemma FitsMeans(nodes: set<Address>, s: System, k: Sketches)
    requires Fits(nodes, s, k)
    ensures Reachable(nodes, s) && s.Keys == k.Keys && forall a | a in s :: SketchOf(s[a]) == k[a]
  {
    hide Reachable, SketchOf;
  }

  /** Progress, exactly: some run from the given first draws comes to a standstill if and only if two are equal. */
  lemma StandstillExactly(nodes: set<Address>, first: map<Address, nat>)
    requires ValidDraws(nodes, first)
    ensures (exists s :: Reachable(nodes, s) && DrawnFrom(s, first) && AtRest(s)) <==> !Distinct(first)
  {
    if Distinct(first) {
      forall s | Reachable(nodes, s) && DrawnFrom(s, first)
        ensures !AtRest(s)
      {
        assert FirstDrawsDistinct(s);
        hide FirstDrawsDistinct, Reachable, DrawnFrom;
        if !AllDone(s) {
          NoDeadlock(nodes, s);
        }
      }
    } else {
      hide Reachable, DrawnFrom, AtRest;
      var c, d :| c in first && d in first && c != d && first[c] == first[d];
      var s := CollisionRests(nodes, first, c, d);
    }
  }
}
