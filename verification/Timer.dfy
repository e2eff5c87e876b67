/**
  `Timer` under one controlling thread and any interleaving with the threads it starts.
  Every access to `active` and `counter` is a step of its own.
 */
module Timers {

  datatype Kind = Timeout | Interval

  datatype WorkerAt =
    | Head       // about to look at `active`: the first check, or the loop head
    | Sleeping
    | Awake      // about to look at `active` after sleeping
    | Calling    // inside the callback
    | Called     // a timeout about to decrement `counter`
    | Leaving    // about to decrement `counter` without a callback
    | Stopping   // a timeout about to clear `active`
    | Gone

  /** The workers, by activation: worker `i` was started by activation `i`. */
  datatype Worker = Worker(kind: Kind, at: WorkerAt)

  datatype ControllerAt = Idle | Pending | Activate | Count | SetTime | Spawn

  /** The beginning or end of a callback of one activation. */
  datatype Event = Begin(activation: nat) | End(activation: nat)

  datatype State = State(
    active: bool,
    counter: int,
    controller: ControllerAt,
    kind: Kind,
    workers: seq<Worker>,
    events: seq<Event>,
    thrown: nat)

  const INITIAL := State(false, 0, Idle, Timeout, [], [], 0)

  datatype Step = Start(kind: Kind) | Stop | Control | Work(worker: nat)

  predicate Enabled(s: State, step: Step) {
    match step
    case Start(_) => s.controller == Idle
    case Stop => s.controller == Idle
    case Control => s.controller != Idle && (s.controller == Pending ==> s.counter == 0)
    case Work(i) => i < |s.workers| && s.workers[i].at != Gone
  }

  function Next(s: State, step: Step): State
    requires Enabled(s, step)
  {
    match step
    case Start(kind) => if s.active then s.(thrown := s.thrown + 1) else s.(controller := Pending, kind := kind)
    case Stop => s.(active := false)
    case Control => Controlled(s)
    case Work(i) => Worked(s, i)
  }

  /** `waitForPendingCallbacks`, `updateTimerState`, and the start of the thread. */
  function Controlled(s: State): State
    requires s.controller != Idle
  {
    match s.controller
    case Pending => s.(controller := Activate)
    case Activate => s.(controller := Count, active := true)
    case Count => s.(controller := SetTime, counter := s.counter + 1)
    case SetTime => s.(controller := Spawn)
    case Spawn => s.(controller := Idle, workers := s.workers + [Worker(s.kind, Head)])
  }

  function Moved(s: State, i: nat, at: WorkerAt): State
    requires i < |s.workers|
  {
    s.(workers := s.workers[i := s.workers[i].(at := at)])
  }

  function Worked(s: State, i: nat): State
    requires i < |s.workers| && s.workers[i].at != Gone
  {
    match s.workers[i].at
    case Head => Moved(s, i, if s.active then Sleeping else Leaving)
    case Sleeping => Moved(s, i, Awake)
    case Awake =>
      if s.active then Moved(s, i, Calling).(events := s.events + [Begin(i)]) else Moved(s, i, Leaving)
    case Calling =>
      Moved(s, i, if s.workers[i].kind == Timeout then Called else Head).(events := s.events + [End(i)])
    case Called => Moved(s, i, Stopping).(counter := s.counter - 1)
    case Leaving => Moved(s, i, Gone).(counter := s.counter - 1)
    case Stopping => Moved(s, i, Gone).(active := false)
  }

  /** The worker has not decremented `counter` yet. */
  predicate Counted(w: Worker) {
    w.at != Stopping && w.at != Gone
  }

  function CountedIn(workers: seq<Worker>): nat {
    if workers == [] then 0
    else CountedIn(workers[..|workers| - 1]) + (if Counted(workers[|workers| - 1]) then 1 else 0)
  }

  predicate Claimed(s: State) {
    s.controller == SetTime || s.controller == Spawn
  }

  predicate LastCounted(s: State) {
    s.workers != [] && Counted(s.workers[|s.workers| - 1])
  }

  function Activation(e: Event): nat {
    match e case Begin(i) => i case End(i) => i
  }

  /** Callbacks come one after the other, in the order of their activations. */
  predicate Ordered(events: seq<Event>) {
    && (forall p, q | 0 <= p < q < |events| :: Activation(events[p]) <= Activation(events[q]))
    && (forall p | 0 <= p < |events| - 1 && events[p].Begin? :: events[p + 1] == End(events[p].activation))
    && (forall p | 0 <= p < |events| && events[p].End? :: p > 0 && events[p - 1] == Begin(events[p].activation))
  }

  ghost predicate Inv(s: State) {
    && (forall i | 0 <= i < |s.workers| - 1 :: !Counted(s.workers[i]))
    && s.counter == (if LastCounted(s) || Claimed(s) then 1 else 0)
    && (s.controller == Activate || s.controller == Count || Claimed(s) ==> !LastCounted(s))
    && Ordered(s.events)
    && (forall p | 0 <= p < |s.events| :: Activation(s.events[p]) < |s.workers|)
    && (LastCounted(s) && s.workers[|s.workers| - 1].at == Calling <==>
          s.events != [] && s.events[|s.events| - 1].Begin?)
    && (s.events != [] && s.events[|s.events| - 1].Begin? ==>
          s.events[|s.events| - 1].activation == |s.workers| - 1)
  }

  lemma InvControlled(s: State, step: Step)
    requires Inv(s) && Enabled(s, step) && !step.Work?
    ensures Inv(Next(s, step))
  {
    hide Ordered;
  }

  /** A worker that has not decremented `counter` is the newest one. */
  lemma CountedIsLast(s: State, i: nat)
    requires Inv(s) && i < |s.workers| && Counted(s.workers[i])
    ensures i == |s.workers| - 1 && LastCounted(s) && !Claimed(s) && s.counter == 1
    ensures s.workers[i].at == Calling <==> s.events != [] && s.events[|s.events| - 1].Begin?
  {
  }

  lemma OrderedBegin(events: seq<Event>, i: nat)
    requires Ordered(events)
    requires forall p | 0 <= p < |events| :: Activation(events[p]) <= i
    requires events != [] ==> events[|events| - 1].End?
    ensures Ordered(events + [Begin(i)])
  {
  }

  lemma OrderedEnd(events: seq<Event>, i: nat)
    requires Ordered(events)
    requires events != [] && events[|events| - 1] == Begin(i)
    ensures Ordered(events + [End(i)])
  {
  }

  lemma InvWorked(s: State, i: nat)
    requires Inv(s) && i < |s.workers| && s.workers[i].at != Gone
    ensures Inv(Worked(s, i))
  {
    hide Ordered;
    if Counted(s.workers[i]) {
      CountedIsLast(s, i);
      if s.workers[i].at == Awake && s.active {
        OrderedBegin(s.events, i);
      } else if s.workers[i].at == Calling {
        OrderedEnd(s.events, i);
      }
    }
  }

  lemma InvNext(s: State, step: Step)
    requires Inv(s) && Enabled(s, step)
    ensures Inv(Next(s, step))
  {
    hide Inv;
    if step.Work? {
      InvWorked(s, step.worker);
    } else {
      InvControlled(s, step);
    }
  }

  /** A script of steps that can be taken one after the other. */
  predicate Possible(s: State, steps: seq<Step>)
    decreases |steps|
  {
    steps == [] || (Enabled(s, steps[0]) && Possible(Next(s, steps[0]), steps[1..]))
  }

  function After(s: State, steps: seq<Step>): State
    requires Possible(s, steps)
    decreases |steps|
  {
    if steps == [] then s else After(Next(s, steps[0]), steps[1..])
  }

  lemma {:induction false} InvAfter(s: State, steps: seq<Step>)
    requires Inv(s) && Possible(s, steps)
    ensures Inv(After(s, steps))
    decreases |steps|
  {
    hide Inv;
    if steps != [] {
      InvNext(s, steps[0]);
      InvAfter(Next(s, steps[0]), steps[1..]);
    }
  }

  lemma {:induction false} OnlyLastCounted(workers: seq<Worker>)
    requires forall i | 0 <= i < |workers| - 1 :: !Counted(workers[i])
    ensures CountedIn(workers) == if workers != [] && Counted(workers[|workers| - 1]) then 1 else 0
  {
    if workers != [] {
      OnlyLastCounted(workers[..|workers| - 1]);
    }
  }

  /**
    Whatever the threads do: `counter` is the number of workers still to decrement it (one of
    which may be about to be started), and only the newest worker can still call back.
   */
  lemma CounterIsExact(steps: seq<Step>)
    requires Possible(INITIAL, steps)
    ensures var s := After(INITIAL, steps);
      && s.counter == CountedIn(s.workers) + (if Claimed(s) then 1 else 0)
      && 0 <= s.counter <= 1
      && forall i | 0 <= i < |s.workers| - 1 :: !Counted(s.workers[i])
  {
    InvAfter(INITIAL, steps);
    OnlyLastCounted(After(INITIAL, steps).workers);
  }

  lemma EventsOfStep(s: State, step: Step)
    requires Inv(s) && Enabled(s, step)
    ensures |s.workers| <= |Next(s, step).workers| && s.events <= Next(s, step).events
    ensures forall p | |s.events| <= p < |Next(s, step).events| ::
              Activation(Next(s, step).events[p]) == |s.workers| - 1
  {
    hide Ordered;
    if step.Work? && Counted(s.workers[step.worker]) {
      CountedIsLast(s, step.worker);
    }
  }

  lemma {:induction false} EventsOfSteps(s: State, steps: seq<Step>)
    requires Inv(s) && Possible(s, steps)
    ensures |s.workers| <= |After(s, steps).workers| && s.events <= After(s, steps).events
    ensures forall p | |s.events| <= p < |After(s, steps).events| ::
              Activation(After(s, steps).events[p]) >= |s.workers| - 1
    decreases |steps|
  {
    hide Inv;
    if steps != [] {
      InvNext(s, steps[0]);
      EventsOfStep(s, steps[0]);
      EventsOfSteps(Next(s, steps[0]), steps[1..]);
    }
  }

  /**
    Activations never overlap: callbacks come one at a time, in the order of the activations,
    and once an activation has its worker, no callback of an earlier one begins or ends.
   */
  lemma ActivationsDoNotOverlap(before: seq<Step>, after: seq<Step>)
    requires Possible(INITIAL, before) && Possible(After(INITIAL, before), after)
    ensures var s, t := After(INITIAL, before), After(After(INITIAL, before), after);
      && Ordered(s.events) && Ordered(t.events)
      && s.events <= t.events
      && forall p | |s.events| <= p < |t.events| :: Activation(t.events[p]) >= |s.workers| - 1
  {
    InvAfter(INITIAL, before);
    InvAfter(After(INITIAL, before), after);
    EventsOfSteps(After(INITIAL, before), after);
  }

  // ----- undisturbed activations -----

  /** The worker of a timeout that has still to clear `active`, whatever `active` is by then. */
  predicate WillClear(w: Worker) {
    w.at == Called || w.at == Stopping || (w.at == Calling && w.kind == Timeout)
  }

  ghost predicate AllGone(workers: seq<Worker>, n: nat) {
    forall i | 0 <= i < n && i < |workers| :: workers[i].at == Gone
  }

  /**
    Activation `n` was started when no earlier worker was about to clear `active`, and nobody
    stops it: it is still being set up, or its worker never takes the way out without a callback.
   */
  ghost predicate Undisturbed(s: State, n: nat) {
    && Inv(s) && n <= |s.workers|
    && (|s.workers| == n ==>
          && s.controller != Idle
          && (s.controller == Pending ==> !s.active && forall i | 0 <= i < n :: !WillClear(s.workers[i]))
          && (s.controller != Pending ==> AllGone(s.workers, n))
          && (s.controller == Count || Claimed(s) ==> s.active))
    && (|s.workers| > n ==> AllGone(s.workers, n) && RunsToTheEnd(s, n))
  }

  predicate RunsToTheEnd(s: State, n: nat)
    requires n < |s.workers|
  {
    var at := s.workers[n].at;
    && at != Leaving
    && (at == Called || at == Stopping || at == Gone ==> End(n) in s.events)
    && (at != Gone ==> |s.workers| == n + 1 && s.active && s.controller == Idle)
  }

  /** Setting up goes on only when all earlier workers have decremented `counter`, and then they are gone. */
  lemma UndisturbedControl(s: State, n: nat)
    requires Undisturbed(s, n) && Enabled(s, Control)
    ensures Undisturbed(Controlled(s), n)
  {
    InvNext(s, Control);
    hide Ordered;
    if s.controller == Pending && |s.workers| == n {
      forall i | 0 <= i < n
        ensures s.workers[i].at == Gone
      {
        assert !Counted(s.workers[i]) && !WillClear(s.workers[i]);
      }
    }
  }

  lemma UndisturbedEarlier(s: State, n: nat, i: nat)
    requires Undisturbed(s, n) && |s.workers| == n && i < n && s.workers[i].at != Gone
    ensures Undisturbed(Worked(s, i), n)
  {
    hide Inv;
    InvNext(s, Work(i));
    assert s.controller == Pending && !WillClear(s.workers[i]);
  }

  lemma UndisturbedWork(s: State, n: nat, i: nat)
    requires Undisturbed(s, n) && |s.workers| > n && i < |s.workers| && s.workers[i].at != Gone
    ensures Undisturbed(Worked(s, i), n)
  {
    hide Inv;
    InvNext(s, Work(i));
    if i == n && s.workers[n].at == Calling {
      assert Worked(s, i).events[|s.events|] == End(n);
    }
  }

  lemma UndisturbedNext(s: State, step: Step, n: nat)
    requires Undisturbed(s, n) && Enabled(s, step) && !step.Stop?
    ensures Undisturbed(Next(s, step), n)
  {
    match step
    case Control => UndisturbedControl(s, n);
    case Work(i) =>
      if |s.workers| == n {
        UndisturbedEarlier(s, n, i);
      } else {
        UndisturbedWork(s, n, i);
      }
    case Start(_) =>
      InvNext(s, step);
      hide Inv;
  }

  lemma {:induction false} UndisturbedAfter(s: State, steps: seq<Step>, n: nat)
    requires Undisturbed(s, n) && Possible(s, steps) && Stop !in steps
    ensures Undisturbed(After(s, steps), n)
    decreases |steps|
  {
    hide Undisturbed;
    if steps != [] {
      UndisturbedNext(s, steps[0], n);
      UndisturbedAfter(Next(s, steps[0]), steps[1..], n);
    }
  }

  /**
    An activation started in `s` that nobody stops runs its callback, whatever the threads do:
    its worker never leaves early, and when it is gone its callback has ended.
   */
  ghost predicate RunsItsCallback(s: State) {
    forall kind, steps | Possible(s, [Start(kind)] + steps) && Stop !in steps ::
      CallbackOf(After(s, [Start(kind)] + steps), |s.workers|)
  }

  predicate CallbackOf(s: State, n: nat) {
    |s.workers| > n ==> s.workers[n].at != Leaving && (s.workers[n].at == Gone ==> End(n) in s.events)
  }

  lemma HarmlessStart(s: State, kind: Kind, steps: seq<Step>)
    requires Inv(s) && s.controller == Idle && !s.active
    requires forall i | 0 <= i < |s.workers| :: !WillClear(s.workers[i])
    requires Possible(s, [Start(kind)] + steps) && Stop !in steps
    ensures CallbackOf(After(s, [Start(kind)] + steps), |s.workers|)
  {
    assert ([Start(kind)] + steps)[1..] == steps;
    InvNext(s, Start(kind));
    hide Inv;
    assert Undisturbed(Next(s, Start(kind)), |s.workers|);
    UndisturbedAfter(Next(s, Start(kind)), steps, |s.workers|);
  }

  lemma Done(s: State)
    ensures Possible(s, []) && After(s, []) == s
  {
  }

  lemma Prepend(s: State, steps: seq<Step>, rest: seq<Step>)
    requires steps != [] && steps == [steps[0]] + rest
    requires Enabled(s, steps[0]) && Possible(Next(s, steps[0]), rest)
    ensures Possible(s, steps) && After(s, steps) == After(Next(s, steps[0]), rest)
  {
    assert steps[1..] == rest;
  }

  lemma {:induction false} AfterBoth(s: State, first: seq<Step>, second: seq<Step>)
    requires Possible(s, first) && Possible(After(s, first), second)
    ensures Possible(s, first + second) && After(s, first + second) == After(After(s, first), second)
    decreases |first|
  {
    if first == [] {
      assert first + second == second;
    } else {
      AfterBoth(Next(s, first[0]), first[1..], second);
      assert (first + second)[1..] == first[1..] + second;
    }
  }

  const ACTIVATION := [Control, Control, Control, Control, Control]

  /** The controlling thread alone, once nothing is pending. */
  lemma Activated(s: State)
    requires s.controller == Pending && s.counter == 0
    ensures Possible(s, ACTIVATION)
    ensures After(s, ACTIVATION)
         == s.(active := true, counter := 1, controller := Idle, workers := s.workers + [Worker(s.kind, Head)])
  {
    hide Possible, After;
    var s1 := s.(controller := Activate);
    var s2 := s.(controller := Count, active := true);
    var s3 := s.(controller := SetTime, active := true, counter := 1);
    var s4 := s3.(controller := Spawn);
    var s5 := s4.(controller := Idle, workers := s.workers + [Worker(s.kind, Head)]);
    Done(s5);
    Prepend(s4, [Control], []);
    Prepend(s3, [Control, Control], [Control]);
    Prepend(s2, [Control, Control, Control], [Control, Control]);
    Prepend(s1, [Control, Control, Control, Control], [Control, Control, Control]);
    Prepend(s, [Control, Control, Control, Control, Control], [Control, Control, Control, Control]);
  }

  const CALLBACK := [Work(0), Work(0), Work(0), Work(0), Work(0)]

  lemma OneMoved(s: State, from: WorkerAt, to: WorkerAt)
    requires s.workers == [Worker(Timeout, from)]
    ensures Moved(s, 0, to) == s.(workers := [Worker(Timeout, to)])
  {
  }

  /** The first worker alone, up to its late stop. */
  lemma CalledBack(s: State)
    requires s.workers == [Worker(Timeout, Head)] && s.active
    ensures Possible(s, CALLBACK)
    ensures After(s, CALLBACK) == s.(counter := s.counter - 1, workers := [Worker(Timeout, Stopping)],
                                     events := s.events + [Begin(0)] + [End(0)])
  {
    hide Possible, After;
    var s1 := s.(workers := [Worker(Timeout, Sleeping)]);
    var s2 := s.(workers := [Worker(Timeout, Awake)]);
    var s3 := s.(workers := [Worker(Timeout, Calling)], events := s.events + [Begin(0)]);
    var s4 := s.(workers := [Worker(Timeout, Called)], events := s.events + [Begin(0)] + [End(0)]);
    var s5 := s4.(workers := [Worker(Timeout, Stopping)], counter := s.counter - 1);
    OneMoved(s, Head, Sleeping);
    OneMoved(s1, Sleeping, Awake);
    OneMoved(s2, Awake, Calling);
    OneMoved(s3, Calling, Called);
    OneMoved(s4, Called, Stopping);
    Done(s5);
    Prepend(s4, [Work(0)], []);
    Prepend(s3, [Work(0), Work(0)], [Work(0)]);
    Prepend(s2, [Work(0), Work(0), Work(0)], [Work(0), Work(0)]);
    Prepend(s1, [Work(0), Work(0), Work(0), Work(0)], [Work(0), Work(0), Work(0)]);
    Prepend(s, [Work(0), Work(0), Work(0), Work(0), Work(0)], [Work(0), Work(0), Work(0), Work(0)]);
  }

  /** A worker about to clear `active` overtakes the activation that is being set up. */
  lemma Overtakes(s: State, i: nat)
    requires s.controller == Pending && s.counter == 0 && i < |s.workers| && s.workers[i].at == Stopping
    ensures var steps := ACTIVATION + [Work(i), Work(|s.workers|)];
      && Possible(s, steps)
      && After(s, steps).workers == s.workers[i := s.workers[i].(at := Gone)] + [Worker(s.kind, Leaving)]
      && After(s, steps).events == s.events
  {
    Activated(s);
    var n := |s.workers|;
    var u := After(s, ACTIVATION);
    assert u.workers == s.workers + [Worker(s.kind, Head)];
    var v := Worked(u, i);
    assert v.workers == s.workers[i := s.workers[i].(at := Gone)] + [Worker(s.kind, Head)];
    var w := Worked(v, n);
    Done(w);
    Prepend(v, [Work(n)], []);
    Prepend(u, [Work(i), Work(n)], [Work(n)]);
    AfterBoth(s, ACTIVATION, [Work(i), Work(n)]);
  }

  // ----- activations that can be switched off -----

  /** How many steps of its own, at most, take a worker past `counter` while nothing is active. */
  function StepsOut(w: Worker): nat {
    match w.at
    case Head => 2
    case Sleeping => 4
    case Awake => 2
    case Calling => if w.kind == Timeout then 2 else 3
    case Called => 1
    case Leaving => 1
    case Stopping => 0
    case Gone => 0
  }

  /** While an activation is pending, the worker that it waits for can finish. */
  lemma {:induction false} Drains(s: State, i: nat) returns (steps: seq<Step>)
    requires s.controller == Pending && !s.active && i < |s.workers|
    ensures Possible(s, steps) && Stop !in steps
    ensures var t := After(s, steps);
      && t.controller == Pending && !t.active && t.kind == s.kind && |t.workers| == |s.workers|
      && t.counter == s.counter - (if Counted(s.workers[i]) then 1 else 0)
      && !Counted(t.workers[i]) && (WillClear(s.workers[i]) ==> t.workers[i].at == Stopping)
      && forall j | 0 <= j < |s.workers| && j != i :: t.workers[j] == s.workers[j]
    decreases StepsOut(s.workers[i])
  {
    if Counted(s.workers[i]) {
      var rest := Drains(Worked(s, i), i);
      steps := [Work(i)] + rest;
      Prepend(s, steps, rest);
    } else {
      steps := [];
      Done(s);
    }
  }

  /** If some worker will clear `active`, a new activation can be made to leave without its callback. */
  lemma HarmfulStart(s: State, kind: Kind, i: nat) returns (steps: seq<Step>)
    requires Inv(s) && s.controller == Idle && !s.active && i < |s.workers| && WillClear(s.workers[i])
    ensures Possible(s, [Start(kind)] + steps) && Stop !in steps
    ensures !CallbackOf(After(s, [Start(kind)] + steps), |s.workers|)
  {
    var n := |s.workers|;
    var t := Next(s, Start(kind));
    var last: nat := if LastCounted(s) then n - 1 else i;
    assert s.counter == if Counted(s.workers[last]) then 1 else 0;
    hide Inv;
    var drain := Drains(t, last);
    var u := After(t, drain);
    assert u.workers[i].at == Stopping;
    Overtakes(u, i);
    var overtake := ACTIVATION + [Work(i), Work(n)];
    AfterBoth(t, drain, overtake);
    steps := drain + overtake;
    Prepend(s, [Start(kind)] + steps, steps);
  }

  /**
    A timer is started safely exactly when no earlier worker will still clear `active`: then,
    and only then, every activation that nobody stops runs its callback.
   */
  lemma SafeStartExactly(before: seq<Step>)
    requires Possible(INITIAL, before)
    requires After(INITIAL, before).controller == Idle && !After(INITIAL, before).active
    ensures var s := After(INITIAL, before);
      RunsItsCallback(s) <==> forall i | 0 <= i < |s.workers| :: !WillClear(s.workers[i])
  {
    InvAfter(INITIAL, before);
    var s := After(INITIAL, before);
    hide Inv, Possible, After, CallbackOf;
    if i :| 0 <= i < |s.workers| && WillClear(s.workers[i]) {
      var steps := HarmfulStart(s, Timeout, i);
    } else {
      forall kind, steps | Possible(s, [Start(kind)] + steps) && Stop !in steps
        ensures CallbackOf(After(s, [Start(kind)] + steps), |s.workers|)
      {
        HarmlessStart(s, kind, steps);
      }
    }
  }

  // ----- how often an activation calls back -----

  /** How many callbacks of activation `n` have begun. */
  function Begins(events: seq<Event>, n: nat): nat {
    if events == [] then 0
    else Begins(events[..|events| - 1], n) + (if events[|events| - 1] == Begin(n) then 1 else 0)
  }

  lemma BeginsAppend(events: seq<Event>, e: Event, n: nat)
    ensures Begins(events + [e], n) == Begins(events, n) + (if e == Begin(n) then 1 else 0)
  {
    assert (events + [e])[..|events|] == events;
  }

  /** A callback of a timeout has begun exactly if its worker got that far. */
  ghost predicate BegunAtMostOnce(s: State, n: nat) {
    if n >= |s.workers| then Begins(s.events, n) == 0
    else
      var w := s.workers[n];
      w.kind == Timeout ==>
        if w.at == Gone then Begins(s.events, n) <= 1
        else Begins(s.events, n) == if w.at == Calling || w.at == Called || w.at == Stopping then 1 else 0
  }

  lemma BegunNext(s: State, step: Step, n: nat)
    requires BegunAtMostOnce(s, n) && Enabled(s, step)
    ensures BegunAtMostOnce(Next(s, step), n)
  {
    hide Begins;
    if step.Work? {
      BeginsAppend(s.events, Begin(step.worker), n);
      BeginsAppend(s.events, End(step.worker), n);
    }
  }

  lemma {:induction false} BegunAfter(s: State, steps: seq<Step>, n: nat)
    requires BegunAtMostOnce(s, n) && Possible(s, steps)
    ensures BegunAtMostOnce(After(s, steps), n)
    decreases |steps|
  {
    hide BegunAtMostOnce;
    if steps != [] {
      BegunNext(s, steps[0], n);
      BegunAfter(Next(s, steps[0]), steps[1..], n);
    }
  }

  /** A timeout calls back at most once, whatever happens. */
  lemma TimeoutOnce(steps: seq<Step>, n: nat)
    requires Possible(INITIAL, steps)
    ensures var s := After(INITIAL, steps);
      n < |s.workers| && s.workers[n].kind == Timeout ==> Begins(s.events, n) <= 1
  {
    BegunAfter(INITIAL, steps, n);
  }

  /** Nobody stops interval `n`: it is being set up, or its worker is somewhere in its loop. */
  ghost predicate IntervalRuns(s: State, n: nat) {
    && Undisturbed(s, n)
    && (|s.workers| == n ==> s.kind == Interval)
    && (|s.workers| > n ==> InItsLoop(s, n))
  }

  predicate InItsLoop(s: State, n: nat) {
    && n < |s.workers| && s.active && s.workers[n].kind == Interval
    && var at := s.workers[n].at; at == Head || at == Sleeping || at == Awake || at == Calling
  }

  lemma StaysInItsLoop(s: State, step: Step, n: nat)
    requires InItsLoop(s, n) && |s.workers| == n + 1 && AllGone(s.workers, n) && s.controller == Idle
    requires Enabled(s, step) && !step.Stop?
    ensures InItsLoop(Next(s, step), n)
  {
  }

  /** Its worker is spawned at the head of its loop. */
  lemma EntersItsLoop(s: State, step: Step, n: nat)
    requires |s.workers| == n && s.controller != Idle && s.kind == Interval && Enabled(s, step)
    requires s.controller == Spawn ==> s.active
    ensures |Next(s, step).workers| == n ==> Next(s, step).kind == Interval
    ensures |Next(s, step).workers| > n ==> InItsLoop(Next(s, step), n)
  {
  }

  lemma IntervalRunsNext(s: State, step: Step, n: nat)
    requires IntervalRuns(s, n) && Enabled(s, step) && !step.Stop?
    ensures IntervalRuns(Next(s, step), n)
  {
    UndisturbedNext(s, step, n);
    if |s.workers| > n {
      StaysInItsLoop(s, step, n);
    } else {
      EntersItsLoop(s, step, n);
    }
    hide Inv, AllGone, InItsLoop, Next;
  }

  lemma {:induction false} IntervalRunsAfter(s: State, steps: seq<Step>, n: nat)
    requires IntervalRuns(s, n) && Possible(s, steps) && Stop !in steps
    ensures IntervalRuns(After(s, steps), n)
    decreases |steps|
  {
    hide IntervalRuns;
    if steps != [] {
      IntervalRunsNext(s, steps[0], n);
      IntervalRunsAfter(Next(s, steps[0]), steps[1..], n);
    }
  }

  /** The timer can be started, and no earlier worker will still clear `active`. */
  ghost predicate SafeToStart(s: State) {
    Inv(s) && s.controller == Idle && !s.active && forall i | 0 <= i < |s.workers| :: !WillClear(s.workers[i])
  }

  lemma IntervalGoesOnFrom(s: State, steps: seq<Step>)
    requires SafeToStart(s) && Possible(s, [Start(Interval)] + steps) && Stop !in steps
    ensures var t := After(s, [Start(Interval)] + steps);
      |t.workers| > |s.workers| ==> InItsLoop(t, |s.workers|)
  {
    assert ([Start(Interval)] + steps)[1..] == steps;
    InvNext(s, Start(Interval));
    hide Inv;
    assert IntervalRuns(Next(s, Start(Interval)), |s.workers|);
    IntervalRunsAfter(Next(s, Start(Interval)), steps, |s.workers|);
  }

  /** Once round the loop: one callback begins and ends. */
  lemma OncePerPeriod(s: State, n: nat)
    requires InItsLoop(s, n) && s.workers[n].at == Head
    ensures var steps := [Work(n), Work(n), Work(n), Work(n)];
      && Possible(s, steps) && After(s, steps) == s.(events := s.events + [Begin(n)] + [End(n)])
  {
    var w := s.workers;
    var s1 := s.(workers := w[n := w[n].(at := Sleeping)]);
    var s2 := s.(workers := w[n := w[n].(at := Awake)]);
    var s3 := s.(workers := w[n := w[n].(at := Calling)], events := s.events + [Begin(n)]);
    var s4 := s.(events := s.events + [Begin(n)] + [End(n)]);
    assert Next(s, Work(n)) == s1;
    assert Next(s1, Work(n)) == s2 by { assert s1.workers[n := s1.workers[n].(at := Awake)] == s2.workers; }
    assert Next(s2, Work(n)) == s3 by { assert s2.workers[n := s2.workers[n].(at := Calling)] == s3.workers; }
    assert Next(s3, Work(n)) == s4 by { assert s3.workers[n := s3.workers[n].(at := Head)] == w; }
    hide Possible, After;
    Done(s4);
    Prepend(s3, [Work(n)], []);
    Prepend(s2, [Work(n), Work(n)], [Work(n)]);
    Prepend(s1, [Work(n), Work(n), Work(n)], [Work(n), Work(n)]);
    Prepend(s, [Work(n), Work(n), Work(n), Work(n)], [Work(n), Work(n), Work(n)]);
  }

  lemma {:induction false} LoopsOn(s: State, n: nat, m: nat) returns (steps: seq<Step>)
    requires InItsLoop(s, n) && s.workers[n].at == Head
    ensures Possible(s, steps) && Stop !in steps && Begins(After(s, steps).events, n) == Begins(s.events, n) + m
    decreases m
  {
    if m == 0 {
      steps := [];
      Done(s);
    } else {
      var period := [Work(n), Work(n), Work(n), Work(n)];
      OncePerPeriod(s, n);
      var t := After(s, period);
      BeginsAppend(s.events, Begin(n), n);
      BeginsAppend(s.events + [Begin(n)], End(n), n);
      var rest := LoopsOn(t, n, m - 1);
      AfterBoth(s, period, rest);
      steps := period + rest;
    }
  }

  /** Once nothing is left to wait for, the interval is set up and goes round `m` times. */
  lemma PendingRepeats(s: State, n: nat, m: nat) returns (steps: seq<Step>)
    requires s.controller == Pending && s.counter == 0 && s.kind == Interval && |s.workers| == n
    requires Begins(s.events, n) == 0
    ensures Possible(s, steps) && Stop !in steps && Begins(After(s, steps).events, n) == m
  {
    hide Begins, Possible, After;
    Activated(s);
    var loop := LoopsOn(After(s, ACTIVATION), n, m);
    AfterBoth(s, ACTIVATION, loop);
    steps := ACTIVATION + loop;
  }

  lemma IntervalRepeatsFrom(s: State, m: nat) returns (steps: seq<Step>)
    requires SafeToStart(s) && Begins(s.events, |s.workers|) == 0
    ensures Possible(s, [Start(Interval)] + steps) && Stop !in steps
    ensures Begins(After(s, [Start(Interval)] + steps).events, |s.workers|) == m
  {
    hide Begins, Possible, After, Ordered;
    var n := |s.workers|;
    var t := Next(s, Start(Interval));
    var u, drain := t, [];
    Done(t);
    if LastCounted(s) {
      drain := DrainsQuietly(t, n - 1, n);
      u := After(t, drain);
    }
    var rest := PendingRepeats(u, n, m);
    AfterBoth(t, drain, rest);
    steps := drain + rest;
    Prepend(s, [Start(Interval)] + steps, steps);
  }

  /** Nothing of activation `n`, which has no worker yet, happens meanwhile. */
  lemma DrainsQuietly(s: State, i: nat, n: nat) returns (steps: seq<Step>)
    requires s.controller == Pending && !s.active && i < |s.workers| == n && Counted(s.workers[i]) && s.counter == 1
    requires s.kind == Interval && Begins(s.events, n) == 0
    ensures Possible(s, steps) && Stop !in steps
    ensures var t := After(s, steps);
      && t.controller == Pending && t.counter == 0 && t.kind == Interval && |t.workers| == n && Begins(t.events, n) == 0
  {
    steps := Drains(s, i);
    assert BegunAtMostOnce(s, n);
    BegunAfter(s, steps, n);
  }

  /** In a run: the timer can be started, and no earlier worker will still clear `active`. */
  ghost predicate SafelyStartable(before: seq<Step>) {
    && Possible(INITIAL, before)
    && var s := After(INITIAL, before);
       s.controller == Idle && !s.active && forall i | 0 <= i < |s.workers| :: !WillClear(s.workers[i])
  }

  /** An interval that nobody stops goes on for ever: its worker never leaves its loop. */
  lemma IntervalGoesOn(before: seq<Step>, steps: seq<Step>)
    requires SafelyStartable(before) && Stop !in steps
    requires Possible(After(INITIAL, before), [Start(Interval)] + steps)
    ensures var n, t := |After(INITIAL, before).workers|, After(After(INITIAL, before), [Start(Interval)] + steps);
      |t.workers| > n ==> InItsLoop(t, n)
  {
    InvAfter(INITIAL, before);
    IntervalGoesOnFrom(After(INITIAL, before), steps);
  }

  /** For every `m`, it calls back `m` times in some continuation. */
  lemma IntervalRepeats(before: seq<Step>, m: nat) returns (steps: seq<Step>)
    requires SafelyStartable(before)
    ensures Possible(After(INITIAL, before), [Start(Interval)] + steps) && Stop !in steps
    ensures var n, t := |After(INITIAL, before).workers|, After(After(INITIAL, before), [Start(Interval)] + steps);
      Begins(t.events, n) == m
  {
    var s := After(INITIAL, before);
    InvAfter(INITIAL, before);
    BegunAfter(INITIAL, before, |s.workers|);
    steps := IntervalRepeatsFrom(s, m);
  }

  // ----- stopping -----

  predicate Stopped(s: State) {
    !s.active && s.controller == Idle
  }

  /** A timer that is stopped begins no callback until it is started again; one under way may end. */
  lemma {:induction false} StopEnds(s: State, steps: seq<Step>)
    requires Stopped(s) && Possible(s, steps) && forall k | 0 <= k < |steps| :: !steps[k].Start?
    ensures Stopped(After(s, steps)) && s.events <= After(s, steps).events
    ensures forall p | |s.events| <= p < |After(s, steps).events| :: After(s, steps).events[p].End?
    decreases |steps|
  {
    if steps != [] {
      StopEnds(Next(s, steps[0]), steps[1..]);
    }
  }

  /** Starting while active fails and changes nothing but the number of failures. */
  lemma StartFailsExactlyIfActive(s: State, kind: Kind)
    requires s.controller == Idle
    ensures s.active <==> Next(s, Start(kind)) == s.(thrown := s.thrown + 1)
    ensures !s.active ==> Next(s, Start(kind)).thrown == s.thrown && Next(s, Start(kind)).controller == Pending
  {
  }

  // ----- an instance -----

  const RESTART := [Stop] + ([Start(Timeout)] + (ACTIVATION + [Work(0), Work(1)]))

  lemma Restarted(s: State)
    requires s.workers == [Worker(Timeout, Stopping)] && s.counter == 0 && s.controller == Idle
    ensures Possible(s, RESTART)
    ensures After(s, RESTART).workers == [Worker(Timeout, Gone), Worker(Timeout, Leaving)]
    ensures After(s, RESTART).events == s.events
  {
    var t := s.(active := false, controller := Pending, kind := Timeout);
    Overtakes(t, 0);
    var steps := ACTIVATION + [Work(0), Work(1)];
    Prepend(s.(active := false), [Start(Timeout)] + steps, steps);
    Prepend(s, [Stop] + ([Start(Timeout)] + steps), [Start(Timeout)] + steps);
  }

  const OVERTAKEN := [Start(Timeout)] + (ACTIVATION + (CALLBACK + RESTART))

  /**
    For instance: a timeout clears `active` only after it has decremented `counter`. Stopped
    after its callback and started again in between, it switches the new activation off.
   */
  lemma LateStop()
    ensures Possible(INITIAL, OVERTAKEN)
    ensures After(INITIAL, OVERTAKEN).workers == [Worker(Timeout, Gone), Worker(Timeout, Leaving)]
    ensures After(INITIAL, OVERTAKEN).events == [Begin(0), End(0)]
  {
    var s := INITIAL.(controller := Pending);
    Activated(s);
    var t := After(s, ACTIVATION);
    CalledBack(t);
    Restarted(After(t, CALLBACK));
    AfterBoth(t, CALLBACK, RESTART);
    AfterBoth(s, ACTIVATION, CALLBACK + RESTART);
    Prepend(INITIAL, OVERTAKEN, ACTIVATION + (CALLBACK + RESTART));
  }
}
