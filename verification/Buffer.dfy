/** The message buffer of a node: loose messages, and blocks waiting to be popped. */
module Buffers {
  import opened Types

  /** The length of a slot in milliseconds. */
  const SLOT: nat := 500

  /** A block built around `data` at time `now`. */
  function NewBlock(data: seq<Message>, now: nat): Block {
    Block(PENDING, now, now / SLOT, data)
  }

  datatype BufferValue = BufferValue(messages: seq<Message>, blocks: seq<Block>)

  const EMPTY_BUFFER := BufferValue([], [])

  /** A batch goes in front of what is there, a single message behind it. */
  function PushedAll(v: BufferValue, messages: seq<Message>): BufferValue {
    v.(messages := messages + v.messages)
  }

  function Pushed(v: BufferValue, message: Message): BufferValue {
    v.(messages := v.messages + [message])
  }

  function Saved(v: BufferValue, now: nat): BufferValue {
    if v.messages == [] then v else BufferValue([], v.blocks + [NewBlock(v.messages, now)])
  }

  function Front(v: BufferValue): Option<Block> {
    if v.blocks == [] then None else Some(v.blocks[0])
  }

  function Popped(v: BufferValue): BufferValue {
    if v.blocks == [] then v else v.(blocks := v.blocks[1..])
  }

  /** The messages of a sequence of blocks, with multiplicity. */
  function DataOf(blocks: seq<Block>): multiset<Message> {
    if blocks == [] then multiset{} else multiset(blocks[0].data) + DataOf(blocks[1..])
  }

  function Held(v: BufferValue): multiset<Message> {
    multiset(v.messages) + DataOf(v.blocks)
  }

  predicate NoneEmpty(blocks: seq<Block>) {
    forall k | 0 <= k < |blocks| :: blocks[k].data != [] && blocks[k].state == PENDING
  }

  lemma {:induction false} DataOfConcat(xs: seq<Block>, ys: seq<Block>)
    ensures DataOf(xs + ys) == DataOf(xs) + DataOf(ys)
  {
    if xs == [] {
      assert xs + ys == ys;
    } else {
      assert (xs + ys)[1..] == xs[1..] + ys;
      DataOfConcat(xs[1..], ys);
    }
  }

  lemma DataOfAppend(xs: seq<Block>, y: Block)
    ensures DataOf(xs + [y]) == DataOf(xs) + multiset(y.data)
  {
    DataOfConcat(xs, [y]);
    assert DataOf([y]) == multiset(y.data);
  }

  class Buffer {
    var messages: seq<Message>
    var blocks: seq<Block>

    function Value(): BufferValue
      reads this
    {
      BufferValue(messages, blocks)
    }

    constructor ()
      ensures Value() == EMPTY_BUFFER
    {
      messages, blocks := [], [];
    }

    method PushAll(batch: seq<Message>)
      modifies this
      ensures Value() == PushedAll(old(Value()), batch)
    {
      messages := batch + messages;
    }

    method Push(message: Message)
      modifies this
      ensures Value() == Pushed(old(Value()), message)
    {
      messages := messages + [message];
    }

    method Save(now: nat)
      modifies this
      ensures Value() == Saved(old(Value()), now)
    {
      if |messages| > 0 {
        blocks := blocks + [NewBlock(messages, now)];
        messages := [];
      }
    }

    method Pop() returns (block: Option<Block>)
      modifies this
      ensures block == Front(old(Value())) && Value() == Popped(old(Value()))
    {
      block := None;
      if |blocks| > 0 {
        block := Some(blocks[0]);
        blocks := blocks[1..];
      }
    }
  }

  /** Saving and popping yields the oldest block, or all loose messages, or nothing if nothing is held. */
  lemma OldestFirst(v: BufferValue, now: nat)
    requires NoneEmpty(v.blocks)
    ensures Front(Saved(v, now)).Some? <==> Held(v) != multiset{}
    ensures v.blocks != [] ==> Front(Saved(v, now)) == Some(v.blocks[0])
    ensures v.blocks == [] && v.messages != [] ==> Front(Saved(v, now)) == Some(NewBlock(v.messages, now))
  {
    if v.blocks != [] {
      assert v.blocks[0].data[0] in Held(v);
    } else if v.messages != [] {
      assert v.messages[0] in Held(v);
    }
  }

  // ----- any sequence of calls -----

  datatype Call = PushAll(batch: seq<Message>) | Push(message: Message) | Save(now: nat) | Pop

  /** A buffer with its history: everything pushed, every block saved, every block popped. */
  datatype History = History(value: BufferValue, pushed: multiset<Message>, saved: seq<Block>, popped: seq<Block>)

  function Called(h: History, call: Call): History {
    match call
    case PushAll(batch) => h.(value := PushedAll(h.value, batch), pushed := h.pushed + multiset(batch))
    case Push(message) => h.(value := Pushed(h.value, message), pushed := h.pushed + multiset{message})
    case Save(now) =>
      h.(value := Saved(h.value, now),
      saved := h.saved + (if h.value.messages == [] then [] else [NewBlock(h.value.messages, now)]))
    case Pop =>
      h.(value := Popped(h.value),
      popped := h.popped + (if h.value.blocks == [] then [] else [h.value.blocks[0]]))
  }

  function CalledAll(calls: seq<Call>): History {
    if calls == [] then History(EMPTY_BUFFER, multiset{}, [], [])
    else Called(CalledAll(calls[..|calls| - 1]), calls[|calls| - 1])
  }

  /** Nothing is lost or doubled, no block is empty, and blocks leave in the order they were saved. */
  ghost predicate Conserved(h: History) {
    && DataOf(h.popped) + Held(h.value) == h.pushed
    && h.popped + h.value.blocks == h.saved
    && NoneEmpty(h.saved)
  }

  lemma SaveConserves(h: History, now: nat)
    requires Conserved(h) && h.value.messages != []
    ensures Conserved(Called(h, Save(now)))
  {
    var v := h.value;
    var b := NewBlock(v.messages, now);
    DataOfConcat(v.blocks, [b]);
    assert DataOf([b]) == multiset(v.messages);
    assert h.popped + (v.blocks + [b]) == h.saved + [b];
  }

  lemma DataOfNothing()
    ensures DataOf([]) == multiset{}
  {
  }

  lemma PopConserves(h: History)
    requires Conserved(h) && h.value.blocks != []
    ensures Conserved(Called(h, Pop))
  {
    hide NoneEmpty, DataOf;
    var blocks := h.value.blocks;
    DataOfAppend(h.popped, blocks[0]);
    assert [blocks[0]] + blocks[1..] == blocks;
    DataOfConcat([blocks[0]], blocks[1..]);
    DataOfAppend([], blocks[0]);
    assert [] + [blocks[0]] == [blocks[0]];
    assert DataOf([]) == multiset{} by { DataOfNothing(); }
    assert (h.popped + [blocks[0]]) + blocks[1..] == h.popped + blocks;
  }

  lemma CallConserves(h: History, call: Call)
    requires Conserved(h)
    ensures Conserved(Called(h, call))
  {
    match call
    case PushAll(batch) =>
    case Push(message) =>
    case Save(now) =>
      if h.value.messages != [] {
        SaveConserves(h, now);
      } else {
        assert h.saved + [] == h.saved;
      }
    case Pop =>
      if h.value.blocks != [] {
        PopConserves(h);
      } else {
        assert h.popped + [] == h.popped;
      }
  }

  lemma EmptyConserved()
    ensures Conserved(History(EMPTY_BUFFER, multiset{}, [], []))
  {
  }

  /** Conservation over every sequence of calls on a new buffer. */
  lemma {:induction false} BufferConservation(calls: seq<Call>)
    ensures Conserved(CalledAll(calls))
  {
    hide Conserved, Called;
    if calls == [] {
      assert Conserved(CalledAll(calls)) by { EmptyConserved(); }
    } else {
      BufferConservation(calls[..|calls| - 1]);
      CallConserves(CalledAll(calls[..|calls| - 1]), calls[|calls| - 1]);
    }
  }

  // ----- order -----

  /** The calls after the last save. */
  function SinceSave(calls: seq<Call>): seq<Call> {
    if calls == [] || calls[|calls| - 1].Save? then []
    else SinceSave(calls[..|calls| - 1]) + [calls[|calls| - 1]]
  }

  function BatchOf(call: Call): seq<Message> {
    if call.PushAll? then call.batch else []
  }

  function SingleOf(call: Call): seq<Message> {
    if call.Push? then [call.message] else []
  }

  /** The batches among the calls, a later one in front of an earlier one. */
  function LatestBatchesFirst(calls: seq<Call>): seq<Message> {
    if calls == [] then [] else LatestBatchesFirst(calls[1..]) + BatchOf(calls[0])
  }

  /** The single messages among the calls, in the order they were pushed. */
  function SinglesInOrder(calls: seq<Call>): seq<Message> {
    if calls == [] then [] else SingleOf(calls[0]) + SinglesInOrder(calls[1..])
  }

  /** What the next block would hold: the batches since the last save, latest first, then the single messages. */
  function Loose(calls: seq<Call>): seq<Message> {
    LatestBatchesFirst(SinceSave(calls)) + SinglesInOrder(SinceSave(calls))
  }

  function Flatten(blocks: seq<Block>): seq<Message> {
    if blocks == [] then [] else blocks[0].data + Flatten(blocks[1..])
  }

  lemma Associative<T>(a: seq<T>, b: seq<T>, c: seq<T>)
    ensures (a + b) + c == a + (b + c)
  {
  }

  lemma {:induction false} BatchesAppend(calls: seq<Call>, call: Call)
    ensures LatestBatchesFirst(calls + [call]) == BatchOf(call) + LatestBatchesFirst(calls)
  {
    hide BatchOf;
    if calls == [] {
      assert calls + [call] == [call] && LatestBatchesFirst([call]) == [] + BatchOf(call);
    } else {
      var rest := calls[1..];
      BatchesAppend(rest, call);
      assert (calls + [call])[1..] == rest + [call];
      Associative(BatchOf(call), LatestBatchesFirst(rest), BatchOf(calls[0]));
    }
  }

  lemma {:induction false} SinglesAppend(calls: seq<Call>, call: Call)
    ensures SinglesInOrder(calls + [call]) == SinglesInOrder(calls) + SingleOf(call)
  {
    hide SingleOf;
    if calls == [] {
      assert calls + [call] == [call] && SinglesInOrder([call]) == SingleOf(call) + [];
    } else {
      var rest := calls[1..];
      SinglesAppend(rest, call);
      assert (calls + [call])[1..] == rest + [call];
      Associative(SingleOf(calls[0]), SinglesInOrder(rest), SingleOf(call));
    }
  }

  lemma {:induction false} FlattenAppend(blocks: seq<Block>, b: Block)
    ensures Flatten(blocks + [b]) == Flatten(blocks) + b.data
  {
    if blocks == [] {
      assert blocks + [b] == [b] && Flatten([b]) == b.data + [];
    } else {
      var rest := blocks[1..];
      FlattenAppend(rest, b);
      assert (blocks + [b])[1..] == rest + [b];
      Associative(blocks[0].data, Flatten(rest), b.data);
    }
  }

  lemma LooseAfter(calls: seq<Call>, call: Call)
    ensures Loose(calls + [call]) == if call.Save? then [] else BatchOf(call) + (Loose(calls) + SingleOf(call))
  {
    hide BatchOf, SingleOf, LatestBatchesFirst, SinglesInOrder;
    var since := SinceSave(calls);
    assert (calls + [call])[..|calls|] == calls;
    if call.Save? {
      assert LatestBatchesFirst([]) == [] && SinglesInOrder([]) == [] by { NoCalls(); }
    } else {
      BatchesAppend(since, call);
      SinglesAppend(since, call);
      Associative(BatchOf(call), LatestBatchesFirst(since), SinglesInOrder(since) + SingleOf(call));
      Associative(LatestBatchesFirst(since), SinglesInOrder(since), SingleOf(call));
    }
  }

  lemma NoCalls()
    ensures LatestBatchesFirst([]) == [] && SinglesInOrder([]) == []
  {
  }

  lemma MessagesAfter(h: History, call: Call)
    ensures Called(h, call).value.messages
         == if call.Save? then [] else BatchOf(call) + (h.value.messages + SingleOf(call))
  {
    var m := h.value.messages;
    assert m + [] == m && [] + m == m;
    match call
    case PushAll(batch) =>
    case Push(message) => assert [] + (m + [message]) == m + [message];
    case Save(now) =>
    case Pop =>
  }

  /** In every history the loose messages are the batches since the last save, then the single messages. */
  lemma {:induction false} LooseMessages(calls: seq<Call>)
    ensures CalledAll(calls).value.messages == Loose(calls)
  {
    hide Called, Loose;
    if calls == [] {
      assert Loose(calls) == [] by { NothingLoose(); }
    } else {
      var front, call := calls[..|calls| - 1], calls[|calls| - 1];
      LooseMessages(front);
      MessagesAfter(CalledAll(front), call);
      LooseAfter(front, call);
      assert front + [call] == calls;
    }
  }

  lemma NothingLoose()
    ensures Loose([]) == []
  {
  }

  lemma SlotOfTime(now: nat)
    ensures now / SLOT * SLOT <= now < (now / SLOT + 1) * SLOT
  {
  }

  /** Saving makes one block of them, stamped with the time and its slot, or none if there are none. */
  lemma SavedInOrder(calls: seq<Call>, now: nat)
    ensures var saved, saved' := CalledAll(calls).saved, CalledAll(calls + [Save(now)]).saved;
      if Loose(calls) == [] then saved' == saved
      else
        && |saved'| == |saved| + 1 && saved <= saved'
        && saved'[|saved|].data == Loose(calls) && saved'[|saved|].state == PENDING
        && saved'[|saved|].timestamp == now
        && saved'[|saved|].slot * SLOT <= now < (saved'[|saved|].slot + 1) * SLOT
  {
    hide Loose;
    LooseMessages(calls);
    assert (calls + [Save(now)])[..|calls|] == calls;
    SlotOfTime(now);
  }

  /** All messages of a history in the order they were saved, the loose ones last. */
  function Lined(h: History): seq<Message> {
    Flatten(h.saved) + h.value.messages
  }

  lemma LinedAfter(h: History, call: Call)
    requires !call.PushAll?
    ensures Lined(Called(h, call)) == Lined(h) + SingleOf(call)
  {
    hide Flatten;
    var m := h.value.messages;
    assert Lined(h) + [] == Lined(h) && h.saved + [] == h.saved;
    match call
    case Push(message) => Associative(Flatten(h.saved), m, [message]);
    case Pop =>
    case Save(now) =>
      if m != [] {
        FlattenAppend(h.saved, NewBlock(m, now));
        assert Lined(h) + [] == Lined(h);
      }
  }

  lemma {:induction false} LinedUp(calls: seq<Call>)
    requires forall k | 0 <= k < |calls| :: !calls[k].PushAll?
    ensures Lined(CalledAll(calls)) == SinglesInOrder(calls)
  {
    hide Called, Lined, SinglesInOrder, SingleOf;
    if calls == [] {
      assert Lined(CalledAll([])) == SinglesInOrder([]) by { NothingLined(); }
    } else {
      var front, call := calls[..|calls| - 1], calls[|calls| - 1];
      LinedUp(front);
      LinedAfter(CalledAll(front), call);
      SinglesAppend(front, call);
      assert front + [call] == calls;
    }
  }

  lemma NothingLined()
    ensures Lined(CalledAll([])) == SinglesInOrder([])
  {
  }

  /** Without batches messages leave in the order they came: popped, queued and loose ones make up the pushes. */
  lemma FirstInFirstOut(calls: seq<Call>)
    requires forall k | 0 <= k < |calls| :: !calls[k].PushAll?
    ensures var h := CalledAll(calls);
      Flatten(h.popped + h.value.blocks) + h.value.messages == SinglesInOrder(calls)
  {
    hide CalledAll;
    BufferConservation(calls);
    LinedUp(calls);
  }
}
