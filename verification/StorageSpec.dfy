/**
  The questions `ConsensusStorage` answers about one slot, stated on the value of
  the slot: a map from every configured address to what is known of that node.
 */
module StorageSpec {
  import opened Types
  import opened Totals

  type SlotView = map<Address, ConsensusContext>

  predicate AllConfirmed(v: SlotView) {
    forall a | a in v :: v[a].isContributing.Some?
  }

  predicate HasValidator(v: SlotView) {
    exists a | a in v :: v[a].isValidator
  }

  predicate AnyContributing(v: SlotView) {
    exists a | a in v :: v[a].isContributing == Some(true)
  }

  predicate AllPresent(v: SlotView) {
    forall a | a in v :: v[a].electionValue > 0
  }

  /** No other address has the value of `self`; collisions among others do not matter. */
  predicate IsUnique(v: SlotView, self: Address)
    requires self in v
  {
    forall a | a in v && a != self :: v[a].electionValue != v[self].electionValue
  }

  predicate Collected(v: SlotView) {
    forall a | a in v && v[a].isContributing == Some(true) :: |v[a].block.data| > 0
  }

  function ResetAll(v: SlotView): SlotView {
    map a | a in v :: v[a].(electionValue := 0)
  }

  function Values(v: SlotView): map<Address, nat> {
    map a | a in v :: v[a].electionValue
  }

  /** An odd sum nominates a maximum, an even sum a minimum. */
  ghost predicate IsNominee(values: map<Address, nat>, a: Address) {
    a in values &&
    if Sum(values) % 2 == 1 then
      forall b | b in values :: values[b] <= values[a]
    else
      forall b | b in values :: values[a] <= values[b]
  }

  ghost predicate Distinct(values: map<Address, nat>) {
    forall a, b | a in values && b in values && a != b :: values[a] != values[b]
  }

  /** What distinct values buy: the nominee does not depend on the iteration order. */
  lemma NomineeUnique(values: map<Address, nat>, a: Address, b: Address)
    requires Distinct(values) && IsNominee(values, a) && IsNominee(values, b)
    ensures a == b
  {
    assert values[a] == values[b];
  }

  /** What the check of the own value alone does not buy: others may collide on the extreme value. */
  lemma OwnUniquenessIsNotEnough(a: Address, b: Address, c: Address) returns (v: SlotView)
    requires a != b && b != c && a != c
    ensures v.Keys == {a, b, c} && AllPresent(v) && IsUnique(v, a)
    ensures IsNominee(Values(v), b) && IsNominee(Values(v), c)
  {
    v := map[a := FRESH_CONTEXT.(electionValue := 1),
             b := FRESH_CONTEXT.(electionValue := 5),
             c := FRESH_CONTEXT.(electionValue := 5)];
    var values := Values(v);
    SumRemove(values, a);
    SumRemove(values - {a}, b);
    SumRemove(values - {a} - {b}, c);
    assert values - {a} - {b} - {c} == map[];
  }

  predicate Sorted(data: seq<Message>) {
    forall i, j | 0 <= i < j < |data| :: data[i].timestamp <= data[j].timestamp
  }

  /** The blocks of the contributing nodes. */
  function Contributions(v: SlotView): map<Address, seq<Message>> {
    map a | a in v && v[a].isContributing == Some(true) :: v[a].block.data
  }

  /** `b` is a possible result of merging all contributors into the block of `validator`. */
  ghost predicate IsMerge(v: SlotView, validator: Address, b: Block)
    requires validator in v
  {
    && b.state == COMPLETED
    && b.timestamp == v[validator].block.timestamp
    && b.slot == v[validator].block.slot
    && Sorted(b.data)
    && multiset(b.data) == multiset(v[validator].block.data) + Gather(Contributions(v) - {validator})
  }

  // ----- nominees and merges exist -----

  lemma {:induction false} MaximumExists(values: map<Address, nat>) returns (a: Address)
    requires values != map[]
    ensures a in values && forall b | b in values :: values[b] <= values[a]
    decreases |values|
  {
    a :| a in values;
    var rest := values - {a};
    assert forall b | b in values && b != a :: b in rest;
    if rest != map[] {
      var c := MaximumExists(rest);
      assert forall b | b in rest :: rest[b] == values[b];
      if values[c] >= values[a] {
        a := c;
      }
    }
  }

  lemma {:induction false} MinimumExists(values: map<Address, nat>) returns (a: Address)
    requires values != map[]
    ensures a in values && forall b | b in values :: values[a] <= values[b]
    decreases |values|
  {
    a :| a in values;
    var rest := values - {a};
    assert forall b | b in values && b != a :: b in rest;
    if rest != map[] {
      var c := MinimumExists(rest);
      assert forall b | b in rest :: rest[b] == values[b];
      if values[c] <= values[a] {
        a := c;
      }
    }
  }

  lemma NomineeExists(values: map<Address, nat>) returns (a: Address)
    requires values != map[]
    ensures IsNominee(values, a)
  {
    if Sum(values) % 2 == 1 {
      a := MaximumExists(values);
    } else {
      a := MinimumExists(values);
    }
  }

  /** Puts `x` behind every message that is not later. */
  function Insert(data: seq<Message>, x: Message): (r: seq<Message>)
    ensures multiset(r) == multiset(data) + multiset{x}
  {
    if data == [] || data[|data| - 1].timestamp <= x.timestamp then data + [x]
    else
      var last := data[|data| - 1];
      assert data == data[..|data| - 1] + [last];
      Insert(data[..|data| - 1], x) + [last]
  }

  lemma {:induction false} InsertSorted(data: seq<Message>, x: Message)
    requires Sorted(data)
    ensures Sorted(Insert(data, x))
  {
    if data != [] && data[|data| - 1].timestamp > x.timestamp {
      var last := data[|data| - 1];
      var front := data[..|data| - 1];
      InsertSorted(front, x);
      forall m | m in Insert(front, x)
        ensures m.timestamp <= last.timestamp
      {
        assert m in multiset(Insert(front, x));
        assert m in front || m == x;
      }
      assert forall i | 0 <= i < |Insert(front, x)| :: Insert(front, x)[i] in Insert(front, x);
    }
  }

  lemma {:induction false} SortedExists(messages: multiset<Message>) returns (data: seq<Message>)
    ensures Sorted(data) && multiset(data) == messages
    decreases |messages|
  {
    if messages == multiset{} {
      data := [];
    } else {
      var x :| x in messages;
      var rest := SortedExists(messages - multiset{x});
      InsertSorted(rest, x);
      data := Insert(rest, x);
    }
  }

  lemma MergeExists(v: SlotView, validator: Address) returns (b: Block)
    requires validator in v
    ensures IsMerge(v, validator, b)
  {
    var data := SortedExists(multiset(v[validator].block.data) + Gather(Contributions(v) - {validator}));
    b := Block(COMPLETED, v[validator].block.timestamp, v[validator].block.slot, data);
  }
}
