/**
  `ConsensusStorage`: what a node knows of every node in every slot, updated in place.
  Loops over the contexts visit them in no particular order.
 */
module Storage {
  import opened Types
  import opened Totals
  import opened StorageSpec

  // ----- the sum of the election values, in the width the program computes it -----

  const TWO_TO_THE_31: int := 0x8000_0000
  const TWO_TO_THE_32: int := 0x1_0000_0000
  const TWO_TO_THE_64: int := 0x1_0000_0000_0000_0000

  /** The conversion of a 64-bit value to `int`. */
  function ToInt32(x: int): int {
    var low := x % TWO_TO_THE_32;
    if low < TWO_TO_THE_31 then low else low - TWO_TO_THE_32
  }

  /** One step of the sum: added in 64 bits without sign, kept in an `int`. */
  function Accumulate(sum: int, value: nat): int {
    ToInt32((sum % TWO_TO_THE_64 + value) % TWO_TO_THE_64)
  }

  lemma EvenModulus(x: int, m: int)
    requires m > 0 && m % 2 == 0
    ensures (x % m) % 2 == x % 2
  {
    var q := x / m;
    var h := m / 2;
    assert x == q * m + x % m && m == 2 * h;
    assert x == 2 * (q * h) + x % m;
  }

  lemma ToInt32Parity(x: int)
    ensures ToInt32(x) % 2 == x % 2
  {
    EvenModulus(x, TWO_TO_THE_32);
  }

  lemma SameParity(x: int, y: int, v: int)
    requires x % 2 == y % 2
    ensures (x + v) % 2 == (y + v) % 2
  {
  }

  /** Adding modulo an even number keeps the parity of the exact sum. */
  lemma WrappedParity(sum: int, value: nat, m: int)
    requires m > 0 && m % 2 == 0
    ensures ((sum % m + value) % m) % 2 == (sum + value) % 2
  {
    EvenModulus(sum, m);
    SameParity(sum % m, sum, value);
    EvenModulus(sum % m + value, m);
  }

  /** However often the sum wraps, its parity is that of the exact sum. */
  lemma AccumulateParity(sum: int, value: nat)
    ensures Accumulate(sum, value) % 2 == (sum + value) % 2
  {
    hide ToInt32;
    WrappedParity(sum, value, TWO_TO_THE_64);
    ToInt32Parity((sum % TWO_TO_THE_64 + value) % TWO_TO_THE_64);
  }

  lemma SumExtend(done: map<Address, nat>, a: Address, v: nat, sum: int)
    requires a !in done && sum % 2 == Sum(done) % 2
    ensures Accumulate(sum, v) % 2 == Sum(done[a := v]) % 2
  {
    hide Accumulate, Sum;
    AccumulateParity(sum, v);
    SumRemove(done[a := v], a);
    assert done[a := v] - {a} == done;
  }

  lemma SumOfNothing()
    ensures Sum(map[]) == 0
  {
  }

  /** The blocks of the contributing nodes among `visited`. */
  ghost function Among(v: SlotView, visited: set<Address>): map<Address, seq<Message>> {
    map a | a in v && a in visited && v[a].isContributing == Some(true) :: v[a].block.data
  }

  lemma GatherVisit(v: SlotView, visited: set<Address>, a: Address)
    requires a in v && a !in visited
    ensures Gather(Among(v, visited + {a})) ==
            Gather(Among(v, visited))
            + (if v[a].isContributing == Some(true) then multiset(v[a].block.data) else multiset{})
  {
    hide Gather;
    if v[a].isContributing == Some(true) {
      GatherRemove(Among(v, visited + {a}), a);
      assert Among(v, visited + {a}) - {a} == Among(v, visited);
    } else {
      assert Among(v, visited + {a}) == Among(v, visited);
    }
  }

  lemma GatherNobody(v: SlotView)
    ensures Gather(Among(v, {})) == multiset{}
  {
    assert Among(v, {}) == map[];
  }

  lemma AmongOthers(v: SlotView, validator: Address)
    ensures Among(v, v.Keys - {validator}) == Contributions(v) - {validator}
  {
  }

  /** `std::sort`: some sorted order of the same messages. */
  method SortByTimestamp(data: seq<Message>) returns (sorted: seq<Message>)
    ensures Sorted(sorted) && multiset(sorted) == multiset(data)
  {
    sorted := [];
    var i := 0;
    while i < |data|
      invariant 0 <= i <= |data|
      invariant Sorted(sorted) && multiset(sorted) == multiset(data[..i])
    {
      InsertSorted(sorted, data[i]);
      sorted := Insert(sorted, data[i]);
      assert data[..i + 1] == data[..i] + [data[i]];
      i := i + 1;
    }
    assert data[..i] == data;
  }

  class ConsensusStorage {
    var contexts: map<Address, map<nat, ConsensusContext>>
    // the synchronization contexts: the flag `isSynchronized` of each slot that has one
    var conditions: map<nat, bool>

    function Entry(a: Address, slot: nat): ConsensusContext
      reads this`contexts
    {
      if a in contexts && slot in contexts[a] then contexts[a][slot] else FRESH_CONTEXT
    }

    /** What the storage knows of `slot`; an absent entry and a fresh one are the same. */
    function View(slot: nat): (v: SlotView)
      reads this`contexts
      ensures v.Keys == contexts.Keys
    {
      map a | a in contexts :: Entry(a, slot)
    }

    /** What the storage knows of every slot but one: their entries. */
    ghost function OtherEntries(slot: nat): imap<(Address, nat), ConsensusContext>
      reads this`contexts
    {
      imap k: (Address, nat) | k.1 != slot :: Entry(k.0, k.1)
    }

    /** Their entries and their synchronization contexts. */
    ghost function Elsewhere(slot: nat): (imap<(Address, nat), ConsensusContext>, map<nat, bool>)
      reads this`contexts, this`conditions
    {
      (OtherEntries(slot), conditions - {slot})
    }

    constructor ()
      ensures contexts == map[] && conditions == map[]
    {
      contexts, conditions := map[], map[];
    }

    /** The slot after a change of one entry. */
    lemma OneEntryChanged(before: SlotView, a: Address, slot: nat)
      requires contexts.Keys == before.Keys && a in before
      requires forall b | b in before && b != a :: Entry(b, slot) == before[b]
      ensures View(slot) == before[a := Entry(a, slot)]
    {
    }

    // ----- updates of one entry -----

    method Put(a: Address, slot: nat, context: ConsensusContext)
      modifies this`contexts
      ensures contexts.Keys == old(contexts.Keys) + {a}
      ensures Entry(a, slot) == context
      ensures forall b, t | b != a || t != slot :: Entry(b, t) == old(Entry(b, t))
      ensures a in old(contexts) ==> View(slot) == old(View(slot))[a := context]
      ensures Elsewhere(slot) == old(Elsewhere(slot))
    {
      var slots := if a in contexts then contexts[a] else map[];
      contexts := contexts[a := slots[slot := context]];
      assert OtherEntries(slot) == old(OtherEntries(slot));
    }

    method SetContribution(a: Address, slot: nat, isContributing: bool)
      modifies this`contexts
      ensures contexts.Keys == old(contexts.Keys) + {a}
      ensures Entry(a, slot) == old(Entry(a, slot)).(isContributing := Some(isContributing))
      ensures forall b, t | b != a || t != slot :: Entry(b, t) == old(Entry(b, t))
      ensures a in old(contexts) ==>
                View(slot) == old(View(slot))[a := old(View(slot)[a]).(isContributing := Some(isContributing))]
      ensures Elsewhere(slot) == old(Elsewhere(slot))
    {
      Put(a, slot, Entry(a, slot).(isContributing := Some(isContributing)));
    }

    method FillElectionValue(a: Address, slot: nat, value: nat)
      modifies this`contexts
      ensures contexts.Keys == old(contexts.Keys) + {a}
      ensures Entry(a, slot) == old(Entry(a, slot)).(electionValue := value)
      ensures forall b, t | b != a || t != slot :: Entry(b, t) == old(Entry(b, t))
      ensures a in old(contexts) ==> View(slot) == old(View(slot))[a := old(View(slot)[a]).(electionValue := value)]
      ensures Elsewhere(slot) == old(Elsewhere(slot))
    {
      Put(a, slot, Entry(a, slot).(electionValue := value));
    }

    method AddBlock(a: Address, slot: nat, block: Block)
      modifies this`contexts
      ensures contexts.Keys == old(contexts.Keys) + {a}
      ensures Entry(a, slot) == old(Entry(a, slot)).(block := block)
      ensures forall b, t | b != a || t != slot :: Entry(b, t) == old(Entry(b, t))
      ensures a in old(contexts) ==> View(slot) == old(View(slot))[a := old(View(slot)[a]).(block := block)]
      ensures Elsewhere(slot) == old(Elsewhere(slot))
    {
      Put(a, slot, Entry(a, slot).(block := block));
    }

    method MarkAsResolved(a: Address, slot: nat)
      modifies this`contexts
      ensures contexts.Keys == old(contexts.Keys) + {a}
      ensures Entry(a, slot) == old(Entry(a, slot)).(isResolved := true)
      ensures forall b, t | b != a || t != slot :: Entry(b, t) == old(Entry(b, t))
      ensures a in old(contexts) ==> View(slot) == old(View(slot))[a := old(View(slot)[a]).(isResolved := true)]
      ensures Elsewhere(slot) == old(Elsewhere(slot))
    {
      Put(a, slot, Entry(a, slot).(isResolved := true));
    }

    // ----- slots -----

    /** Makes every configured node known; what is known already stays. */
    method InitContexts(nodes: set<Address>, slot: nat)
      modifies this`contexts
      ensures contexts.Keys == old(contexts.Keys) + nodes
      ensures forall b, t :: Entry(b, t) == old(Entry(b, t))
      ensures nodes <= old(contexts.Keys) ==> View(slot) == old(View(slot))
      ensures Elsewhere(slot) == old(Elsewhere(slot))
    {
      var todo := nodes;
      while todo != {}
        invariant todo <= nodes
        invariant contexts.Keys == old(contexts.Keys) + (nodes - todo)
        invariant forall b, t :: Entry(b, t) == old(Entry(b, t))
      {
        var a :| a in todo;
        Put(a, slot, Entry(a, slot));
        todo := todo - {a};
      }
      assert OtherEntries(slot) == old(OtherEntries(slot));
    }

    method InitConditions(slot: nat)
      modifies this`conditions
      ensures conditions == if slot in old(conditions) then old(conditions) else old(conditions)[slot := false]
      ensures Elsewhere(slot) == old(Elsewhere(slot))
    {
      if slot !in conditions {
        conditions := conditions[slot := false];
      }
      assert conditions - {slot} == old(conditions) - {slot};
    }

    /** Stores the flag of the slot; fails where the program would follow a null pointer. */
    method SetSynchronized(slot: nat, value: bool) returns (ok: bool)
      modifies this`conditions
      ensures ok <==> slot in old(conditions)
      ensures conditions == if ok then old(conditions)[slot := value] else old(conditions)
      ensures Elsewhere(slot) == old(Elsewhere(slot))
    {
      ok := slot in conditions;
      if ok {
        conditions := conditions[slot := value];
      }
      assert conditions - {slot} == old(conditions) - {slot};
    }

    method ClearSlot(slot: nat)
      modifies this
      ensures contexts.Keys == old(contexts.Keys)
      ensures forall a :: Entry(a, slot) == FRESH_CONTEXT
      ensures forall a, t | t != slot :: Entry(a, t) == old(Entry(a, t))
      ensures conditions == if contexts == map[] then old(conditions) else old(conditions) - {slot}
      ensures View(slot) == map a | a in old(View(slot)) :: FRESH_CONTEXT
      ensures Elsewhere(slot) == old(Elsewhere(slot))
    {
      var todo := contexts.Keys;
      while todo != {}
        invariant todo <= contexts.Keys == old(contexts.Keys)
        invariant forall a | a !in todo :: Entry(a, slot) == FRESH_CONTEXT
        invariant forall a, t | t != slot || a in todo :: Entry(a, t) == old(Entry(a, t))
        invariant conditions == if todo == contexts.Keys then old(conditions) else old(conditions) - {slot}
      {
        var a :| a in todo;
        contexts := contexts[a := contexts[a] - {slot}];
        conditions := conditions - {slot};
        todo := todo - {a};
      }
      assert OtherEntries(slot) == old(OtherEntries(slot));
      assert conditions - {slot} == old(conditions) - {slot};
    }

    // ----- questions -----

    method AreAllContributorsConfirmed(slot: nat) returns (all: bool)
      ensures all <==> AllConfirmed(View(slot))
    {
      all := true;
      var todo := contexts.Keys;
      while todo != {} && all
        invariant todo <= contexts.Keys
        invariant all ==> forall a | a in contexts.Keys - todo :: View(slot)[a].isContributing.Some?
        invariant !all ==> !AllConfirmed(View(slot))
      {
        var a :| a in todo;
        all := Entry(a, slot).isContributing.Some?;
        assert View(slot)[a] == Entry(a, slot);
        todo := todo - {a};
      }
    }

    /** `None` where `isContributing.value()` throws. */
    method IsAnyNodeContributing(slot: nat) returns (any: Option<bool>)
      ensures AllConfirmed(View(slot)) ==> any.Some? && (any.value <==> AnyContributing(View(slot)))
      ensures any == Some(true) ==> AnyContributing(View(slot))
      ensures any == Some(false) ==> AllConfirmed(View(slot)) && !AnyContributing(View(slot))
    {
      any := Some(false);
      var todo := contexts.Keys;
      while todo != {} && any == Some(false)
        invariant todo <= contexts.Keys
        invariant any == Some(false) ==>
                    forall a | a in contexts.Keys - todo :: View(slot)[a].isContributing == Some(false)
        invariant any == Some(true) ==> AnyContributing(View(slot))
        invariant any == None ==> !AllConfirmed(View(slot))
      {
        var a :| a in todo;
        any := Entry(a, slot).isContributing;
        assert View(slot)[a] == Entry(a, slot);
        todo := todo - {a};
      }
    }

    method AreAllElectionValuesPresent(slot: nat) returns (all: bool)
      ensures all <==> AllPresent(View(slot))
    {
      all := true;
      var todo := contexts.Keys;
      while todo != {} && all
        invariant todo <= contexts.Keys
        invariant all ==> forall a | a in contexts.Keys - todo :: View(slot)[a].electionValue > 0
        invariant !all ==> !AllPresent(View(slot))
      {
        var a :| a in todo;
        all := Entry(a, slot).electionValue > 0;
        assert View(slot)[a] == Entry(a, slot);
        todo := todo - {a};
      }
    }

    method IsElectionValueUnique(address: Address, slot: nat) returns (unique: bool)
      requires address in contexts
      ensures unique <==> IsUnique(View(slot), address)
    {
      var electionValue := Entry(address, slot).electionValue;
      unique := true;
      var todo := contexts.Keys;
      while todo != {} && unique
        invariant todo <= contexts.Keys
        invariant unique ==> forall a | a in contexts.Keys - todo && a != address ::
                      View(slot)[a].electionValue != electionValue
        invariant !unique ==> !IsUnique(View(slot), address)
      {
        var a :| a in todo;
        assert View(slot)[a] == Entry(a, slot);
        if a != address {
          unique := Entry(a, slot).electionValue != electionValue;
        }
        todo := todo - {a};
      }
    }

    /** `None` where `isContributing.value()` throws. */
    method IsAllContributorsDataCollected(slot: nat) returns (all: Option<bool>)
      ensures AllConfirmed(View(slot)) ==> all.Some? && (all.value <==> Collected(View(slot)))
      ensures all == Some(true) ==> AllConfirmed(View(slot)) && Collected(View(slot))
      ensures all == Some(false) ==> !Collected(View(slot))
    {
      all := Some(true);
      var todo := contexts.Keys;
      while todo != {} && all == Some(true)
        invariant todo <= contexts.Keys
        invariant all == Some(true) ==>
                    forall a | a in contexts.Keys - todo ::
                      && View(slot)[a].isContributing.Some?
                      && (View(slot)[a].isContributing.value ==> |View(slot)[a].block.data| > 0)
        invariant all == Some(false) ==> !Collected(View(slot))
        invariant all == None ==> !AllConfirmed(View(slot))
      {
        var a :| a in todo;
        assert View(slot)[a] == Entry(a, slot);
        var context := Entry(a, slot);
        all := if context.isContributing.None? then None
               else Some(!context.isContributing.value || |context.block.data| > 0);
        todo := todo - {a};
      }
    }

    method IsResolved(address: Address, slot: nat) returns (resolved: bool)
      ensures resolved <==> Entry(address, slot).isResolved
    {
      resolved := Entry(address, slot).isResolved;
    }

    method GetBlock(address: Address, slot: nat) returns (block: Block)
      ensures block == Entry(address, slot).block
    {
      block := Entry(address, slot).block;
    }

    // ----- the election -----

    /**
      Every address is compared with itself too, so every address counts as a duplicate:
      all values are reset, not only those that collide.
     */
    method RemoveElectionValueDuplicates(slot: nat)
      modifies this`contexts
      ensures contexts.Keys == old(contexts.Keys)
      ensures View(slot) == ResetAll(old(View(slot)))
      ensures forall a, t | t != slot :: Entry(a, t) == old(Entry(a, t))
      ensures Elsewhere(slot) == old(Elsewhere(slot))
    {
      var duplicated: set<Address> := {};
      var todo := contexts.Keys;
      while todo != {}
        invariant todo <= contexts.Keys
        invariant duplicated == contexts.Keys - todo
      {
        var a :| a in todo;
        var others := contexts.Keys;
        while others != {}
          invariant others <= contexts.Keys
          invariant duplicated == (contexts.Keys - todo) + (if a in others then duplicated * {a} else {a})
        {
          var b :| b in others;
          if Entry(a, slot).electionValue == Entry(b, slot).electionValue {
            duplicated := duplicated + {a};
          }
          others := others - {b};
        }
        todo := todo - {a};
      }
      assert duplicated == contexts.Keys;
      while duplicated != {}
        invariant duplicated <= contexts.Keys == old(contexts.Keys)
        invariant forall a, t | t != slot || a !in contexts || a in duplicated :: Entry(a, t) == old(Entry(a, t))
        invariant forall a | a in contexts && a !in duplicated ::
                    Entry(a, slot) == old(Entry(a, slot)).(electionValue := 0)
      {
        var a :| a in duplicated;
        FillElectionValue(a, slot, 0);
        duplicated := duplicated - {a};
      }
      assert OtherEntries(slot) == old(OtherEntries(slot));
    }

    /**
      Marks a node with the largest value if the sum is odd, with the smallest if it is
      even, and returns the one it marked.
     */
    method MarkValidator(slot: nat) returns (validator: Address)
      requires contexts != map[]
      modifies this`contexts
      ensures IsNominee(old(Values(View(slot))), validator)
      ensures contexts.Keys == old(contexts.Keys)
      ensures View(slot) == old(View(slot))[validator := old(View(slot)[validator]).(isValidator := true)]
      ensures forall a, t | a != validator || t != slot :: Entry(a, t) == old(Entry(a, t))
      ensures Elsewhere(slot) == old(Elsewhere(slot))
    {
      ghost var values := Values(View(slot));
      var sum := SumOfValues(slot);
      validator :| validator in contexts;
      var value := Entry(validator, slot).electionValue;
      var todo := contexts.Keys;
      while todo != {}
        invariant todo <= contexts.Keys == values.Keys && validator in values && value == values[validator]
        invariant sum % 2 != 0 ==> forall a | a in values && a !in todo :: values[a] <= value
        invariant sum % 2 == 0 ==> forall a | a in values && a !in todo :: value <= values[a]
      {
        var a :| a in todo;
        var v := Entry(a, slot).electionValue;
        assert v == values[a];
        if (sum % 2 != 0 && v > value) || (sum % 2 == 0 && v < value) {
          validator, value := a, v;
        }
        todo := todo - {a};
      }
      Put(validator, slot, Entry(validator, slot).(isValidator := true));
    }

    /** The accumulated sum; only its parity is meaningful. */
    method SumOfValues(slot: nat) returns (sum: int)
      ensures sum % 2 == Sum(Values(View(slot))) % 2
    {
      hide Accumulate, Sum;
      SumOfNothing();
      ghost var values := Values(View(slot));
      ghost var done: map<Address, nat> := map[];
      sum := 0;
      var todo := contexts.Keys;
      while todo != {}
        invariant todo <= contexts.Keys == values.Keys
        invariant done.Keys == contexts.Keys - todo
        invariant forall a | a in done :: done[a] == values[a]
        invariant sum % 2 == Sum(done) % 2
      {
        var a :| a in todo;
        var v := Entry(a, slot).electionValue;
        SumExtend(done, a, v, sum);
        sum, done, todo := Accumulate(sum, v), done[a := v], todo - {a};
      }
      assert done == values;
    }

    /** The node marked in the slot, the last one met if there are several. */
    method GetValidator(slot: nat) returns (validator: Option<Address>)
      ensures validator.Some? ==> validator.value in contexts && View(slot)[validator.value].isValidator
      ensures validator.None? ==> forall a | a in contexts :: !View(slot)[a].isValidator
    {
      validator := None;
      var todo := contexts.Keys;
      while todo != {}
        invariant todo <= contexts.Keys
        invariant validator.Some? ==> validator.value in contexts && View(slot)[validator.value].isValidator
        invariant validator.None? ==> forall a | a in contexts.Keys - todo :: !View(slot)[a].isValidator
      {
        var a :| a in todo;
        assert View(slot)[a] == Entry(a, slot);
        if Entry(a, slot).isValidator {
          validator := Some(a);
        }
        todo := todo - {a};
      }
    }

    // ----- merging -----

    /** Appends `data` to the block of `a`. */
    method Append(a: Address, slot: nat, data: seq<Message>)
      requires a in contexts
      modifies this`contexts
      ensures contexts.Keys == old(contexts.Keys)
      ensures forall b, t | b != a || t != slot :: Entry(b, t) == old(Entry(b, t))
      ensures Entry(a, slot) == old(Entry(a, slot)).(block :=
                                  old(Entry(a, slot)).block.(data := old(Entry(a, slot)).block.data + data))
      ensures Elsewhere(slot) == old(Elsewhere(slot))
    {
      var context := Entry(a, slot);
      Put(a, slot, context.(block := context.block.(data := context.block.data + data)));
    }

    /** Appends the data of all other contributors, in some order; stops where it would throw. */
    method AppendContributors(validator: Address, slot: nat) returns (ok: bool)
      requires validator in contexts
      modifies this`contexts
      ensures contexts.Keys == old(contexts.Keys)
      ensures forall a, t | a != validator || t != slot :: Entry(a, t) == old(Entry(a, t))
      ensures Entry(validator, slot) == old(Entry(validator, slot)).(block :=
                old(Entry(validator, slot)).block.(data := Entry(validator, slot).block.data))
      ensures old(AllConfirmed(View(slot))) ==> ok
      ensures ok ==> multiset(Entry(validator, slot).block.data) ==
                     multiset(old(Entry(validator, slot)).block.data)
                     + Gather(Contributions(old(View(slot))) - {validator})
      ensures Elsewhere(slot) == old(Elsewhere(slot))
    {
      hide Gather, Among;
      ghost var before := View(slot);
      ghost var own := Entry(validator, slot);
      ghost var visited: set<Address> := {};
      ghost var data := own.block.data;
      GatherNobody(before);
      ok := true;
      var todo := contexts.Keys - {validator};
      while todo != {} && ok
        invariant contexts.Keys == before.Keys == old(contexts.Keys)
        invariant visited !! todo && visited + todo == before.Keys - {validator}
        invariant forall a, t | a != validator || t != slot :: Entry(a, t) == old(Entry(a, t))
        invariant !ok ==> !AllConfirmed(before)
        invariant Entry(validator, slot) == own.(block := own.block.(data := data))
        invariant ok ==> multiset(data) == multiset(own.block.data) + Gather(Among(before, visited))
      {
        var a :| a in todo;
        var context := Entry(a, slot);
        assert context == before[a];
        GatherVisit(before, visited, a);
        if context.isContributing.None? {
          ok := false;
        } else if context.isContributing.value {
          Append(validator, slot, context.block.data);
          data := data + context.block.data;
        }
        todo, visited := todo - {a}, visited + {a};
      }
      AmongOthers(before, validator);
      assert OtherEntries(slot) == old(OtherEntries(slot));
    }

    /**
      Appends the data of all other contributors to the block of the validator, in place,
      and sorts it. `None` where `isContributing.value()` throws.
     */
    method MergeContributors(slot: nat) returns (merged: Option<Block>, validator: Address)
      requires HasValidator(View(slot))
      modifies this`contexts
      ensures validator in old(contexts) && old(View(slot))[validator].isValidator
      ensures contexts.Keys == old(contexts.Keys)
      ensures forall a, t | a != validator || t != slot :: Entry(a, t) == old(Entry(a, t))
      ensures old(AllConfirmed(View(slot))) ==> merged.Some?
      ensures merged.Some? ==>
                && IsMerge(old(View(slot)), validator, merged.value)
                && View(slot) == old(View(slot))[validator := old(View(slot)[validator]).(block := merged.value)]
      ensures Elsewhere(slot) == old(Elsewhere(slot))
    {
      hide Gather, Sorted, AllConfirmed, Contributions;
      ghost var before := View(slot);
      var marked := GetValidator(slot);
      validator := marked.value;
      assert Entry(validator, slot) == before[validator];
      var ok := AppendContributors(validator, slot);
      merged := None;
      if ok {
        var sorted := SortByTimestamp(Entry(validator, slot).block.data);
        merged := Some(Entry(validator, slot).block.(data := sorted, state := COMPLETED));
        Put(validator, slot, Entry(validator, slot).(block := merged.value));
        OneEntryChanged(before, validator, slot);
      }
    }
  }
}
