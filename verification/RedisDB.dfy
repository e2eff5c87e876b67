/**
  The chains kept in Redis: lists of blocks under a key. The codec that turns a block into
  the stored text is taken to be injective, so a list of texts is a list of blocks.
 */
module Redis {
  import opened Types

  /** RPUSH and its reply, the new length. */
  function Appended(list: seq<Block>, block: Block): seq<Block> {
    list + [block]
  }

  /** A Redis index counts from the end when it is negative. */
  function Position(list: seq<Block>, index: int): int {
    if index < 0 then |list| + index else index
  }

  predicate InRange(list: seq<Block>, index: int) {
    0 <= Position(list, index) < |list|
  }

  /** LRANGE of one position: nothing outside the list. */
  function At(list: seq<Block>, index: int): Option<Block> {
    if InRange(list, index) then Some(list[Position(list, index)]) else None
  }

  /** LSET, which fails outside the list. */
  function Overwritten(list: seq<Block>, index: int, block: Block): Option<seq<Block>> {
    if InRange(list, index) then Some(list[Position(list, index) := block]) else None
  }

  /** LREM with count one: the first equal element goes. */
  function Removed(list: seq<Block>, block: Block): seq<Block> {
    if list == [] then []
    else if list[0] == block then list[1..]
    else [list[0]] + Removed(list[1..], block)
  }

  /** Removing by value removes one index when no earlier entry is equal. */
  lemma {:induction false} RemovedAt(list: seq<Block>, index: nat)
    requires index < |list| && forall k | 0 <= k < index :: list[k] != list[index]
    ensures Removed(list, list[index]) == list[..index] + list[index + 1..]
  {
    if index > 0 {
      RemovedAt(list[1..], index - 1);
      assert list[..index] == [list[0]] + list[1..][..index - 1];
      assert list[1..][index - 1 + 1..] == list[index + 1..];
    }
  }

  /** Removing what is not there removes nothing. */
  lemma {:induction false} RemovedNothing(list: seq<Block>, block: Block)
    requires block !in list
    ensures Removed(list, block) == list
  {
    if list != [] {
      RemovedNothing(list[1..], block);
    }
  }

  class RedisDB {
    var lists: map<string, seq<Block>>

    function List(key: string): seq<Block>
      reads this
    {
      if key in lists then lists[key] else []
    }

    /** The other lists. */
    ghost function OtherLists(key: string): imap<string, seq<Block>>
      reads this
    {
      imap other | other != key :: List(other)
    }

    constructor ()
      ensures forall key :: List(key) == []
    {
      lists := map[];
    }

    method Add(block: Block, key: string) returns (length: int)
      modifies this
      ensures List(key) == Appended(old(List(key)), block) && length == |List(key)|
      ensures forall other | other != key :: List(other) == old(List(other))
      ensures OtherLists(key) == old(OtherLists(key))
    {
      lists := lists[key := List(key) + [block]];
      length := |lists[key]|;
    }

    /** Fails, leaving the list alone, where Redis reports an index out of range. */
    method Update(block: Block, index: int, key: string) returns (ok: bool)
      modifies this
      ensures ok <==> Overwritten(old(List(key)), index, block).Some?
      ensures List(key) == if ok then Overwritten(old(List(key)), index, block).value else old(List(key))
      ensures forall other | other != key :: List(other) == old(List(other))
      ensures OtherLists(key) == old(OtherLists(key))
    {
      var list := List(key);
      var position := if index < 0 then |list| + index else index;
      ok := 0 <= position < |list|;
      if ok {
        lists := lists[key := list[position := block]];
      }
    }

    method Remove(block: Block, key: string)
      modifies this
      ensures List(key) == Removed(old(List(key)), block)
      ensures forall other | other != key :: List(other) == old(List(other))
      ensures OtherLists(key) == old(OtherLists(key))
    {
      if key in lists {
        lists := lists[key := Removed(lists[key], block)];
      }
    }

    method GetByIndex(index: int, key: string) returns (block: Option<Block>)
      ensures block == At(List(key), index)
    {
      var list := List(key);
      var position := if index < 0 then |list| + index else index;
      block := if 0 <= position < |list| then Some(list[position]) else None;
    }
  }
}
