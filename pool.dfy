// Pool<T, S>: S element slots, a stack of free slot indexes and a used flag
// per slot.  Slots are handed out most-recently-released first.
module Pools {
  import opened Wrappers
  import opened Stacks
  import opened FreeLists

  class Pool {
    /** The number of slots S. */
    const capacity: nat
    /** The free slot indexes, top last. */
    const freeIndexes: Stack
    const usedIndexesSet: array<bool>

    ghost predicate Valid()
      reads this, freeIndexes, freeIndexes.data, usedIndexesSet
    {
      freeIndexes.Valid() && freeIndexes.capacity == capacity &&
      usedIndexesSet.Length == capacity &&
      FreeListOf(freeIndexes.Contents(), usedIndexesSet[..])
    }

    /** The indexes are pushed from S - 1 down to 0, so 0 is on top and the
        first acquire hands out slot 0. */
    constructor (s: nat)
      ensures Valid() && fresh(freeIndexes) && fresh(freeIndexes.data) && fresh(usedIndexesSet)
      ensures capacity == s && freeIndexes.Contents() == Countdown(s)
      ensures s > 0 ==> freeIndexes.Contents()[s - 1] == 0
      ensures forall i :: 0 <= i < s ==> !usedIndexesSet[i]
    {
      capacity := s;
      freeIndexes := new Stack(s);
      usedIndexesSet := new bool[s](_ => false);
      new;
      var i := s;
      ghost var data := freeIndexes.data;
      while i > 0
        invariant i <= s
        invariant freeIndexes.Valid() && freeIndexes.capacity == s && freeIndexes.data == data
        invariant freeIndexes.Contents() == Countdown(s)[..s - i]
        modifies freeIndexes, data
      {
        i := i - 1;
        freeIndexes.Push(i);
        assert Countdown(s)[..s - i] == Countdown(s)[..s - i - 1] + [i];
      }
      assert usedIndexesSet[..] == seq(s, _ => false);
      PowerOnFreeList(s);
    }

    function Available(): (r: nat)
      reads this, freeIndexes, freeIndexes.data, usedIndexesSet
      requires Valid()
      ensures r == |freeIndexes.Contents()| && r <= capacity
    {
      freeIndexes.Size()
    }

    /** used(): S - available(), which is the number of slots flagged used. */
    function Used(): (r: nat)
      reads this, freeIndexes, freeIndexes.data, usedIndexesSet
      requires Valid()
      ensures r + Available() == capacity
      ensures r == CountTrue(usedIndexesSet[..])
    {
      capacity - Available()
    }

    /** acquire: none when the free stack is empty; otherwise the index on
        top, which is popped and flagged used. */
    method Acquire() returns (index: Option<nat>)
      requires Valid()
      modifies freeIndexes, usedIndexesSet
      ensures Valid()
      ensures index.None? <==> old(freeIndexes.Contents()) == []
      ensures index.None? ==> unchanged(freeIndexes) && unchanged(usedIndexesSet)
      ensures index.Some? ==>
        var free := old(freeIndexes.Contents());
        index.value == free[|free| - 1] && index.value < capacity &&
        !old(usedIndexesSet[index.value]) &&
        freeIndexes.Contents() == free[..|free| - 1] &&
        usedIndexesSet[..] == old(usedIndexesSet[..])[index.value := true]
    {
      if freeIndexes.Empty() {
        return None;
      }
      ghost var free, used := freeIndexes.Contents(), usedIndexesSet[..];
      var i := freeIndexes.Pop();
      usedIndexesSet[i] := true;
      assert free[..|free| - 1] == free[..|free| - 1] + free[|free|..];
      TakeKeeps(free, used, |free| - 1);
      return Some(i);
    }

    /** release: offset is the element's distance from the first slot.  A
        negative offset, one past the slots, or one of an unused slot is
        refused, so a second release of the same slot is refused; otherwise
        the index is pushed and its flag cleared. */
    method Release(offset: int) returns (ok: bool)
      requires Valid()
      modifies freeIndexes, freeIndexes.data, usedIndexesSet
      ensures Valid()
      ensures ok <==> 0 <= offset < capacity && old(usedIndexesSet[offset])
      ensures !ok ==> unchanged(freeIndexes) && unchanged(freeIndexes.data) && unchanged(usedIndexesSet)
      ensures ok ==>
        freeIndexes.Contents() == old(freeIndexes.Contents()) + [offset as nat] &&
        usedIndexesSet[..] == old(usedIndexesSet[..])[offset := false]
    {
      if offset < 0 {
        return false;
      }
      if offset >= capacity || !usedIndexesSet[offset] {
        return false;
      }
      ghost var free, used := freeIndexes.Contents(), usedIndexesSet[..];
      UsedMeansRoom(free, used, offset);
      GiveBackKeeps(free, used, offset);
      freeIndexes.Push(offset);
      usedIndexesSet[offset] := false;
      return true;
    }

    /** destroy: the same checks as release; the destructor runs and the
        slot is released exactly when they pass. */
    method Destroy(offset: int) returns (ok: bool)
      requires Valid()
      modifies freeIndexes, freeIndexes.data, usedIndexesSet
      ensures Valid()
      ensures ok <==> 0 <= offset < capacity && old(usedIndexesSet[offset])
      ensures !ok ==> unchanged(freeIndexes) && unchanged(freeIndexes.data) && unchanged(usedIndexesSet)
      ensures ok ==>
        freeIndexes.Contents() == old(freeIndexes.Contents()) + [offset as nat] &&
        usedIndexesSet[..] == old(usedIndexesSet[..])[offset := false]
    {
      if offset < 0 {
        return false;
      }
      if offset >= capacity || !usedIndexesSet[offset] {
        return false;
      }
      ok := Release(offset);
    }
  }
}
