// Arena<S, T>: S element slots, a ring buffer of free slot indexes and a
// used flag per slot.  Slots are handed out oldest-released first.
module Arenas {
  import opened Wrappers
  import opened RingBuffers
  import opened FreeLists

  class Arena {
    /** The number of slots S. */
    const capacity: nat
    /** The free slot indexes, newest first. */
    const freeIndexes: RingBuffer<nat>
    const usedIndexesSet: array<bool>

    ghost predicate Valid()
      reads this, freeIndexes, freeIndexes.buffer, usedIndexesSet
    {
      freeIndexes.Valid() && freeIndexes.capacity == capacity &&
      usedIndexesSet.Length == capacity &&
      FreeListOf(freeIndexes.items, usedIndexesSet[..])
    }

    /** Every slot starts free, listed 0 first, so the first acquire hands
        out slot 0. */
    constructor (s: nat)
      requires s > 0
      ensures Valid() && fresh(freeIndexes) && fresh(freeIndexes.buffer) && fresh(usedIndexesSet)
      ensures capacity == s && freeIndexes.items == Countdown(s)
      ensures forall i :: 0 <= i < s ==> !usedIndexesSet[i]
    {
      capacity := s;
      freeIndexes := new RingBuffer<nat>(s);
      usedIndexesSet := new bool[s](_ => false);
      new;
      var i := 0;
      ghost var buffer := freeIndexes.buffer;
      while i < s
        invariant i <= s
        invariant freeIndexes.Valid() && freeIndexes.capacity == s && freeIndexes.buffer == buffer
        invariant freeIndexes.items == Countdown(i)
        modifies freeIndexes, buffer
      {
        var pushed := freeIndexes.Push(i);
        assert freeIndexes.items == Countdown(i + 1);
        i := i + 1;
      }
      assert usedIndexesSet[..] == seq(s, _ => false);
      PowerOnFreeList(s);
    }

    function Available(): (r: nat)
      reads this, freeIndexes, freeIndexes.buffer, usedIndexesSet
      requires Valid()
      ensures r == |freeIndexes.items| && r <= capacity
    {
      freeIndexes.Size()
    }

    /** used(): S - available(), which is the number of slots flagged used. */
    function Used(): (r: nat)
      reads this, freeIndexes, freeIndexes.buffer, usedIndexesSet
      requires Valid()
      ensures r + Available() == capacity
      ensures r == CountTrue(usedIndexesSet[..])
    {
      capacity - Available()
    }

    /** acquire: none when no slot is free; otherwise the oldest free index,
        which is taken off the list and flagged used. */
    method Acquire() returns (index: Option<nat>)
      requires Valid()
      modifies freeIndexes, usedIndexesSet
      ensures Valid() && freeIndexes.buffer == old(freeIndexes.buffer)
      ensures index.None? <==> old(freeIndexes.items) == []
      ensures index.None? ==> unchanged(freeIndexes) && unchanged(usedIndexesSet)
      ensures index.Some? ==>
        var free := old(freeIndexes.items);
        index.value == free[|free| - 1] && index.value < capacity &&
        !old(usedIndexesSet[index.value]) &&
        freeIndexes.items == free[..|free| - 1] &&
        usedIndexesSet[..] == old(usedIndexesSet[..])[index.value := true]
    {
      if freeIndexes.IsEmpty() {
        return None;
      }
      ghost var free, used := freeIndexes.items, usedIndexesSet[..];
      var i := freeIndexes.Last();
      var popped := freeIndexes.Pop();
      usedIndexesSet[i] := true;
      assert free[..|free| - 1] == free[..|free| - 1] + free[|free|..];
      TakeKeeps(free, used, |free| - 1);
      return Some(i);
    }

    /** release: offset is the element's distance from the first slot.  An
        offset outside the slots or of an unused slot is refused; otherwise
        the slot is listed free again and its flag cleared. */
    method Release(offset: int) returns (ok: bool)
      requires Valid()
      modifies freeIndexes, freeIndexes.buffer, usedIndexesSet
      ensures Valid() && freeIndexes.buffer == old(freeIndexes.buffer)
      ensures ok <==> 0 <= offset < capacity && old(usedIndexesSet[offset])
      ensures !ok ==> unchanged(freeIndexes) && unchanged(freeIndexes.buffer) && unchanged(usedIndexesSet)
      ensures ok ==>
        freeIndexes.items == [offset as nat] + old(freeIndexes.items) &&
        usedIndexesSet[..] == old(usedIndexesSet[..])[offset := false]
    {
      if offset < 0 || offset >= capacity || !usedIndexesSet[offset] {
        return false;
      }
      ghost var free, used := freeIndexes.items, usedIndexesSet[..];
      UsedMeansRoom(free, used, offset);
      GiveBackFrontKeeps(free, used, offset);
      var pushed := freeIndexes.Push(offset);
      usedIndexesSet[offset] := false;
      return true;
    }

    /** destroy: runs the destructor exactly when release succeeds. */
    method Destroy(offset: int) returns (ok: bool)
      requires Valid()
      modifies freeIndexes, freeIndexes.buffer, usedIndexesSet
      ensures Valid() && freeIndexes.buffer == old(freeIndexes.buffer)
      ensures ok <==> 0 <= offset < capacity && old(usedIndexesSet[offset])
      ensures !ok ==> unchanged(freeIndexes) && unchanged(freeIndexes.buffer) && unchanged(usedIndexesSet)
      ensures ok ==>
        freeIndexes.items == [offset as nat] + old(freeIndexes.items) &&
        usedIndexesSet[..] == old(usedIndexesSet[..])[offset := false]
    {
      ok := Release(offset);
    }
  }
}
