// MPUManager: a bump allocator over the 2048-byte non-cached RAM pool.  Each
// allocation hands out the bytes right after those already handed out; a
// request that does not fit is reported (ErrorHandler) and answered with
// nullptr, and the occupied count keeps the failed request's size.
module NonCachedMemory {
  import opened Wrappers

  /** NO_CACHED_RAM_MAXIMUM_SPACE. */
  const MaxSpace: nat := 2048
  const TwoTo32: nat := 0x1_0000_0000

  /** A handed-out block: its offset from the pool start and its size. */
  datatype Block = Block(offset: nat, size: nat)

  function End(b: Block): nat
  {
    b.offset + b.size
  }

  /** The blocks tile the pool from offset 0, each starting where the
      previous one ends. */
  predicate Contiguous(bs: seq<Block>)
  {
    (|bs| > 0 ==> bs[0].offset == 0) &&
    forall k :: 0 < k < |bs| ==> bs[k].offset == End(bs[k - 1])
  }

  /** Where the blocks handed out so far end. */
  function Reached(bs: seq<Block>): nat
  {
    if bs == [] then 0 else End(bs[|bs| - 1])
  }

  /** Contiguous blocks never overlap: an earlier block ends before a later
      one starts, and every block ends by the point reached. */
  lemma {:induction false} ContiguousDisjoint(bs: seq<Block>)
    requires Contiguous(bs)
    ensures forall i, j :: 0 <= i < j < |bs| ==> End(bs[i]) <= bs[j].offset
    ensures forall i :: 0 <= i < |bs| ==> End(bs[i]) <= Reached(bs)
    decreases |bs|
  {
    if bs != [] {
      var init := bs[..|bs| - 1];
      assert forall k :: 0 <= k < |init| ==> init[k] == bs[k];
      assert Contiguous(init);
      ContiguousDisjoint(init);
      forall i, j | 0 <= i < j < |bs| ensures End(bs[i]) <= bs[j].offset {
        if j < |bs| - 1 {
          assert init[i] == bs[i] && init[j] == bs[j];
        } else if i < |bs| - 1 {
          assert init[i] == bs[i];
        }
      }
    }
  }

  class MPUManager {
    /** no_cached_ram_start: the address of the pool. */
    const start: nat
    /** no_cached_ram_occupied_bytes, without wrap-around (see
        AllocateAsWritten). */
    var occupied: nat
    /** The blocks handed out, in order. */
    ghost var granted: seq<Block>

    /** The handed-out blocks tile the pool up to the occupied count, or
        the pool has overflowed and the count is past its end. */
    ghost predicate Valid()
      reads this
    {
      Contiguous(granted) && Reached(granted) <= MaxSpace &&
      (occupied == Reached(granted) || occupied > MaxSpace)
    }

    constructor (start: nat)
      ensures Valid() && this.start == start && occupied == 0 && granted == []
    {
      this.start := start;
      occupied := 0;
      granted := [];
    }

    /** allocate_non_cached_memory: the next size bytes, or None (the error
        report and nullptr) when they would pass the end of the pool.  The
        count grows by size either way. */
    method Allocate(size: nat) returns (r: Option<nat>)
      requires Valid() && size < TwoTo32
      modifies this
      ensures Valid()
      ensures occupied == old(occupied) + size
      ensures r.Some? <==> old(occupied) + size <= MaxSpace
      ensures r.Some? ==> r.value == start + old(occupied) && granted == old(granted) + [Block(old(occupied), size)]
      ensures r.None? ==> granted == old(granted)
    {
      var buffer := start + occupied;
      occupied := occupied + size;
      if occupied > MaxSpace {
        return None;
      }
      ghost var bs := granted + [Block(old(occupied), size)];
      assert forall k :: 0 <= k < |granted| ==> bs[k] == granted[k];
      granted := bs;
      return Some(buffer);
    }
  }

  /** Every block a manager has handed out lies inside the pool, and no two
      overlap. */
  lemma GrantedBlocksDisjoint(m: MPUManager)
    requires m.Valid()
    ensures forall i :: 0 <= i < |m.granted| ==> End(m.granted[i]) <= MaxSpace
    ensures forall i, j :: 0 <= i < j < |m.granted| ==> End(m.granted[i]) <= m.granted[j].offset
  {
    ContiguousDisjoint(m.granted);
  }

  /** The allocation as written: the offset handed out and the new count,
      which is a uint32_t and so wraps modulo 2^32 before it is compared
      with the pool size. */
  function AllocateAsWritten(occupied: nat, size: nat): (r: (Option<nat>, nat))
    requires occupied < TwoTo32 && size < TwoTo32
    ensures r.1 < TwoTo32
    ensures occupied + size < TwoTo32 ==>
      r.1 == occupied + size && (r.0.Some? <==> occupied + size <= MaxSpace)
    ensures r.0.Some? ==> r.0.value == occupied
  {
    var occupied' := (occupied + size) % TwoTo32;
    (if occupied' > MaxSpace then None else Some(occupied), occupied')
  }

  /** With 100 bytes taken, a request for 0xFFFF_FFF0 bytes wraps the count
      to 84 and is granted; the next 32-byte request is then granted at
      offset 84, overlapping the block at 100.  Without wrap-around the
      first request is refused. */
  lemma WrapGrantsOverlap()
    ensures AllocateAsWritten(100, 0xFFFF_FFF0) == (Some(100), 84)
    ensures AllocateAsWritten(84, 32) == (Some(84), 116)
    ensures 84 < 100 < 84 + 32 && 100 + 0xFFFF_FFF0 > MaxSpace
  {
  }
}
