// SdLoggerDomain: the SD-card packet logger.  Packets are registered once;
// log() marks one for logging; update() moves the SD write and the packet
// builds forward, places every requested packet that fits into the current
// buffer, and once the buffer is full and every build has finished writes it
// out and starts a new one at the next block address.
//
// The 32-bit request and building masks are modelled as sets of bit
// positions.  The count-trailing-zeros walks visit set bits in ascending
// order, as the ascending scans below do.  The packets' builds, the SD card
// and the write-complete interrupt are outside the model: their outcomes are
// parameters or separate methods.
module SdLoggerDomain {
  import opened Wrappers

  /** MAX_PACKETS */
  const MaxPackets: nat := 32
  const BlockBytes: nat := 512
  /** The end-of-log marker written where the next packet index would go. */
  const EndMarker: nat := 0xFFFF
  const MaxPacketsError := "Max packets reached in SdLogger"
  const TwoTo32: nat := 0x1_0000_0000

  /** A packet built into the current buffer, at a byte offset. */
  datatype Placement = Placement(packet: nat, offset: nat, size: nat)

  /** A write of blocks handed to the SD card. */
  datatype Write = Write(address: nat, blocks: nat)

  /** The placements tile the buffer from 0 up to end, in order. */
  predicate Tiled(placed: seq<Placement>, end: nat)
  {
    if |placed| == 0 then end == 0
    else
      var last := placed[|placed| - 1];
      last.offset + last.size == end && Tiled(placed[..|placed| - 1], last.offset)
  }

  /** Tiled placements never overlap and all lie below the end. */
  lemma {:induction false} TiledDisjoint(placed: seq<Placement>, end: nat)
    requires Tiled(placed, end)
    ensures forall k :: 0 <= k < |placed| ==> placed[k].offset + placed[k].size <= end
    ensures forall p, q :: 0 <= p < q < |placed| ==> placed[p].offset + placed[p].size <= placed[q].offset
    decreases |placed|
  {
    if |placed| > 0 {
      var init := placed[..|placed| - 1];
      TiledDisjoint(init, placed[|placed| - 1].offset);
      assert forall k :: 0 <= k < |init| ==> init[k] == placed[k];
    }
  }

  /** The state of the request pass of update(). */
  datatype Fill = Fill(request: set<nat>, building: set<nat>, done: set<nat>, offset: nat,
                       placed: seq<Placement>, full: bool)

  /** The request pass from bit i on over the snapshot `pending` of the request
      mask: a packet already building is skipped; the first one that does not
      fit below limit stops the pass and marks the buffer full; every other
      one moves from request to building and is placed at the offset.  Every
      pending bit is below the packet count, so the pass stops there rather
      than at bit 31. */
  function FillFrom(f: Fill, pending: set<nat>, sizes: seq<nat>, limit: nat, i: nat): (r: Fill)
    requires i <= |sizes| && forall k :: k in pending ==> k < |sizes|
    ensures r.offset <= limit || r.offset == f.offset
    decreases |sizes| - i
  {
    if i == |sizes| then f
    else if i !in pending || i in f.building then FillFrom(f, pending, sizes, limit, i + 1)
    else if f.offset + sizes[i] > limit then f.(full := true)
    else
      FillFrom(Fill(f.request - {i}, f.building + {i}, f.done - {i}, f.offset + sizes[i],
                    f.placed + [Placement(i, f.offset, sizes[i])], f.full),
               pending, sizes, limit, i + 1)
  }

  /** The build step on the request pass's state: a building packet whose
      build has completed stops building, and its completion flag clears. */
  function BuildsFinished(f: Fill): (r: Fill)
    ensures r.building == f.building - f.done && r.done == f.done - f.building
    ensures r.request == f.request && r.offset == f.offset && r.placed == f.placed && r.full == f.full
  {
    f.(building := f.building - f.done, done := f.done - f.building)
  }

  /** update() up to the flush: the build step, then the request pass over
      the request mask as it was, unless a flush is already pending. */
  function Advanced(f: Fill, sizes: seq<nat>, limit: nat): Fill
    requires forall k :: k in f.request ==> k < |sizes|
  {
    var b := BuildsFinished(f);
    if f.full then b else FillFrom(b, f.request, sizes, limit, 0)
  }

  class SdLogger {
    /** packet_sizes of the packets added so far; packet_count is |sizes|. */
    var sizes: seq<nat>
    var request: set<nat>
    var building: set<nat>
    /** The packets whose build_complete_flags is set. */
    var done: set<nat>
    var writeOngoing: bool
    var writeComplete: bool
    /** current_buffer_size in bytes and current_buffer_blocks. */
    const bufferSize: nat
    const bufferBlocks: nat
    var offset: nat
    var flushPending: bool
    var blockAddr: nat
    /** What has been built into the current buffer, and where the end marker
        sits once the buffer is full. */
    var placed: seq<Placement>
    var marker: Option<nat>
    /** The writes handed to the card and the errors reported. */
    var writes: seq<Write>
    var errors: seq<string>

    ghost predicate Valid()
      reads this
    {
      Core() && marker == (if flushPending then Some(offset) else None)
    }

    /** Everything but the pending flag's agreement with the marker. */
    ghost predicate Core()
      reads this
    {
      |sizes| <= MaxPackets && bufferSize >= 2 && bufferBlocks == bufferSize / BlockBytes && blockAddr < TwoTo32
      && FillOk(Snapshot(), sizes, bufferSize - 2)
    }

    /** The fields the request pass works on, with the pending flag. */
    function Snapshot(): Fill
      reads this
    {
      Fill(request, building, done, offset, placed, flushPending)
    }

    /** The constructor: the card's buffer of bufferWords 32-bit words. */
    constructor (bufferWords: nat)
      requires bufferWords >= 1
      ensures Valid() && sizes == [] && request == {} && building == {} && offset == 0
      ensures bufferSize == bufferWords * 4 && bufferBlocks == bufferWords * 4 / BlockBytes
      ensures blockAddr == 0 && !flushPending && !writeOngoing && writes == [] && errors == []
    {
      sizes := [];
      request := {};
      building := {};
      done := {};
      writeOngoing := false;
      writeComplete := false;
      bufferSize := bufferWords * 4;
      bufferBlocks := bufferWords * 4 / BlockBytes;
      offset := 0;
      flushPending := false;
      blockAddr := 0;
      placed := [];
      marker := None;
      writes := [];
      errors := [];
    }

    /** add_packet: the 33rd packet is refused with an error and index 0;
        otherwise the packet's size is kept and its index returned. */
    method AddPacket(size: nat) returns (index: nat)
      requires Valid()
      modifies this`sizes, this`errors
      ensures Valid()
      ensures |old(sizes)| >= MaxPackets ==> index == 0 && sizes == old(sizes) && errors == old(errors) + [MaxPacketsError]
      ensures |old(sizes)| < MaxPackets ==> index == |old(sizes)| && sizes == old(sizes) + [size] && errors == old(errors)
      ensures request == old(request) && building == old(building) && offset == old(offset)
    {
      if |sizes| >= MaxPackets {
        errors := errors + [MaxPacketsError];
        return 0;
      }
      sizes := sizes + [size];
      index := |sizes| - 1;
    }

    /** log: set the packet's request bit and nothing else. */
    method Log(index: nat)
      requires Valid() && index < |sizes|
      modifies this`request
      ensures Valid() && request == old(request) + {index}
      ensures building == old(building) && offset == old(offset) && sizes == old(sizes) && placed == old(placed)
      ensures flushPending == old(flushPending) && blockAddr == old(blockAddr) && writes == old(writes)
    {
      request := request + {index};
    }

    /** A packet's build signals completion (the flag the build was given). */
    method BuildComplete(index: nat)
      requires Valid() && index < |sizes|
      modifies this`done
      ensures Valid() && done == old(done) + {index} && building == old(building) && request == old(request)
      ensures offset == old(offset) && placed == old(placed) && flushPending == old(flushPending)
    {
      done := done + {index};
    }

    /** The card signals that the ongoing write has finished. */
    method WriteComplete()
      requires Valid()
      modifies this`writeComplete
      ensures Valid() && writeComplete && writeOngoing == old(writeOngoing)
      ensures request == old(request) && building == old(building) && offset == old(offset)
      ensures flushPending == old(flushPending) && blockAddr == old(blockAddr)
    {
      writeComplete := true;
    }

    /** update: the SD step, the build step, the request pass unless a flush
        is pending, then a flush once the buffer is full and no build is
        running; `accepted` is the card's answer should a write be issued. */
    method Update(accepted: bool)
      requires Valid()
      modifies this`request, this`building, this`done, this`offset, this`placed, this`flushPending, this`marker,
        this`writeOngoing, this`writeComplete, this`writes, this`blockAddr
      ensures Valid()
      ensures old(flushPending) ==> request == old(request) && offset <= old(offset)
      ensures flushPending ==> building != {} || !accepted || old(writeOngoing && !writeComplete)
      ensures blockAddr != old(blockAddr) ==> blockAddr == (old(blockAddr) + bufferBlocks) % TwoTo32
                                                && offset == 0 && building == {}
      ensures var a := Advanced(old(Snapshot()), old(sizes), bufferSize - 2);
              var flushed := a.full && a.building == {} && !(old(writeOngoing) && !old(writeComplete)) && accepted;
              (flushed ==> Snapshot() == a.(offset := 0, placed := [], full := false)
                           && blockAddr == (old(blockAddr) + bufferBlocks) % TwoTo32
                           && writes == old(writes) + [Write(old(blockAddr), bufferBlocks)])
              && (!flushed ==> Snapshot() == a && blockAddr == old(blockAddr) && writes == old(writes))
      ensures var a := Advanced(old(Snapshot()), old(sizes), bufferSize - 2);
              var tried := a.full && a.building == {} && !(old(writeOngoing) && !old(writeComplete));
              (tried ==> writeOngoing == accepted && !writeComplete)
              && (!tried ==> writeOngoing == (old(writeOngoing) && !old(writeComplete))
                             && writeComplete == (old(writeComplete) && !old(writeOngoing)))
    {
      Advance();
      if flushPending && building == {} {
        FlushStep(accepted);
      }
    }

    /** The steps of update() before the flush. */
    method Advance()
      requires Valid()
      modifies this`request, this`building, this`done, this`offset, this`placed, this`flushPending, this`marker, this`writeOngoing, this`writeComplete
      ensures Valid() && blockAddr == old(blockAddr) && writes == old(writes)
      ensures writeOngoing == (old(writeOngoing) && !old(writeComplete))
      ensures writeComplete == (old(writeComplete) && !old(writeOngoing))
      ensures old(flushPending) ==> flushPending && request == old(request) && offset == old(offset)
      ensures Snapshot() == Advanced(old(Snapshot()), old(sizes), bufferSize - 2) && sizes == old(sizes)
    {
      SdStep();
      BuildStep();
      if !flushPending {
        RequestStep();
      }
    }

    /** The flush of update(): the pending flag clears once the write is
        issued. */
    method FlushStep(accepted: bool)
      requires Valid() && flushPending && building == {}
      modifies this`writeOngoing, this`writeComplete, this`writes, this`blockAddr, this`offset, this`placed, this`marker, this`flushPending
      ensures old(writeOngoing) ==> writeOngoing && writeComplete == old(writeComplete)
      ensures !old(writeOngoing) ==> writeOngoing == accepted && !writeComplete
      ensures Valid() && request == old(request) && building == {}
      ensures flushPending <==> old(writeOngoing) || !accepted
      ensures flushPending ==> blockAddr == old(blockAddr) && offset == old(offset)
      ensures !flushPending ==> blockAddr == (old(blockAddr) + bufferBlocks) % TwoTo32 && offset == 0
      ensures flushPending ==> Snapshot() == old(Snapshot()) && writes == old(writes)
      ensures !flushPending ==> Snapshot() == old(Snapshot()).(offset := 0, placed := [], full := false)
                                && writes == old(writes) + [Write(old(blockAddr), bufferBlocks)]
      ensures sizes == old(sizes)
    {
      var ok := FlushBuffer(accepted);
      if ok {
        flushPending := false;
      }
    }

    /** A finished write clears the ongoing flag. */
    method SdStep()
      requires Valid()
      modifies this`writeOngoing, this`writeComplete
      ensures Valid()
      ensures writeOngoing == (old(writeOngoing) && !old(writeComplete))
      ensures writeComplete == (old(writeComplete) && !old(writeOngoing))
      ensures request == old(request) && building == old(building) && done == old(done) && offset == old(offset)
      ensures placed == old(placed) && flushPending == old(flushPending) && blockAddr == old(blockAddr)
      ensures writes == old(writes) && sizes == old(sizes)
    {
      if writeOngoing {
        if writeComplete {
          writeOngoing := false;
          writeComplete := false;
        }
      }
    }

    /** Every building packet whose build has completed stops building, and
        its flag is cleared. */
    method BuildStep()
      requires Valid()
      modifies this`building, this`done
      ensures Valid()
      ensures building == old(building) - old(done) && done == old(done) - old(building)
      ensures request == old(request) && offset == old(offset) && placed == old(placed)
      ensures flushPending == old(flushPending) && blockAddr == old(blockAddr)
      ensures writeOngoing == old(writeOngoing) && writeComplete == old(writeComplete)
      ensures writes == old(writes) && sizes == old(sizes)
    {
      var scan, flags := building, done;
      var stillBuilding, stillDone := building, done;
      for i := 0 to MaxPackets
        invariant stillBuilding == scan - Below(flags, i) && stillDone == flags - Below(scan, i)
      {
        if i in scan && i in stillDone {
          stillBuilding := stillBuilding - {i};
          stillDone := stillDone - {i};
        }
      }
      assert scan - Below(flags, MaxPackets) == scan - flags;
      assert flags - Below(scan, MaxPackets) == flags - scan;
      building, done := stillBuilding, stillDone;
    }

    /** The request pass, unless a flush is pending. */
    method RequestStep()
      requires Valid() && !flushPending
      modifies this`request, this`building, this`done, this`offset, this`placed, this`flushPending, this`marker
      ensures Valid()
      ensures Snapshot() == FillFrom(old(Snapshot()), old(request), old(sizes), bufferSize - 2, 0)
      ensures blockAddr == old(blockAddr) && writeOngoing == old(writeOngoing) && writes == old(writes)
      ensures sizes == old(sizes)
    {
      var f := RunFill(Snapshot(), request, sizes, bufferSize - 2);
      Commit(f);
    }

    /** Takes over the state the request pass ended in; the end marker goes
        where the offset stopped when the buffer became full. */
    method Commit(f: Fill)
      requires Valid() && FillOk(f, sizes, bufferSize - 2)
      modifies this`request, this`building, this`done, this`offset, this`placed, this`flushPending, this`marker
      ensures Valid() && Snapshot() == f
      ensures blockAddr == old(blockAddr) && writeOngoing == old(writeOngoing) && writes == old(writes)
      ensures sizes == old(sizes)
    {
      request, building, done, offset, placed, flushPending := f.request, f.building, f.done, f.offset, f.placed, f.full;
      marker := if f.full then Some(offset) else None;
    }

    /** flush_buffer: nothing while a write is ongoing or when the card refuses
        it; otherwise the buffer's blocks are written at the block address,
        which advances, and a new buffer starts at offset 0. */
    method FlushBuffer(accepted: bool) returns (ok: bool)
      requires Valid() && flushPending
      modifies this`writeOngoing, this`writeComplete, this`writes, this`blockAddr, this`offset, this`placed, this`marker
      ensures old(writeOngoing) ==> writeOngoing && writeComplete == old(writeComplete)
      ensures !old(writeOngoing) ==> writeOngoing == accepted && !writeComplete
      ensures Core() && building == old(building) && request == old(request) && flushPending
      ensures ok <==> !old(writeOngoing) && accepted
      ensures ok ==> blockAddr == (old(blockAddr) + bufferBlocks) % TwoTo32 && offset == 0 && placed == []
                     && marker == None && writes == old(writes) + [Write(old(blockAddr), bufferBlocks)] && writeOngoing
      ensures !ok ==> Valid() && blockAddr == old(blockAddr) && offset == old(offset) && writes == old(writes)
                      && placed == old(placed)
      ensures done == old(done) && sizes == old(sizes)
    {
      if writeOngoing {
        return false;
      }
      writeComplete := false;
      if !accepted {
        return false;
      }
      writes := writes + [Write(blockAddr, bufferBlocks)];
      writeOngoing := true;
      blockAddr := (blockAddr + bufferBlocks) % TwoTo32;
      offset := 0;
      placed := [];
      marker := None;
      ok := true;
    }

    function CurrentBlock(): (r: nat)
      reads this
      requires Valid()
      ensures r < TwoTo32
    {
      blockAddr
    }
  }

  lemma PlaceTiles(placed: seq<Placement>, end: nat, p: Placement)
    requires Tiled(placed, end) && p.offset == end
    ensures Tiled(placed + [p], end + p.size)
  {
    assert (placed + [p])[..|placed|] == placed;
  }

  /** The loop of the request pass, over a snapshot of the request mask. */
  method RunFill(f0: Fill, pending: set<nat>, sizes: seq<nat>, limit: nat) returns (f: Fill)
    requires !f0.full && forall k :: k in pending ==> k < |sizes|
    requires FillOk(f0, sizes, limit)
    ensures f == FillFrom(f0, pending, sizes, limit, 0) && FillOk(f, sizes, limit)
  {
    FillKeeps(f0, pending, sizes, limit, 0);
    f := f0;
    var i := 0;
    while i < |sizes|
      invariant i <= |sizes| && !f.full
      invariant FillFrom(f, pending, sizes, limit, i) == FillFrom(f0, pending, sizes, limit, 0)
    {
      if i !in pending || i in f.building {
        i := i + 1;
        continue;
      }
      if f.offset + sizes[i] > limit {
        f := f.(full := true);
        return;
      }
      f := Fill(f.request - {i}, f.building + {i}, f.done - {i}, f.offset + sizes[i],
                f.placed + [Placement(i, f.offset, sizes[i])], false);
      i := i + 1;
    }
  }

  /** The members of s below i. */
  function Below(s: set<nat>, i: nat): set<nat>
  {
    set k | k in s && k < i
  }

  /** The request pass keeps every packet index below the packet count, the
      placements tiled and matching the packet sizes, and the offset within
      the limit. */
  lemma {:induction false} FillKeeps(f: Fill, pending: set<nat>, sizes: seq<nat>, limit: nat, i: nat)
    requires i <= |sizes| && forall k :: k in pending ==> k < |sizes|
    requires FillOk(f, sizes, limit)
    ensures FillOk(FillFrom(f, pending, sizes, limit, i), sizes, limit)
    decreases |sizes| - i
  {
    if i < |sizes| && i in pending && i !in f.building && f.offset + sizes[i] <= limit {
      var g := Fill(f.request - {i}, f.building + {i}, f.done - {i}, f.offset + sizes[i],
                    f.placed + [Placement(i, f.offset, sizes[i])], f.full);
      PlaceOk(f, i, sizes, limit);
      FillKeeps(g, pending, sizes, limit, i + 1);
    } else if i < |sizes| && (i !in pending || i in f.building) {
      FillKeeps(f, pending, sizes, limit, i + 1);
    }
  }

  /** The request pass only appends: each new placement is a pending packet
      from bit i on that was not building, is building afterwards and no
      longer requested, and the new placements go in ascending packet order. */
  lemma {:induction false} FillAppends(f: Fill, pending: set<nat>, sizes: seq<nat>, limit: nat, i: nat)
    requires i <= |sizes| && forall k :: k in pending ==> k < |sizes|
    ensures var r := FillFrom(f, pending, sizes, limit, i);
            |f.placed| <= |r.placed| && r.placed[..|f.placed|] == f.placed
            && (forall k :: |f.placed| <= k < |r.placed| ==>
                  var p := r.placed[k].packet;
                  i <= p && p in pending && p !in f.building && p in r.building && p !in r.request)
            && (forall k, l :: |f.placed| <= k < l < |r.placed| ==> r.placed[k].packet < r.placed[l].packet)
    decreases |sizes| - i
  {
    if i < |sizes| && i in pending && i !in f.building && f.offset + sizes[i] <= limit {
      var g := Fill(f.request - {i}, f.building + {i}, f.done - {i}, f.offset + sizes[i],
                    f.placed + [Placement(i, f.offset, sizes[i])], f.full);
      FillAppends(g, pending, sizes, limit, i + 1);
      FillGrows(g, pending, sizes, limit, i + 1);
      var r := FillFrom(f, pending, sizes, limit, i);
      assert r == FillFrom(g, pending, sizes, limit, i + 1);
      assert r.placed[..|g.placed|] == g.placed;
      assert r.placed[..|f.placed|] == g.placed[..|f.placed|];
      assert r.placed[|f.placed|] == Placement(i, f.offset, sizes[i]);
    } else if i < |sizes| && (i !in pending || i in f.building) {
      FillAppends(f, pending, sizes, limit, i + 1);
    }
  }

  /** The request pass never takes a packet out of building nor puts one
      back into request. */
  lemma {:induction false} FillGrows(f: Fill, pending: set<nat>, sizes: seq<nat>, limit: nat, i: nat)
    requires i <= |sizes| && forall k :: k in pending ==> k < |sizes|
    ensures var r := FillFrom(f, pending, sizes, limit, i);
            f.building <= r.building && r.request <= f.request
    decreases |sizes| - i
  {
    if i < |sizes| && i in pending && i !in f.building && f.offset + sizes[i] <= limit {
      var g := Fill(f.request - {i}, f.building + {i}, f.done - {i}, f.offset + sizes[i],
                    f.placed + [Placement(i, f.offset, sizes[i])], f.full);
      FillGrows(g, pending, sizes, limit, i + 1);
    } else if i < |sizes| && (i !in pending || i in f.building) {
      FillGrows(f, pending, sizes, limit, i + 1);
    }
  }

  /** A pass that does not end full leaves every pending packet from bit i
      on building; one that ends full stopped at a pending packet that was
      not building and did not fit. */
  lemma {:induction false} FillComplete(f: Fill, pending: set<nat>, sizes: seq<nat>, limit: nat, i: nat)
    requires i <= |sizes| && forall k :: k in pending ==> k < |sizes|
    requires !f.full
    ensures var r := FillFrom(f, pending, sizes, limit, i);
            !r.full ==> forall j :: i <= j < |sizes| && j in pending ==> j in r.building
    ensures var r := FillFrom(f, pending, sizes, limit, i);
            r.full ==> exists j :: j in pending && j !in r.building && r.offset + sizes[j] > limit
    decreases |sizes| - i
  {
    if i < |sizes| && i in pending && i !in f.building && f.offset + sizes[i] <= limit {
      var g := Fill(f.request - {i}, f.building + {i}, f.done - {i}, f.offset + sizes[i],
                    f.placed + [Placement(i, f.offset, sizes[i])], f.full);
      FillComplete(g, pending, sizes, limit, i + 1);
      FillGrows(g, pending, sizes, limit, i + 1);
    } else if i < |sizes| && (i !in pending || i in f.building) {
      FillComplete(f, pending, sizes, limit, i + 1);
      FillGrows(f, pending, sizes, limit, i + 1);
    }
  }

  /** Placing packet i at the offset keeps the invariant when it fits. */
  lemma PlaceOk(f: Fill, i: nat, sizes: seq<nat>, limit: nat)
    requires FillOk(f, sizes, limit) && i < |sizes| && f.offset + sizes[i] <= limit
    ensures FillOk(Fill(f.request - {i}, f.building + {i}, f.done - {i}, f.offset + sizes[i],
                        f.placed + [Placement(i, f.offset, sizes[i])], f.full), sizes, limit)
  {
    PlaceTiles(f.placed, f.offset, Placement(i, f.offset, sizes[i]));
  }

  /** What the logger's invariant asks of the request pass's state. */
  predicate FillOk(f: Fill, sizes: seq<nat>, limit: nat)
  {
    f.offset <= limit
    && (forall k :: k in f.request ==> k < |sizes|)
    && (forall k :: k in f.building ==> k < |sizes|)
    && (forall k :: k in f.done ==> k < |sizes|)
    && Tiled(f.placed, f.offset)
    && (forall k :: 0 <= k < |f.placed| ==> f.placed[k].packet < |sizes| && f.placed[k].size == sizes[f.placed[k].packet])
  }
}
