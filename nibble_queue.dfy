// The queue of task ids that the scheduler keeps packed in one 64-bit word:
// position k of the queue is the 4-bit field starting at bit 4 * k.
module NibbleQueue {
  import opened Bits
  /** The id stored at queue position k. */
  function Nib(w: bv64, k: bv64): bv64
    requires k < 16
  {
    (w >> (4 * k)) & 0xF
  }

  // ---------------------------------------------------------------- insert

  /** Reference definition: open a hole at position pos, shifting the positions
      at and above it up by one, and put id in the hole. */
  function InsertNib(w: bv64, pos: bv64, id: bv64): bv64
    requires pos < 16 && id < 16
  {
    var mask: bv64 := (1 << (4 * pos)) - 1;
    (w & mask) | ((w & !mask) << 4) | (id << (4 * pos))
  }

  lemma InsertNibAt(w: bv64, pos: bv64, id: bv64, k: bv64)
    requires pos < 16 && id < 16 && k < 16
    ensures Nib(InsertNib(w, pos, id), k) ==
      if k < pos then Nib(w, k) else if k == pos then id else Nib(w, k - 1)
  {
    if pos < 4 { InsertNibAtQ0(w, pos, id, k); }
    else if pos < 8 { InsertNibAtQ1(w, pos, id, k); }
    else if pos < 12 { InsertNibAtQ2(w, pos, id, k); }
    else { InsertNibAtQ3(w, pos, id, k); }
  }

  lemma InsertNibAtQ0(w: bv64, pos: bv64, id: bv64, k: bv64)
    requires 0 <= pos < 4 && id < 16 && k < 16
    ensures Nib(InsertNib(w, pos, id), k) ==
      if k < pos then Nib(w, k) else if k == pos then id else Nib(w, k - 1)
  {
    if pos == 0 {}
    else if pos == 1 {}
    else if pos == 2 {}
    else {}
  }

  lemma InsertNibAtQ1(w: bv64, pos: bv64, id: bv64, k: bv64)
    requires 4 <= pos < 8 && id < 16 && k < 16
    ensures Nib(InsertNib(w, pos, id), k) ==
      if k < pos then Nib(w, k) else if k == pos then id else Nib(w, k - 1)
  {
    if pos == 4 {}
    else if pos == 5 {}
    else if pos == 6 {}
    else {}
  }

  lemma InsertNibAtQ2(w: bv64, pos: bv64, id: bv64, k: bv64)
    requires 8 <= pos < 12 && id < 16 && k < 16
    ensures Nib(InsertNib(w, pos, id), k) ==
      if k < pos then Nib(w, k) else if k == pos then id else Nib(w, k - 1)
  {
    if pos == 8 {}
    else if pos == 9 {}
    else if pos == 10 {}
    else {}
  }

  lemma InsertNibAtQ3(w: bv64, pos: bv64, id: bv64, k: bv64)
    requires 12 <= pos < 16 && id < 16 && k < 16
    ensures Nib(InsertNib(w, pos, id), k) ==
      if k < pos then Nib(w, k) else if k == pos then id else Nib(w, k - 1)
  {
    if pos == 12 {}
    else if pos == 13 {}
    else if pos == 14 {}
    else {}
  }

  /** The insertion as the scheduler computes it: on the two 32-bit halves
      of the word, with the hole opened in the half that holds pos. */
  function SplitInsert(w: bv64, pos: bv64, id: bv64): bv64
    requires pos < 16 && id < 16
  {
    var lo: bv32 := (w & 0xFFFF_FFFF) as bv32;
    var hi: bv32 := (w >> 32) as bv32;
    var shift: bv32 := ((pos & 7) << 2) as bv32;
    var idShifted: bv32 := (id as bv32) << shift;
    var mask: bv32 := (1 << shift) - 1;
    var invMask: bv32 := !mask;
    var loModified: bv32 := ((lo & invMask) << 4) | (lo & mask) | idShifted;
    var hiModified: bv32 := ((hi & invMask) << 4) | (hi & mask) | idShifted;
    var hiSpilled: bv32 := (hi << 4) | (lo >> 28);
    var lo', hi' := if pos >= 8 then lo else loModified, if pos >= 8 then hiModified else hiSpilled;
    ((hi' as bv64) << 32) | (lo' as bv64)
  }

  lemma SplitInsertIsInsertNib(w: bv64, pos: bv64, id: bv64)
    requires pos < 16 && id < 16
    ensures SplitInsert(w, pos, id) == InsertNib(w, pos, id)
  {
    if pos < 2 { SplitInsertPair(w, pos, id, 0); }
    else if pos < 4 { SplitInsertPair(w, pos, id, 2); }
    else if pos < 6 { SplitInsertPair(w, pos, id, 4); }
    else if pos < 8 { SplitInsertPair(w, pos, id, 6); }
    else if pos < 10 { SplitInsertPair(w, pos, id, 8); }
    else if pos < 12 { SplitInsertPair(w, pos, id, 10); }
    else if pos < 14 { SplitInsertPair(w, pos, id, 12); }
    else { SplitInsertPair(w, pos, id, 14); }
  }

  lemma SplitInsertPair(w: bv64, pos: bv64, id: bv64, lo: bv64)
    requires lo < 16 && (pos == lo || pos == lo + 1) && pos < 16 && id < 16
    ensures SplitInsert(w, pos, id) == InsertNib(w, pos, id)
  {
    if pos == lo {} else {}
  }

  // ---------------------------------------------------------------- read

  /** The read of position k as the scheduler computes it: from the 32-bit
      half that holds k, at shift 4 * (k mod 8). */
  function SplitRead(w: bv64, k: bv64): bv64
    requires k < 16
  {
    var half: bv32 := if k > 7 then (w >> 32) as bv32 else (w & 0xFFFF_FFFF) as bv32;
    var shift: bv32 := ((k & 7) << 2) as bv32;
    ((half & (0x0F << shift)) >> shift) as bv64
  }

  lemma SplitReadIsNib(w: bv64, k: bv64)
    requires k < 16
    ensures SplitRead(w, k) == Nib(w, k)
  {
    if k == 0 {}
    else if k == 1 {}
    else if k == 2 {}
    else if k == 3 {}
    else if k == 4 {}
    else if k == 5 {}
    else if k == 6 {}
    else if k == 7 {}
    else if k == 8 {}
    else if k == 9 {}
    else if k == 10 {}
    else if k == 11 {}
    else if k == 12 {}
    else if k == 13 {}
    else if k == 14 {}
    else {}
  }

  // ---------------------------------------------------------------- pop

  lemma PopNibAt(w: bv64, k: bv64)
    requires k < 16
    ensures Nib(w >> 4, k) == if k < 15 then Nib(w, k + 1) else 0
  {
  }

  // ---------------------------------------------------------------- remove

  /** Reference definition: drop position p, shifting the positions above it
      down by one; position 15 becomes 0. */
  function RemoveNib(w: bv64, p: bv64): bv64
    requires p < 16
  {
    var mask: bv64 := (1 << (4 * p)) - 1;
    (w & mask) | ((w >> 4) & !mask)
  }

  lemma RemoveNibAt(w: bv64, p: bv64, k: bv64)
    requires p < 16 && k < 16
    ensures Nib(RemoveNib(w, p), k) ==
      if k < p then Nib(w, k) else if k < 15 then Nib(w, k + 1) else 0
  {
    if p < 4 { RemoveNibAtQ0(w, p, k); }
    else if p < 8 { RemoveNibAtQ1(w, p, k); }
    else if p < 12 { RemoveNibAtQ2(w, p, k); }
    else { RemoveNibAtQ3(w, p, k); }
  }

  lemma RemoveNibAtQ0(w: bv64, p: bv64, k: bv64)
    requires 0 <= p < 4 && k < 16
    ensures Nib(RemoveNib(w, p), k) ==
      if k < p then Nib(w, k) else if k < 15 then Nib(w, k + 1) else 0
  {
    if p == 0 {}
    else if p == 1 {}
    else if p == 2 {}
    else {}
  }

  lemma RemoveNibAtQ1(w: bv64, p: bv64, k: bv64)
    requires 4 <= p < 8 && k < 16
    ensures Nib(RemoveNib(w, p), k) ==
      if k < p then Nib(w, k) else if k < 15 then Nib(w, k + 1) else 0
  {
    if p == 4 {}
    else if p == 5 {}
    else if p == 6 {}
    else {}
  }

  lemma RemoveNibAtQ2(w: bv64, p: bv64, k: bv64)
    requires 8 <= p < 12 && k < 16
    ensures Nib(RemoveNib(w, p), k) ==
      if k < p then Nib(w, k) else if k < 15 then Nib(w, k + 1) else 0
  {
    if p == 8 {}
    else if p == 9 {}
    else if p == 10 {}
    else {}
  }

  lemma RemoveNibAtQ3(w: bv64, p: bv64, k: bv64)
    requires 12 <= p < 16 && k < 16
    ensures Nib(RemoveNib(w, p), k) ==
      if k < p then Nib(w, k) else if k < 15 then Nib(w, k + 1) else 0
  {
    if p == 12 {}
    else if p == 13 {}
    else if p == 14 {}
    else {}
  }

  /** The removal as the scheduler computes it, given the index of the top bit
      of the matching field. */
  function RemoveAtBit(w: bv64, posMsb: bv32): bv64
    requires 3 <= posMsb < 64
  {
    var posLsb: bv32 := posMsb - 3;
    var mask: bv64 := (1 << posLsb) - 1;
    (w & mask) | ((w >> 4) & !mask)
  }

  lemma RemoveAtBitIsRemoveNib(w: bv64, p: bv64)
    requires p < 16
    ensures RemoveAtBit(w, (4 * p + 3) as bv32) == RemoveNib(w, p)
  {
  }

  // ------------------------------------------------- search for an id (SWAR)

  /** id copied into all sixteen positions, built as the scheduler builds it:
      doubling inside 32 bits, then the 32-bit pattern in both halves. */
  function Pattern(id: bv64): bv64
    requires id < 16
  {
    var p0: bv32 := id as bv32;
    var p1: bv32 := p0 + (p0 << 4);
    var p2: bv32 := p1 + (p1 << 8);
    var p3: bv32 := p2 + (p2 << 16);
    ((p3 as bv64) << 32) | (p3 as bv64)
  }

  lemma PatternNib(id: bv64, k: bv64)
    requires id < 16 && k < 16
    ensures Nib(Pattern(id), k) == id
  {
  }

  lemma XorNib(a: bv64, b: bv64, k: bv64)
    requires k < 16
    ensures Nib(a ^ b, k) == Nib(a, k) ^ Nib(b, k)
  {
  }

  const NibbleLsb: bv64 := 0x1111_1111_1111_1111
  const NibbleMsb: bv64 := 0x8888_8888_8888_8888

  /** The zero-field detector: the top bit of each field of the result is set
      where the field of diff is 0, up to and including the lowest such field. */
  function Matches(diff: bv64): bv64
  {
    (diff - NibbleLsb) & (!diff & NibbleMsb)
  }

  /** No zero field below position p. */
  predicate NonZeroBelow(d: bv64, p: int)
  {
    NonZeroBelowLow(d, p) && NonZeroBelowHigh(d, p)
  }

  predicate NonZeroBelowLow(d: bv64, p: int)
  {
    (p > 0 ==> Nib(d, 0) != 0) &&
    (p > 1 ==> Nib(d, 1) != 0) &&
    (p > 2 ==> Nib(d, 2) != 0) &&
    (p > 3 ==> Nib(d, 3) != 0) &&
    (p > 4 ==> Nib(d, 4) != 0) &&
    (p > 5 ==> Nib(d, 5) != 0) &&
    (p > 6 ==> Nib(d, 6) != 0) &&
    (p > 7 ==> Nib(d, 7) != 0)
  }

  predicate NonZeroBelowHigh(d: bv64, p: int)
  {
    (p > 8 ==> Nib(d, 8) != 0) &&
    (p > 9 ==> Nib(d, 9) != 0) &&
    (p > 10 ==> Nib(d, 10) != 0) &&
    (p > 11 ==> Nib(d, 11) != 0) &&
    (p > 12 ==> Nib(d, 12) != 0) &&
    (p > 13 ==> Nib(d, 13) != 0) &&
    (p > 14 ==> Nib(d, 14) != 0) &&
    (p > 15 ==> Nib(d, 15) != 0)
  }

  lemma DiffNib(w: bv64, id: bv64, k: bv64)
    requires id < 16 && k < 16
    ensures Nib(w ^ Pattern(id), k) == Nib(w, k) ^ id
  {
    XorNib(w, Pattern(id), k);
    PatternNib(id, k);
  }

  lemma DiffNonZeroBelow(w: bv64, id: bv64, p: int)
    requires id < 16 && p <= 16
    requires forall i :: 0 <= i < p ==> Nib(w, Pos(i)) != id
    ensures NonZeroBelow(w ^ Pattern(id), p)
  {
    DiffNonZeroBelowLow(w, id, p);
    DiffNonZeroBelowHigh(w, id, p);
  }

  lemma DiffNonZeroBelowLow(w: bv64, id: bv64, p: int)
    requires id < 16 && p <= 16
    requires forall i :: 0 <= i < p ==> Nib(w, Pos(i)) != id
    ensures NonZeroBelowLow(w ^ Pattern(id), p)
  {
    assert Pos(0) == 0 && Pos(1) == 1 && Pos(2) == 2 && Pos(3) == 3;
    assert Pos(4) == 4 && Pos(5) == 5 && Pos(6) == 6 && Pos(7) == 7;
    DiffNib(w, id, 0);
    DiffNib(w, id, 1);
    DiffNib(w, id, 2);
    DiffNib(w, id, 3);
    DiffNib(w, id, 4);
    DiffNib(w, id, 5);
    DiffNib(w, id, 6);
    DiffNib(w, id, 7);
  }

  lemma DiffNonZeroBelowHigh(w: bv64, id: bv64, p: int)
    requires id < 16 && p <= 16
    requires forall i :: 0 <= i < p ==> Nib(w, Pos(i)) != id
    ensures NonZeroBelowHigh(w ^ Pattern(id), p)
  {
    assert Pos(8) == 8 && Pos(9) == 9 && Pos(10) == 10 && Pos(11) == 11;
    assert Pos(12) == 12 && Pos(13) == 13 && Pos(14) == 14 && Pos(15) == 15;
    DiffNib(w, id, 8);
    DiffNib(w, id, 9);
    DiffNib(w, id, 10);
    DiffNib(w, id, 11);
    DiffNib(w, id, 12);
    DiffNib(w, id, 13);
    DiffNib(w, id, 14);
    DiffNib(w, id, 15);
  }

  lemma DiffZeroAt(w: bv64, id: bv64, p: bv64)
    requires id < 16 && p < 16 && Nib(w, p) == id
    ensures Nib(w ^ Pattern(id), p) == 0
  {
    XorNib(w, Pattern(id), p);
    PatternNib(id, p);
  }

  lemma MatchesNone(d: bv64)
    requires NonZeroBelow(d, 16)
    ensures Matches(d) == 0
  {
  }

  lemma MatchesFirst(d: bv64, p: int)
    requires 0 <= p < 16 && NonZeroBelow(d, p) && Nib(d, Pos(p)) == 0
    ensures LowestSetBit64(Matches(d), 4 * Pos(p) + 3)
  {
    MatchesFirstAt(d, Pos(p));
  }

  lemma MatchesFirstAt(d: bv64, k: bv64)
    requires k < 16 && NonZeroBelow(d, k as int) && Nib(d, k) == 0
    ensures LowestSetBit64(Matches(d), 4 * k + 3)
  {
    if k < 4 { MatchesFirstAtQ0(d, k); }
    else if k < 8 { MatchesFirstAtQ1(d, k); }
    else if k < 12 { MatchesFirstAtQ2(d, k); }
    else { MatchesFirstAtQ3(d, k); }
  }

  lemma MatchesFirstAtQ0(d: bv64, k: bv64)
    requires 0 <= k < 4 && NonZeroBelow(d, k as int) && Nib(d, k) == 0
    ensures LowestSetBit64(Matches(d), 4 * k + 3)
  {
    if k == 0 {}
    else if k == 1 {}
    else if k == 2 {}
    else {}
  }

  lemma MatchesFirstAtQ1(d: bv64, k: bv64)
    requires 4 <= k < 8 && NonZeroBelow(d, k as int) && Nib(d, k) == 0
    ensures LowestSetBit64(Matches(d), 4 * k + 3)
  {
    if k == 4 {}
    else if k == 5 {}
    else if k == 6 {}
    else {}
  }

  lemma MatchesFirstAtQ2(d: bv64, k: bv64)
    requires 8 <= k < 12 && NonZeroBelow(d, k as int) && Nib(d, k) == 0
    ensures LowestSetBit64(Matches(d), 4 * k + 3)
  {
    if k == 8 {}
    else if k == 9 {}
    else if k == 10 {}
    else {}
  }

  lemma MatchesFirstAtQ3(d: bv64, k: bv64)
    requires 12 <= k < 16 && NonZeroBelow(d, k as int) && Nib(d, k) == 0
    ensures LowestSetBit64(Matches(d), 4 * k + 3)
  {
    if k == 12 {}
    else if k == 13 {}
    else if k == 14 {}
    else {}
  }

  // ------------------------------------------------ queue positions as numbers

  /** Queue position i as the 64-bit number the bit arithmetic uses. */
  function Pos(i: int): (r: bv64)
    requires 0 <= i <= 16
    ensures r <= 16 && (i < 16 ==> r < 16)
  {
    if i == 0 then 0
    else if i == 1 then 1
    else if i == 2 then 2
    else if i == 3 then 3
    else if i == 4 then 4
    else if i == 5 then 5
    else if i == 6 then 6
    else if i == 7 then 7
    else if i == 8 then 8
    else if i == 9 then 9
    else if i == 10 then 10
    else if i == 11 then 11
    else if i == 12 then 12
    else if i == 13 then 13
    else if i == 14 then 14
    else if i == 15 then 15
    else 16
  }

  lemma PosValue(i: int)
    requires 0 <= i <= 16
    ensures Pos(i) as int == i
  {
  }

  lemma PosLess(i: int, j: int)
    requires 0 <= i <= 16 && 0 <= j <= 16
    ensures (Pos(i) < Pos(j)) == (i < j)
  {
    PosValue(i);
    PosValue(j);
  }

  lemma PosEq(i: int, j: int)
    requires 0 <= i <= 16 && 0 <= j <= 16
    ensures (Pos(i) == Pos(j)) == (i == j)
  {
    PosValue(i);
    PosValue(j);
  }

  lemma PosSucc(i: int)
    requires 0 <= i < 16
    ensures Pos(i) + 1 == Pos(i + 1)
  {
  }

  lemma PosOf(k: bv64)
    requires k <= 16
    ensures Pos(k as int) == k
  {
    if k == 0 {} else if k == 1 {} else if k == 2 {} else if k == 3 {}
    else if k == 4 {} else if k == 5 {} else if k == 6 {} else if k == 7 {}
    else if k == 8 {} else if k == 9 {} else if k == 10 {} else if k == 11 {}
    else if k == 12 {} else if k == 13 {} else if k == 14 {} else if k == 15 {} else {}
  }

  // ------------------------------------------------ the word as a sequence

  /** q followed by zeros, sixteen entries in all. */
  function Padded(q: seq<bv64>): (r: seq<bv64>)
    requires |q| <= 16
    ensures |r| == 16
  {
    q + seq(16 - |q|, _ => 0)
  }

  /** The first n positions of w, front first. */
  function Decode(w: bv64, n: nat): (r: seq<bv64>)
    requires n <= 16
    ensures |r| == n
  {
    if n == 0 then [] else [w & 0xF] + Decode(w >> 4, n - 1)
  }

  /** w holds the queue q: the slot ids of q in its first |q| positions and
      0 in every position above. */
  ghost predicate Holds(w: bv64, q: seq<bv64>)
  {
    |q| <= 16 && Decode(w, 16) == Padded(q)
  }

  /** Holds, position by position. */
  ghost predicate NibsAre(w: bv64, q: seq<bv64>)
  {
    |q| <= 16 && forall i :: 0 <= i < 16 ==> Nib(w, Pos(i)) == Padded(q)[i]
  }

  lemma NibShift(w: bv64, i: int)
    requires 0 < i < 16
    ensures Nib(w >> 4, Pos(i - 1)) == Nib(w, Pos(i))
  {
    if i == 1 {}
    else if i == 2 {}
    else if i == 3 {}
    else if i == 4 {}
    else if i == 5 {}
    else if i == 6 {}
    else if i == 7 {}
    else if i == 8 {}
    else if i == 9 {}
    else if i == 10 {}
    else if i == 11 {}
    else if i == 12 {}
    else if i == 13 {}
    else if i == 14 {}
    else {}
  }

  lemma {:induction false} DecodeAt(w: bv64, n: nat, i: int)
    requires 0 <= i < n <= 16
    ensures Decode(w, n)[i] == Nib(w, Pos(i))
  {
    if i == 0 {
      assert Pos(0) == 0;
    } else {
      assert Decode(w, n)[i] == Decode(w >> 4, n - 1)[i - 1];
      DecodeAt(w >> 4, n - 1, i - 1);
      NibShift(w, i);
    }
  }

  lemma HoldsNibs(w: bv64, q: seq<bv64>)
    requires Holds(w, q)
    ensures NibsAre(w, q)
  {
    forall i | 0 <= i < 16
      ensures Nib(w, Pos(i)) == Padded(q)[i]
    {
      DecodeAt(w, 16, i);
    }
  }

  lemma NibsHolds(w: bv64, q: seq<bv64>)
    requires NibsAre(w, q)
    ensures Holds(w, q)
  {
    forall i | 0 <= i < 16
      ensures Decode(w, 16)[i] == Padded(q)[i]
    {
      DecodeAt(w, 16, i);
    }
  }

  /** Reading position i of a held queue gives q[i]. */
  lemma HoldsAt(w: bv64, q: seq<bv64>, i: int)
    requires Holds(w, q) && 0 <= i < |q|
    ensures Nib(w, Pos(i)) == q[i]
  {
    DecodeAt(w, 16, i);
  }

  // ------------------------------------------------ insert, pop, remove

  lemma InsertNibAtPos(w: bv64, pos: int, id: bv64, i: int)
    requires 0 <= pos < 16 && id < 16 && 0 <= i < 16
    ensures Nib(InsertNib(w, Pos(pos), id), Pos(i)) ==
      if i < pos then Nib(w, Pos(i)) else if i == pos then id else Nib(w, Pos(i - 1))
  {
    PosLess(i, pos);
    if i > pos {
      var k := Pos(i);
      PosSucc(i - 1);
      assert k - 1 == Pos(i - 1);
      InsertNibAt(w, Pos(pos), id, k);
    } else {
      InsertNibAt(w, Pos(pos), id, Pos(i));
    }
  }

  lemma NibsInsertAt(w: bv64, q: seq<bv64>, pos: int, id: bv64, i: int)
    requires 0 <= pos <= |q| < 16 && id < 16 && 0 <= i < 16
    requires i < pos ==> Nib(w, Pos(i)) == Padded(q)[i]
    requires i > pos ==> Nib(w, Pos(i - 1)) == Padded(q)[i - 1]
    ensures Nib(InsertNib(w, Pos(pos), id), Pos(i)) == Padded(q[..pos] + [id] + q[pos..])[i]
  {
    InsertNibAtPos(w, pos, id, i);
  }

  lemma NibsInsert(w: bv64, q: seq<bv64>, pos: int, id: bv64)
    requires NibsAre(w, q) && 0 <= pos <= |q| < 16 && id < 16
    ensures NibsAre(InsertNib(w, Pos(pos), id), q[..pos] + [id] + q[pos..])
  {
    forall i | 0 <= i < 16
      ensures Nib(InsertNib(w, Pos(pos), id), Pos(i)) == Padded(q[..pos] + [id] + q[pos..])[i]
    {
      if i < pos {
        assert Nib(w, Pos(i)) == Padded(q)[i];
      } else if i > pos {
        assert Nib(w, Pos(i - 1)) == Padded(q)[i - 1];
      }
      NibsInsertAt(w, q, pos, id, i);
    }
  }

  /** Opening a hole at pos and putting id there inserts id at index pos. */
  lemma HoldsInsert(w: bv64, q: seq<bv64>, pos: int, id: bv64)
    requires Holds(w, q) && 0 <= pos <= |q| < 16 && id < 16
    ensures Holds(InsertNib(w, Pos(pos), id), q[..pos] + [id] + q[pos..])
  {
    HoldsNibs(w, q);
    NibsInsert(w, q, pos, id);
    NibsHolds(InsertNib(w, Pos(pos), id), q[..pos] + [id] + q[pos..]);
  }

  lemma PopLast(w: bv64)
    ensures Nib(w >> 4, Pos(15)) == 0
  {
    assert Pos(15) == 15;
  }

  lemma NibsPop(w: bv64, q: seq<bv64>)
    requires NibsAre(w, q) && 0 < |q|
    ensures NibsAre(w >> 4, q[1..])
  {
    forall i | 0 <= i < 16
      ensures Nib(w >> 4, Pos(i)) == Padded(q[1..])[i]
    {
      if i < 15 {
        assert Nib(w, Pos(i + 1)) == Padded(q)[i + 1];
        NibShift(w, i + 1);
      } else {
        PopLast(w);
      }
    }
  }

  /** Shifting the word down by one position drops the front of the queue. */
  lemma HoldsPop(w: bv64, q: seq<bv64>)
    requires Holds(w, q) && 0 < |q|
    ensures Holds(w >> 4, q[1..])
  {
    HoldsNibs(w, q);
    NibsPop(w, q);
    NibsHolds(w >> 4, q[1..]);
  }

  lemma RemoveNibAtPos(w: bv64, p: int, i: int)
    requires 0 <= p < 16 && 0 <= i < 16
    ensures Nib(RemoveNib(w, Pos(p)), Pos(i)) ==
      if i < p then Nib(w, Pos(i)) else if i < 15 then Nib(w, Pos(i + 1)) else 0
  {
    RemoveNibAt(w, Pos(p), Pos(i));
    PosLess(i, p);
    PosLess(i, 15);
    assert Pos(15) == 15;
    if i < 15 {
      PosSucc(i);
    }
  }

  /** q without index p, or q itself when p is past its end. */
  function Without(q: seq<bv64>, p: int): seq<bv64>
    requires 0 <= p
  {
    if p < |q| then q[..p] + q[p + 1..] else q
  }

  lemma NibsRemoveAt(w: bv64, q: seq<bv64>, p: int, i: int)
    requires |q| <= 16 && 0 <= p < 16 && 0 <= i < 16
    requires i < p ==> Nib(w, Pos(i)) == Padded(q)[i]
    requires p <= i < 15 ==> Nib(w, Pos(i + 1)) == Padded(q)[i + 1]
    requires p >= |q| ==> forall j :: p <= j < 16 ==> Padded(q)[j] == 0
    ensures Nib(RemoveNib(w, Pos(p)), Pos(i)) == Padded(Without(q, p))[i]
  {
    RemoveNibAtPos(w, p, i);
  }

  lemma NibsRemove(w: bv64, q: seq<bv64>, p: int)
    requires NibsAre(w, q) && 0 <= p < 16
    ensures NibsAre(RemoveNib(w, Pos(p)), Without(q, p))
  {
    forall i | 0 <= i < 16
      ensures Nib(RemoveNib(w, Pos(p)), Pos(i)) == Padded(Without(q, p))[i]
    {
      if i < p {
        assert Nib(w, Pos(i)) == Padded(q)[i];
      } else if i < 15 {
        assert Nib(w, Pos(i + 1)) == Padded(q)[i + 1];
      }
      NibsRemoveAt(w, q, p, i);
    }
  }

  /** Dropping position p removes q[p] and closes the gap; dropping a
      position past the end of the queue changes nothing. */
  lemma HoldsRemove(w: bv64, q: seq<bv64>, p: int)
    requires Holds(w, q) && 0 <= p < 16
    ensures Holds(RemoveNib(w, Pos(p)), Without(q, p))
  {
    HoldsNibs(w, q);
    NibsRemove(w, q, p);
    NibsHolds(RemoveNib(w, Pos(p)), Without(q, p));
  }

  // ------------------------------------------------ the search on a held queue

  /** No position below p holds id, when id is not among the first p entries
      and the zero tail (if p reaches into it) cannot match. */
  lemma NibsAvoids(w: bv64, q: seq<bv64>, id: bv64, p: int)
    requires NibsAre(w, q) && id < 16 && 0 <= p <= 16
    requires forall i :: 0 <= i < p && i < |q| ==> q[i] != id
    requires p > |q| ==> id != 0
    ensures forall i :: 0 <= i < p ==> Nib(w, Pos(i)) != id
  {
    forall i | 0 <= i < p
      ensures Nib(w, Pos(i)) != id
    {
      assert Nib(w, Pos(i)) == Padded(q)[i];
    }
  }

  /** The detector's lowest hit is the first position p that holds id. */
  lemma SearchFinds(w: bv64, q: seq<bv64>, id: bv64, p: int)
    requires Holds(w, q) && id < 16 && 0 <= p < 16
    requires forall i :: 0 <= i < p && i < |q| ==> q[i] != id
    requires p > |q| ==> id != 0
    requires Padded(q)[p] == id
    ensures LowestSetBit64(Matches(w ^ Pattern(id)), 4 * Pos(p) + 3)
  {
    HoldsNibs(w, q);
    NibsAvoids(w, q, id, p);
    DiffNonZeroBelow(w, id, p);
    DiffZeroAt(w, id, Pos(p));
    MatchesFirst(w ^ Pattern(id), p);
  }

  /** No position holds id: the detector reports nothing. */
  lemma SearchMisses(w: bv64, q: seq<bv64>, id: bv64)
    requires Holds(w, q) && id < 16 && id !in q && (|q| < 16 ==> id != 0)
    ensures Matches(w ^ Pattern(id)) == 0
  {
    HoldsNibs(w, q);
    NibsAvoids(w, q, id, 16);
    DiffNonZeroBelow(w, id, 16);
    MatchesNone(w ^ Pattern(id));
  }
}
