// Bit scans that the source takes from compiler builtins (__builtin_ctz,
// __builtin_ctzll, __builtin_ffs).
module Bits {
  /** q is the index of the lowest set bit of x. */
  predicate LowestSetBit32(x: bv32, q: bv32)
  {
    q < 32 && x & ((1 << q) - 1) == 0 && (x >> q) & 1 == 1
  }

  predicate LowestSetBit64(x: bv64, q: bv64)
  {
    q < 64 && x & ((1 << q) - 1) == 0 && (x >> q) & 1 == 1
  }

  lemma LowestSetBit64Unique(x: bv64, q: bv64, r: bv64)
    requires LowestSetBit64(x, q) && LowestSetBit64(x, r)
    ensures q == r
  {
  }

  /** Count of trailing zero bits, by halving the window; 32 for x = 0. */
  method CountTrailingZeros32(x: bv32) returns (r: bv32)
    ensures x == 0 ==> r == 32
    ensures x != 0 ==> LowestSetBit32(x, r)
  {
    if x == 0 { return 32; }
    var n4: bv32 := if x & 0xFFFF == 0 then 16 else 0;
    var x4 := x >> n4;
    var n3: bv32 := if x4 & 0xFF == 0 then 8 else 0;
    var x3 := x4 >> n3;
    var n2: bv32 := if x3 & 0xF == 0 then 4 else 0;
    var x2 := x3 >> n2;
    var n1: bv32 := if x2 & 0x3 == 0 then 2 else 0;
    var x1 := x2 >> n1;
    var n0: bv32 := if x1 & 0x1 == 0 then 1 else 0;
    r := n4 + n3 + n2 + n1 + n0;
  }

  /** 64-bit count of trailing zero bits; 64 for x = 0. */
  method CountTrailingZeros64(x: bv64) returns (r: bv64)
    ensures x == 0 ==> r == 64
    ensures x != 0 ==> LowestSetBit64(x, r)
  {
    if x == 0 { return 64; }
    var n5: bv64 := if x & 0xFFFF_FFFF == 0 then 32 else 0;
    var x5 := x >> n5;
    var n4: bv64 := if x5 & 0xFFFF == 0 then 16 else 0;
    var x4 := x5 >> n4;
    var n3: bv64 := if x4 & 0xFF == 0 then 8 else 0;
    var x3 := x4 >> n3;
    var n2: bv64 := if x3 & 0xF == 0 then 4 else 0;
    var x2 := x3 >> n2;
    var n1: bv64 := if x2 & 0x3 == 0 then 2 else 0;
    var x1 := x2 >> n1;
    var n0: bv64 := if x1 & 0x1 == 0 then 1 else 0;
    r := n5 + n4 + n3 + n2 + n1 + n0;
  }

  /** One plus the index of the lowest set bit; 0 for x = 0. */
  method FindFirstSet32(x: bv32) returns (r: bv32)
    ensures x == 0 ==> r == 0
    ensures x != 0 ==> 1 <= r <= 32 && LowestSetBit32(x, r - 1)
  {
    var t := CountTrailingZeros32(x);
    r := if x == 0 then 0 else t + 1;
  }
}
