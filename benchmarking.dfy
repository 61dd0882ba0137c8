// custom_hash: the 32-bit FNV-1a hash that names a benchmark point.  The
// string is taken as its bytes (each char read as an unsigned char).
module Benchmarking {
  /** The FNV offset basis and prime. */
  const OffsetBasis: bv32 := 2166136261
  const Prime: bv32 := 16777619

  /** One byte into the hash: xor, then multiply modulo 2^32. */
  function Step(hash: bv32, c: bv8): bv32
  {
    (hash ^ (c as bv32)) * Prime
  }

  /** The hash reached from `hash` after the bytes of s, first to last. */
  function HashFrom(hash: bv32, s: seq<bv8>): bv32
    decreases |s|
  {
    if s == [] then hash else HashFrom(Step(hash, s[0]), s[1..])
  }

  /** custom_hash as a value. */
  function CustomHash(s: seq<bv8>): bv32
  {
    HashFrom(OffsetBasis, s)
  }

  /** Hashing a + b is hashing b from where a left off. */
  lemma {:induction false} HashFromAppend(hash: bv32, a: seq<bv8>, b: seq<bv8>)
    ensures HashFrom(hash, a + b) == HashFrom(HashFrom(hash, a), b)
    decreases |a|
  {
    if a != [] {
      assert (a + b)[0] == a[0] && (a + b)[1..] == a[1..] + b;
      HashFromAppend(Step(hash, a[0]), a[1..], b);
    } else {
      assert a + b == b;
    }
  }

  /** One more byte at the end is one more step. */
  lemma HashSnoc(s: seq<bv8>, c: bv8)
    ensures CustomHash(s + [c]) == Step(CustomHash(s), c)
  {
    HashFromAppend(OffsetBasis, s, [c]);
    assert HashFrom(CustomHash(s), [c]) == HashFrom(Step(CustomHash(s), c), []);
  }

  /** The empty string hashes to the offset basis; "a" to the published
      FNV-1a value 0xE40C292C. */
  lemma KnownValues()
    ensures CustomHash([]) == 2166136261
    ensures CustomHash(['a' as bv8]) == 0xE40C292C
  {
    var a: seq<bv8> := ['a' as bv8];
    assert a[1..] == [];
    assert CustomHash(a) == HashFrom(Step(OffsetBasis, 'a' as bv8), []);
    FirstStep();
  }

  lemma FirstStep()
    ensures Step(OffsetBasis, 'a' as bv8) == 0xE40C292C
  {
  }

  /** custom_hash: the loop over the bytes. */
  method ComputeHash(s: seq<bv8>) returns (hash: bv32)
    ensures hash == CustomHash(s)
  {
    hash := OffsetBasis;
    var i := 0;
    while i < |s|
      invariant i <= |s| && hash == CustomHash(s[..i])
    {
      HashSnoc(s[..i], s[i]);
      assert s[..i + 1] == s[..i] + [s[i]];
      hash := Step(hash, s[i]);
      i := i + 1;
    }
    assert s[..i] == s;
  }
}
