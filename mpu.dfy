// MPUDomain: the compile-time layout of the MPU buffers. build gives every
// buffer an offset inside the pool of its memory domain and cache type, and
// calculate_total_sizes sizes each pool to hold its buffers.
module MPUDomain {

  datatype MemoryDomain = D1 | D2 | D3

  datatype MemoryType = Cached | NonCached

  /** A buffer request. */
  datatype Entry = Entry(domain: MemoryDomain, memType: MemoryType, alignment: nat, size: nat)

  /** Where build put a buffer: its offset inside its pool. */
  datatype Config = Config(offset: nat, size: nat, domain: MemoryDomain, memType: MemoryType)

  /** alignments: the supported alignments, in the order build lays them
      out. */
  const Alignments: seq<nat> := [32, 16, 8, 4, 2, 1]

  /** The cache-line size the pool totals are rounded to. */
  const CacheLine: nat := 32

  predicate Supported(a: nat)
  {
    a == 32 || a == 16 || a == 8 || a == 4 || a == 2 || a == 1
  }

  /** The place of an alignment in Alignments. */
  function Rank(a: nat): nat
  {
    if a == 32 then 0
    else if a == 16 then 1
    else if a == 8 then 2
    else if a == 4 then 3
    else if a == 2 then 4
    else 5
  }

  lemma RankPlacesAlignment(a: nat)
    requires Supported(a)
    ensures Rank(a) < |Alignments| && Alignments[Rank(a)] == a
    ensures forall k :: 0 <= k < |Alignments| && Alignments[k] == a ==> k == Rank(a)
  {
  }

  /** The pools: offsets_nc holds D1, D2, D3 at 0..2 and offsets_c holds
      them at 3..5. */
  const Pools: nat := 6

  function Pool(d: MemoryDomain, t: MemoryType): nat
  {
    (match d case D1 => 0 case D2 => 1 case D3 => 2) + (if t == Cached then 3 else 0)
  }

  /** Each (domain, type) pair has a pool of its own. */
  lemma PoolDistinct(d: MemoryDomain, t: MemoryType, d': MemoryDomain, t': MemoryType)
    ensures Pool(d, t) < Pools
    ensures Pool(d, t) == Pool(d', t') <==> d == d' && t == t'
  {
  }

  function EntryPool(e: Entry): nat
  {
    Pool(e.domain, e.memType)
  }

  function ConfigPool(c: Config): nat
  {
    Pool(c.domain, c.memType)
  }

  /** align_up: rounds val up to a multiple of align. For the power-of-two
      alignments build uses, masking with ~(align - 1) clears the low bits,
      which is rounding down to a multiple of align. */
  function AlignUp(val: nat, align: nat): nat
    requires align > 0
  {
    (val + align - 1) / align * align
  }

  /** x is a multiple of a. */
  predicate Aligned(x: nat, a: nat)
  {
    a > 0 && x % a == 0
  }

  /** align_up gives the least multiple of align at or above val. */
  lemma AlignUpBounds(val: nat, align: nat)
    requires align > 0
    ensures Aligned(AlignUp(val, align), align)
    ensures val <= AlignUp(val, align) < val + align
    ensures forall m: nat :: Aligned(m, align) && val <= m ==> AlignUp(val, align) <= m
  {
    var q := (val + align - 1) / align;
    assert AlignUp(val, align) == q * align;
    MultipleOf(q, align);
    forall m: nat | Aligned(m, align) && val <= m
      ensures q * align <= m
    {
      var k := m / align;
      if k < q {
        MulMono(k, q - 1, align);
        assert false;
      }
      MulMono(q, k, align);
    }
  }

  /** q * a is a multiple of a. */
  lemma MultipleOf(q: nat, a: nat)
    requires a > 0
    ensures (q * a) % a == 0
  {
    ModUnique(q * a, a, q, 0);
  }

  /** The remainder is determined by any quotient-remainder split. */
  lemma ModUnique(y: nat, a: nat, e: nat, s: nat)
    requires a > 0 && y == e * a + s && s < a
    ensures y % a == s
  {
    var d := y / a;
    assert y == d * a + y % a;
    if d < e {
      MulMono(d + 1, e, a);
      assert false;
    } else if d > e {
      MulMono(e + 1, d, a);
      assert false;
    }
  }

  /** Multiplying by a non-negative factor keeps the order. */
  lemma MulMono(k: int, q: int, a: nat)
    requires k <= q
    ensures k * a <= q * a
  {
  }

  /** Entry i is laid out before entry j: it has a larger alignment, or the
      same one and comes first. */
  predicate Before(entries: seq<Entry>, i: int, j: int)
    requires 0 <= i < |entries| && 0 <= j < |entries|
  {
    Rank(entries[i].alignment) < Rank(entries[j].alignment)
    || (Rank(entries[i].alignment) == Rank(entries[j].alignment) && i < j)
  }

  /** Entry j has been placed once build reaches alignment k and entry i. */
  predicate Placed(entries: seq<Entry>, k: int, i: int, j: int)
    requires 0 <= j < |entries|
  {
    Rank(entries[j].alignment) < k || (Rank(entries[j].alignment) == k && j < i)
  }

  /** build's invariant: every placed entry sits at a multiple of its
      alignment, below its pool's running offset, and after every placed
      entry of its pool laid out before it. */
  ghost predicate LaidOut(entries: seq<Entry>, placedAt: seq<nat>, offsets: seq<nat>, k: int, i: int)
  {
    |placedAt| == |entries| && |offsets| == Pools
    && (forall j :: 0 <= j < |entries| && Placed(entries, k, i, j) ==>
          Aligned(placedAt[j], entries[j].alignment))
    && (forall j :: 0 <= j < |entries| && Placed(entries, k, i, j) ==>
          placedAt[j] + entries[j].size <= offsets[EntryPool(entries[j])])
    && (forall a, b ::
          (0 <= a < |entries| && 0 <= b < |entries| && Placed(entries, k, i, a) && Placed(entries, k, i, b)
           && EntryPool(entries[a]) == EntryPool(entries[b]) && Before(entries, a, b)) ==>
          placedAt[a] + entries[a].size <= placedAt[b])
  }

  /** MPUDomain::build: for each alignment from 32 down to 1, the entries
      with that alignment, in order, each at its pool's running offset
      rounded up to the alignment. */
  method Build(entries: seq<Entry>) returns (cfgs: seq<Config>)
    requires forall i :: 0 <= i < |entries| ==> Supported(entries[i].alignment)
    ensures |cfgs| == |entries|
    ensures forall i :: 0 <= i < |entries| ==>
      cfgs[i].size == entries[i].size && cfgs[i].domain == entries[i].domain && cfgs[i].memType == entries[i].memType
    ensures forall i :: 0 <= i < |entries| ==> Aligned(cfgs[i].offset, entries[i].alignment)
    ensures forall i, j ::
      (0 <= i < |entries| && 0 <= j < |entries| && EntryPool(entries[i]) == EntryPool(entries[j])
       && Before(entries, i, j)) ==> cfgs[i].offset + cfgs[i].size <= cfgs[j].offset
  {
    if |entries| == 0 {
      return [];
    }
    var offsets: seq<nat> := seq(Pools, _ => 0);
    var placedAt: seq<nat> := seq(|entries|, _ => 0);
    for k := 0 to |Alignments|
      invariant LaidOut(entries, placedAt, offsets, k, 0)
    {
      var align := Alignments[k];
      for i := 0 to |entries|
        invariant LaidOut(entries, placedAt, offsets, k, i)
      {
        RankPlacesAlignment(entries[i].alignment);
        if entries[i].alignment == align {
          var p := Pool(entries[i].domain, entries[i].memType);
          var o := AlignUp(offsets[p], align);
          PlaceStep(entries, placedAt, offsets, k, i, o);
          placedAt := placedAt[i := o];
          offsets := offsets[p := o + entries[i].size];
        } else {
          SkipStep(entries, placedAt, offsets, k, i);
        }
      }
      NextAlignment(entries, placedAt, offsets, k);
    }
    cfgs := [];
    for i := 0 to |entries|
      invariant |cfgs| == i
      invariant forall j :: 0 <= j < i ==> cfgs[j] == Config(placedAt[j], entries[j].size, entries[j].domain, entries[j].memType)
    {
      cfgs := cfgs + [Config(placedAt[i], entries[i].size, entries[i].domain, entries[i].memType)];
    }
    AllPlaced(entries, placedAt, offsets);
  }

  /** Placing entry i at its pool's offset rounded up to its alignment keeps
      the layout. */
  lemma PlaceStep(entries: seq<Entry>, placedAt: seq<nat>, offsets: seq<nat>, k: int, i: int, o: nat)
    requires 0 <= k < |Alignments| && 0 <= i < |entries|
    requires LaidOut(entries, placedAt, offsets, k, i)
    requires entries[i].alignment == Alignments[k] && Rank(entries[i].alignment) == k
    requires o == AlignUp(offsets[EntryPool(entries[i])], entries[i].alignment)
    ensures LaidOut(entries, placedAt[i := o],
                    offsets[EntryPool(entries[i]) := o + entries[i].size], k, i + 1)
  {
    var p := EntryPool(entries[i]);
    AlignUpBounds(offsets[p], entries[i].alignment);
    var placedAt' := placedAt[i := o];
    var offsets' := offsets[p := o + entries[i].size];
    forall a, b | 0 <= a < |entries| && 0 <= b < |entries| && Placed(entries, k, i + 1, a) && Placed(entries, k, i + 1, b)
      && EntryPool(entries[a]) == EntryPool(entries[b]) && Before(entries, a, b)
      ensures placedAt'[a] + entries[a].size <= placedAt'[b]
    {
      if b == i && a != i {
        assert Placed(entries, k, i, a);
      }
    }
  }

  /** An entry of another alignment is left for later. */
  lemma SkipStep(entries: seq<Entry>, placedAt: seq<nat>, offsets: seq<nat>, k: int, i: int)
    requires 0 <= k < |Alignments| && 0 <= i < |entries|
    requires LaidOut(entries, placedAt, offsets, k, i)
    requires Rank(entries[i].alignment) != k
    ensures LaidOut(entries, placedAt, offsets, k, i + 1)
  {
    assert forall j :: 0 <= j < |entries| ==> (Placed(entries, k, i + 1, j) <==> Placed(entries, k, i, j));
  }

  /** After the last entry, build moves on to the next alignment. */
  lemma NextAlignment(entries: seq<Entry>, placedAt: seq<nat>, offsets: seq<nat>, k: int)
    requires LaidOut(entries, placedAt, offsets, k, |entries|)
    ensures LaidOut(entries, placedAt, offsets, k + 1, 0)
  {
    assert forall j :: 0 <= j < |entries| ==> (Placed(entries, k + 1, 0, j) <==> Placed(entries, k, |entries|, j));
  }

  /** After alignment 1 every supported entry is placed. */
  lemma AllPlaced(entries: seq<Entry>, placedAt: seq<nat>, offsets: seq<nat>)
    requires forall i :: 0 <= i < |entries| ==> Supported(entries[i].alignment)
    requires LaidOut(entries, placedAt, offsets, |Alignments|, 0)
    ensures forall j :: 0 <= j < |entries| ==> Aligned(placedAt[j], entries[j].alignment)
    ensures forall a, b ::
      (0 <= a < |entries| && 0 <= b < |entries| && EntryPool(entries[a]) == EntryPool(entries[b])
       && Before(entries, a, b)) ==> placedAt[a] + entries[a].size <= placedAt[b]
  {
    assert forall j :: 0 <= j < |entries| ==> Placed(entries, |Alignments|, 0, j);
  }

  /** Two different buffers of one pool do not overlap: one of them ends
      before the other starts. */
  lemma BuildNoOverlap(entries: seq<Entry>, cfgs: seq<Config>, i: int, j: int)
    requires |cfgs| == |entries| && 0 <= i < |entries| && 0 <= j < |entries| && i != j
    requires EntryPool(entries[i]) == EntryPool(entries[j])
    requires forall a, b ::
      (0 <= a < |entries| && 0 <= b < |entries| && EntryPool(entries[a]) == EntryPool(entries[b])
       && Before(entries, a, b)) ==> cfgs[a].offset + cfgs[a].size <= cfgs[b].offset
    ensures cfgs[i].offset + cfgs[i].size <= cfgs[j].offset || cfgs[j].offset + cfgs[j].size <= cfgs[i].offset
  {
    if !Before(entries, i, j) {
      assert Before(entries, j, i);
    }
  }

  // ----- calculate_total_sizes -----

  function Max(a: nat, b: nat): nat
  {
    if a < b then b else a
  }

  /** The end of the furthest buffer of pool p, or 0 when the pool has
      none. */
  function MaxEnd(cfgs: seq<Config>, p: nat): (m: nat)
    ensures forall i :: 0 <= i < |cfgs| && ConfigPool(cfgs[i]) == p ==> cfgs[i].offset + cfgs[i].size <= m
    ensures m == 0 || exists i :: 0 <= i < |cfgs| && ConfigPool(cfgs[i]) == p && m == cfgs[i].offset + cfgs[i].size
  {
    if cfgs == [] then 0
    else
      var init := cfgs[..|cfgs| - 1];
      var last := cfgs[|cfgs| - 1];
      var before := MaxEnd(init, p);
      assert forall i :: 0 <= i < |init| ==> init[i] == cfgs[i];
      if ConfigPool(last) == p then Max(before, last.offset + last.size) else before
  }

  /** calculate_total_sizes: each pool's furthest buffer end, rounded up to
      a cache line; index p is the pool Pool gives. */
  method CalculateTotalSizes(cfgs: seq<Config>) returns (sizes: seq<nat>)
    ensures |sizes| == Pools
    ensures forall p :: 0 <= p < Pools ==> sizes[p] == AlignUp(MaxEnd(cfgs, p), CacheLine)
  {
    var ends: seq<nat> := seq(Pools, _ => 0);
    for i := 0 to |cfgs|
      invariant |ends| == Pools
      invariant forall p :: 0 <= p < Pools ==> ends[p] == MaxEnd(cfgs[..i], p)
    {
      var cfg := cfgs[i];
      var p := Pool(cfg.domain, cfg.memType);
      assert cfgs[..i + 1][..i] == cfgs[..i];
      ends := ends[p := Max(ends[p], cfg.offset + cfg.size)];
    }
    assert cfgs[..|cfgs|] == cfgs;
    sizes := [];
    for p := 0 to Pools
      invariant |sizes| == p
      invariant forall q :: 0 <= q < p ==> sizes[q] == AlignUp(ends[q], CacheLine)
    {
      sizes := sizes + [AlignUp(ends[p], CacheLine)];
    }
  }

  /** A pool's total is a whole number of cache lines, holds every buffer
      of the pool, and is the least such size. */
  lemma PoolTotalFits(cfgs: seq<Config>, p: nat)
    ensures Aligned(AlignUp(MaxEnd(cfgs, p), CacheLine), CacheLine)
    ensures forall i :: 0 <= i < |cfgs| && ConfigPool(cfgs[i]) == p ==>
      cfgs[i].offset + cfgs[i].size <= AlignUp(MaxEnd(cfgs, p), CacheLine)
    ensures forall m: nat ::
      (Aligned(m, CacheLine) && forall i :: 0 <= i < |cfgs| && ConfigPool(cfgs[i]) == p ==> cfgs[i].offset + cfgs[i].size <= m)
      ==> AlignUp(MaxEnd(cfgs, p), CacheLine) <= m
  {
    AlignUpBounds(MaxEnd(cfgs, p), CacheLine);
  }

  /** A pool without buffers takes no room. */
  lemma EmptyPoolIsZero(cfgs: seq<Config>, p: nat)
    requires forall i :: 0 <= i < |cfgs| ==> ConfigPool(cfgs[i]) != p
    ensures AlignUp(MaxEnd(cfgs, p), CacheLine) == 0
  {
  }
}
