// The used-flag arrays that Arena and Pool keep beside their free lists.
module FreeLists {
  /** The number of set flags. */
  function CountTrue(flags: seq<bool>): (r: nat)
    ensures r <= |flags|
  {
    if flags == [] then 0
    else CountTrue(flags[..|flags| - 1]) + (if flags[|flags| - 1] then 1 else 0)
  }

  /** Setting one flag changes the count by at most one, as that flag did. */
  lemma {:induction false} CountTrueUpdate(flags: seq<bool>, i: nat, b: bool)
    requires i < |flags|
    ensures CountTrue(flags[i := b]) ==
      CountTrue(flags) - (if flags[i] then 1 else 0) + (if b then 1 else 0)
  {
    var n := |flags| - 1;
    if i == n {
      assert flags[i := b][..n] == flags[..n];
    } else {
      assert flags[i := b][..n] == flags[..n][i := b];
      CountTrueUpdate(flags[..n], i, b);
    }
  }

  /** No flag set, none counted. */
  lemma {:induction false} CountTrueNone(flags: seq<bool>)
    requires forall i :: 0 <= i < |flags| ==> !flags[i]
    ensures CountTrue(flags) == 0
  {
    if flags != [] {
      CountTrueNone(flags[..|flags| - 1]);
    }
  }

  /** No index occurs twice. */
  predicate Distinct(s: seq<nat>)
  {
    forall j, k :: 0 <= j < k < |s| ==> s[j] != s[k]
  }

  /** The free-list invariant: the free indexes are distinct, in range and
      unused, every unused index is free, and the free and used counts
      together make up the capacity. */
  predicate FreeListOf(free: seq<nat>, used: seq<bool>)
  {
    Distinct(free) && AllUnused(free, used) && CoversUnused(free, used) &&
    |free| + CountTrue(used) == |used|
  }

  /** Every listed index is in range and not in use. */
  predicate AllUnused(free: seq<nat>, used: seq<bool>)
  {
    forall k :: 0 <= k < |free| ==> free[k] < |used| && !used[free[k]]
  }

  /** Every index not in use is listed. */
  predicate CoversUnused(free: seq<nat>, used: seq<bool>)
  {
    forall i :: 0 <= i < |used| && !used[i] ==> i in free
  }

  /** Taking a free index out of the list and marking it used keeps the
      invariant. */
  lemma TakeKeeps(free: seq<nat>, used: seq<bool>, k: nat)
    requires FreeListOf(free, used) && k < |free|
    ensures FreeListOf(free[..k] + free[k + 1..], used[free[k] := true])
  {
    CountTrueUpdate(used, free[k], true);
    TakeDistinct(free, k);
    TakeUnused(free, used, k);
    TakeCovers(free, used, k);
  }

  lemma TakeDistinct(free: seq<nat>, k: nat)
    requires Distinct(free) && k < |free|
    ensures Distinct(free[..k] + free[k + 1..])
  {
    var rest := free[..k] + free[k + 1..];
    forall a, b | 0 <= a < b < |rest| ensures rest[a] != rest[b] {
      var a' := if a < k then a else a + 1;
      var b' := if b < k then b else b + 1;
      assert rest[a] == free[a'] && rest[b] == free[b'];
    }
  }

  lemma TakeUnused(free: seq<nat>, used: seq<bool>, k: nat)
    requires Distinct(free) && k < |free|
    requires AllUnused(free, used)
    ensures AllUnused(free[..k] + free[k + 1..], used[free[k] := true])
  {
    var rest := free[..k] + free[k + 1..];
    forall j | 0 <= j < |rest| ensures rest[j] < |used| && !used[free[k] := true][rest[j]] {
      var j' := if j < k then j else j + 1;
      assert rest[j] == free[j'];
    }
  }

  lemma TakeCovers(free: seq<nat>, used: seq<bool>, k: nat)
    requires k < |free| && free[k] < |used|
    requires CoversUnused(free, used)
    ensures CoversUnused(free[..k] + free[k + 1..], used[free[k] := true])
  {
    var rest := free[..k] + free[k + 1..];
    forall i | 0 <= i < |used| && !used[free[k] := true][i] ensures i in rest {
      var m :| 0 <= m < |free| && free[m] == i;
      if m < k {
        assert rest[m] == i;
      } else {
        assert rest[m - 1] == i;
      }
    }
  }

  /** Returning a used index to the list and clearing its flag keeps the
      invariant. */
  lemma GiveBackKeeps(free: seq<nat>, used: seq<bool>, x: nat)
    requires FreeListOf(free, used) && x < |used| && used[x]
    ensures FreeListOf(free + [x], used[x := false])
  {
    CountTrueUpdate(used, x, false);
    var free' := free + [x];
    forall i | 0 <= i < |used| && !used[x := false][i] ensures i in free' {
      if i != x {
        assert i in free;
      } else {
        assert free'[|free|] == x;
      }
    }
  }

  /** Returning a used index to the front of the list keeps the invariant
      as well. */
  lemma GiveBackFrontKeeps(free: seq<nat>, used: seq<bool>, x: nat)
    requires FreeListOf(free, used) && x < |used| && used[x]
    ensures FreeListOf([x] + free, used[x := false])
  {
    CountTrueUpdate(used, x, false);
    var free' := [x] + free;
    assert x !in free;
    forall a, b | 0 <= a < b < |free'| ensures free'[a] != free'[b] {
      assert free'[b] == free[b - 1];
    }
    forall k | 0 <= k < |free'| ensures free'[k] < |used| && !used[x := false][free'[k]] {
      if k > 0 {
        assert free'[k] == free[k - 1];
      }
    }
    forall i | 0 <= i < |used| && !used[x := false][i] ensures i in free' {
      if i != x {
        assert i in free;
      }
    }
  }

  /** The indexes n - 1 down to 0. */
  function Countdown(n: nat): (s: seq<nat>)
    ensures |s| == n
    ensures forall j :: 0 <= j < n ==> s[j] == n - 1 - j
  {
    seq(n, j => n - 1 - j)
  }

  /** With nothing in use and every index listed once, the invariant
      holds. */
  lemma PowerOnFreeList(n: nat)
    ensures FreeListOf(Countdown(n), seq(n, _ => false))
  {
    var used := seq(n, _ => false);
    CountTrueNone(used);
    forall i | 0 <= i < n ensures i in Countdown(n) {
      assert Countdown(n)[n - 1 - i] == i;
    }
  }

  /** A used index is not free, so the free list is shorter than the
      capacity. */
  lemma UsedMeansRoom(free: seq<nat>, used: seq<bool>, x: nat)
    requires FreeListOf(free, used) && x < |used| && used[x]
    ensures |free| < |used|
  {
    CountTrueUpdate(used, x, false);
  }
}
