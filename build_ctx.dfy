// BuildContext: ST_LIB::BuildCtx, the compile-time registry into which
// every device of a board adds its entry, and Board::owner_index_of, which
// finds a device's index again.  A domain is named by its position in the
// context's domain list; entries of every domain have the one type E, and
// an owner is the device's address, 0 standing for nullptr.  A step that
// makes the constant evaluation ill-formed (a write past an array's end, a
// call of compile_error) is a Failure.
module BuildContext {
  import opened Wrappers

  type Owner = int

  const Null: Owner := 0

  const NotRegistered := "Device not registered in domain"

  /** Writing past the end of a domain's fixed-size arrays. */
  const Overflow := "array index out of range"

  class BuildCtx<E> {
    /** max_instances of each domain. */
    const capacities: seq<nat>
    var storage: seq<seq<E>>
    var owners: seq<seq<Owner>>
    var sizes: seq<nat>

    ghost predicate Valid()
      reads this
    {
      |storage| == |capacities| && |owners| == |capacities| && |sizes| == |capacities|
      && forall d :: 0 <= d < |capacities| ==>
           |storage[d]| == capacities[d] && |owners[d]| == capacities[d] && sizes[d] <= capacities[d]
    }

    /** Value-initialised arrays: every size 0, every owner null. */
    constructor(capacities: seq<nat>, blank: E)
      ensures Valid() && this.capacities == capacities
      ensures forall d :: 0 <= d < |capacities| ==>
                sizes[d] == 0 && storage[d] == seq(capacities[d], _ => blank)
                && owners[d] == seq(capacities[d], _ => Null)
    {
      this.capacities := capacities;
      storage := seq(|capacities|, d requires 0 <= d < |capacities| => seq(capacities[d], _ => blank));
      owners := seq(|capacities|, d requires 0 <= d < |capacities| => seq(capacities[d], _ => Null));
      sizes := seq(|capacities|, _ => 0);
    }

    /** span: exactly the first size entries of domain d. */
    function Span(d: nat): (r: seq<E>)
      reads this
      requires Valid() && d < |capacities|
      ensures |r| == sizes[d] <= capacities[d]
      ensures forall i :: 0 <= i < |r| ==> r[i] == storage[d][i]
    {
      storage[d][..sizes[d]]
    }

    /** owners_span: the owners of those entries. */
    function OwnersSpan(d: nat): (r: seq<Owner>)
      reads this
      requires Valid() && d < |capacities|
      ensures |r| == sizes[d] <= capacities[d]
      ensures forall i :: 0 <= i < |r| ==> r[i] == owners[d][i]
    {
      owners[d][..sizes[d]]
    }

    /** size: the number of entries in span. */
    function Size(d: nat): (r: nat)
      reads this
      requires Valid() && d < |capacities|
      ensures r == |Span(d)| == |OwnersSpan(d)| && r <= capacities[d]
    {
      sizes[d]
    }

    /** add: the entry and its owner go at index size of domain d, which is
        returned, and size goes up by one; no other domain changes.  A full
        domain is a compile-time error. */
    method Add(d: nat, e: E, owner: Owner) returns (r: Result<nat>)
      requires Valid() && d < |capacities|
      modifies this
      ensures Valid()
      ensures old(sizes[d]) < capacities[d] ==>
                r == Success(old(sizes[d]))
                && storage == old(storage)[d := old(storage[d])[old(sizes[d]) := e]]
                && owners == old(owners)[d := old(owners[d])[old(sizes[d]) := owner]]
                && sizes == old(sizes)[d := old(sizes[d]) + 1]
                && Span(d) == old(Span(d)) + [e] && OwnersSpan(d) == old(OwnersSpan(d)) + [owner]
      ensures old(sizes[d]) == capacities[d] ==> r == Failure(Overflow) && unchanged(this)
      ensures forall k :: 0 <= k < |capacities| && k != d ==>
                storage[k] == old(storage[k]) && owners[k] == old(owners[k]) && sizes[k] == old(sizes[k])
    {
      var size := sizes[d];
      if size == capacities[d] {
        return Failure(Overflow);
      }
      storage := storage[d := storage[d][size := e]];
      owners := owners[d := owners[d][size := owner]];
      sizes := sizes[d := size + 1];
      assert storage[d][..sizes[d]] == old(storage[d][..sizes[d]]) + [e];
      assert owners[d][..sizes[d]] == old(owners[d][..sizes[d]]) + [owner];
      r := Success(size);
    }
  }

  /** owner_index_of from index i on: the first index whose owner is the
      target, a compile-time error when there is none. */
  function OwnerIndexOf(owners: seq<Owner>, target: Owner, i: nat): (r: Result<nat>)
    requires i <= |owners|
    ensures r.Success? ==> i <= r.value < |owners| && owners[r.value] == target
                           && forall j :: i <= j < r.value ==> owners[j] != target
    ensures r.Failure? <==> forall j :: i <= j < |owners| ==> owners[j] != target
    ensures r.Failure? ==> r.error == NotRegistered
    decreases |owners| - i
  {
    if i == |owners| then Failure(NotRegistered)
    else if owners[i] == target then Success(i)
    else OwnerIndexOf(owners, target, i + 1)
  }

  /** A device registered for the first time is found at the index add
      returned for it. */
  lemma {:induction false} FindsNewOwner(owners: seq<Owner>, target: Owner, i: nat)
    requires i <= |owners| && forall j :: i <= j < |owners| ==> owners[j] != target
    ensures OwnerIndexOf(owners + [target], target, i) == Success(|owners|)
    decreases |owners| - i
  {
    if i < |owners| {
      assert (owners + [target])[i] == owners[i];
      FindsNewOwner(owners, target, i + 1);
    } else {
      assert (owners + [target])[i] == target;
    }
  }

  /** Later registrations do not move a device already registered. */
  lemma {:induction false} FindsOldOwner(owners: seq<Owner>, more: Owner, target: Owner, i: nat)
    requires i <= |owners| && OwnerIndexOf(owners, target, i).Success?
    ensures OwnerIndexOf(owners + [more], target, i) == OwnerIndexOf(owners, target, i)
    decreases |owners| - i
  {
    assert (owners + [more])[i] == owners[i];
    if owners[i] != target {
      FindsOldOwner(owners, more, target, i + 1);
    }
  }
}
