// StaticVector<T, Capacity>: a std::array of Capacity elements of which the
// first size_ are in use.
module StaticVectors {
  class StaticVector<T(0,==)> {
    /** The capacity. */
    const capacity: nat
    var data: array<T>
    var size: nat

    ghost predicate Valid()
      reads this
    {
      data.Length == capacity && size <= capacity
    }

    /** The elements in use, from begin() to end(). */
    ghost function Items(): seq<T>
      reads this, data
      requires Valid()
    {
      data[..size]
    }

    /** The default constructor: nothing in use. */
    constructor (cap: nat)
      ensures Valid() && fresh(data)
      ensures capacity == cap && Items() == []
    {
      capacity := cap;
      data := new T[cap];
      size := 0;
    }

    /** The constructor from a list of elements; more elements than the
        capacity do not compile. */
    constructor FromElements(cap: nat, elements: seq<T>)
      requires |elements| <= cap
      ensures Valid() && fresh(data)
      ensures capacity == cap && Items() == elements
    {
      capacity := cap;
      data := new T[cap];
      size := |elements|;
      new;
      forall i | 0 <= i < |elements| {
        data[i] := elements[i];
      }
    }

    /** push_back: when full the error handler is called and nothing is
        stored (ok is false); otherwise value is appended. */
    method PushBack(value: T) returns (ok: bool)
      requires Valid()
      modifies this, data
      ensures Valid() && data == old(data)
      ensures ok <==> |old(Items())| < capacity
      ensures ok ==> Items() == old(Items()) + [value]
      ensures !ok ==> unchanged(this) && unchanged(data)
    {
      if size >= capacity {
        return false;
      }
      data[size] := value;
      size := size + 1;
      return true;
    }

    function Size(): (r: nat)
      reads this, data
      requires Valid()
      ensures r == |Items()|
    {
      size
    }

    /** begin() and end(): iteration runs over the slots before end(), which
        are exactly the elements in use. */
    function End(): (r: nat)
      reads this, data
      requires Valid()
      ensures r <= capacity && data[0..r] == Items()
    {
      size
    }

    /** operator[]: any slot of the array, in use or not. */
    function At(i: nat): (x: T)
      reads this, data
      requires Valid() && i < capacity
      ensures i < |Items()| ==> x == Items()[i]
    {
      data[i]
    }

    /** contains: a linear scan of the elements in use. */
    method Contains(value: T) returns (found: bool)
      requires Valid()
      ensures found <==> value in Items()
    {
      var i := 0;
      while i < size
        invariant i <= size
        invariant value !in data[..i]
      {
        if data[i] == value {
          assert Items()[i] == value;
          return true;
        }
        assert data[..i + 1] == data[..i] + [data[i]];
        i := i + 1;
      }
      assert data[..i] == Items();
      return false;
    }

    /** The defaulted operator==: both the whole arrays and the sizes agree,
        so in particular the elements in use agree. */
    predicate Equal(other: StaticVector<T>)
      reads this, data, other, other.data
      requires Valid() && other.Valid()
      ensures Equal(other) ==> Items() == other.Items()
    {
      data[..] == other.data[..] && size == other.size
    }
  }
}
