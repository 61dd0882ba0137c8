// Stack<S>: a fixed array of S size_t values and a top index; the free list
// of an object pool.
module Stacks {
  class Stack {
    /** The capacity S. */
    const capacity: nat
    var data: array<nat>
    var top: nat

    ghost predicate Valid()
      reads this
    {
      data.Length == capacity && top <= capacity
    }

    /** The stored values, bottom first. */
    ghost function Contents(): seq<nat>
      reads this, data
      requires Valid()
    {
      data[..top]
    }

    constructor (s: nat)
      ensures Valid() && fresh(data)
      ensures capacity == s && Contents() == []
    {
      capacity := s;
      data := new nat[s];
      top := 0;
    }

    /** push: ignored when full; otherwise value goes on top. */
    method Push(value: nat)
      requires Valid()
      modifies this, data
      ensures Valid() && data == old(data)
      ensures |old(Contents())| < capacity ==> Contents() == old(Contents()) + [value]
      ensures |old(Contents())| == capacity ==> Contents() == old(Contents())
    {
      if top < capacity {
        data[top] := value;
        top := top + 1;
      }
    }

    /** pop: the value on top, which is removed.  Popping an empty stack
        reads before the array, so a caller must not. */
    method Pop() returns (value: nat)
      requires Valid() && top > 0
      modifies this
      ensures Valid() && data == old(data) && unchanged(data)
      ensures value == old(Contents())[|old(Contents())| - 1]
      ensures Contents() == old(Contents())[..|old(Contents())| - 1]
    {
      top := top - 1;
      value := data[top];
    }

    function Size(): (r: nat)
      reads this, data
      requires Valid()
      ensures r == |Contents()|
    {
      top
    }

    predicate Empty()
      reads this, data
      requires Valid()
      ensures Empty() <==> Contents() == []
    {
      top == 0
    }
  }
}
