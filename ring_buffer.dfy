// RingBuffer<T, N>: N slots in an array.  push writes at `front` and moves it
// forward; pop moves `back` forward, dropping the oldest item; element [0] is
// the newest item and [size - 1] the oldest.
module RingBuffers {
  /** The array index i places behind `front` (i = 0 is the slot just before
      it), with wrap-around at n. */
  function Behind(front: nat, i: nat, n: nat): (r: nat)
    requires front < n && i < n
    ensures r < n
  {
    if i < front then front - 1 - i else front + n - 1 - i
  }

  /** move_forward: origin advanced by amount, modulo n. */
  function MoveForward(origin: nat, amount: nat, n: nat): (r: nat)
    requires n > 0
    ensures r < n
    ensures origin < n && amount == 1 ==> r == if origin + 1 == n then 0 else origin + 1
  {
    (origin + amount) % n
  }

  /** move_backward: origin moved back by amount, modulo n.  A multiple of
      n no smaller than amount is added first, so the unsigned subtraction
      never goes below zero; the result is origin - amount modulo n. */
  function MoveBackward(origin: nat, amount: nat, n: nat): (r: nat)
    requires n > 0
    ensures origin + n * ((amount / n) + 1) - amount > 0
    ensures r == (origin - amount) % n
  {
    MultipleCovers(amount, n);
    ModShift(origin - amount, (amount / n) + 1, n);
    ((origin + (n * ((amount / n) + 1))) - amount) % n
  }

  lemma MultipleCovers(a: nat, n: nat)
    requires n > 0
    ensures n * ((a / n) + 1) > a
  {
    assert a == n * (a / n) + a % n;
  }

  lemma ModShift(x: int, k: nat, n: nat)
    requires n > 0
    ensures (x + n * k) % n == x % n
  {
    var q := x / n;
    assert x == n * q + x % n;
    assert x + n * k == n * (q + k) + x % n;
    ModUnique(x + n * k, q + k, x % n, n);
  }

  /** The remainder is the only r in [0, n) with y = n * q + r. */
  lemma ModUnique(y: int, q: int, r: int, n: nat)
    requires n > 0 && 0 <= r < n && y == n * q + r
    ensures y % n == r
  {
    var q', r' := y / n, y % n;
    assert n * (q - q') == r' - r;
    if q - q' >= 1 {
      MulAtLeast(n, q - q');
    } else if q - q' <= -1 {
      MulAtLeast(n, q' - q);
    }
  }

  lemma MulAtLeast(n: nat, d: int)
    requires d >= 1
    ensures n * d >= n
  {
  }

  /** The slot behind front, as the buffer computes it, for i + 1 <= n. */
  lemma MoveBackwardIsBehind(front: nat, i: nat, n: nat)
    requires front < n && i < n
    ensures MoveBackward(front, i + 1, n) == Behind(front, i, n)
  {
    var x := front - (i + 1);
    if x < 0 {
      ModUnique(x, -1, x + n, n);
    } else {
      ModUnique(x, 0, x, n);
    }
  }

  class RingBuffer<T(0)> {
    /** The capacity N. */
    const capacity: nat
    var buffer: array<T>
    var storedItems: nat
    var front: nat
    var back: nat
    /** The stored items, newest first. */
    ghost var items: seq<T>

    ghost predicate Valid()
      reads this, buffer
    {
      0 < capacity && buffer.Length == capacity &&
      front < capacity && storedItems <= capacity &&
      back == (if storedItems <= front then front - storedItems else front + capacity - storedItems) &&
      |items| == storedItems &&
      forall i :: 0 <= i < storedItems ==> items[i] == buffer[Behind(front, i, capacity)]
    }

    constructor (n: nat)
      requires n > 0
      ensures Valid() && fresh(buffer)
      ensures capacity == n && items == []
    {
      capacity := n;
      buffer := new T[n];
      storedItems, front, back := 0, 0, 0;
      items := [];
    }

    function Size(): (r: nat)
      reads this, buffer
      requires Valid()
      ensures r == |items| && r <= capacity
    {
      storedItems
    }

    predicate IsFull()
      reads this, buffer
      requires Valid()
      ensures IsFull() <==> |items| == capacity
    {
      Size() >= capacity
    }

    predicate IsEmpty()
      reads this, buffer
      requires Valid()
      ensures IsEmpty() <==> items == []
    {
      Size() == 0
    }

    /** push: refused when full; otherwise item becomes element [0]. */
    method Push(item: T) returns (ok: bool)
      requires Valid()
      modifies this, buffer
      ensures Valid() && buffer == old(buffer)
      ensures ok <==> |old(items)| < capacity
      ensures ok ==> items == [item] + old(items)
      ensures !ok ==> items == old(items) && unchanged(this) && unchanged(buffer)
    {
      if IsFull() {
        return false;
      }
      ghost var b := buffer[..];
      buffer[front] := item;
      forall i | 0 <= i < storedItems
        ensures buffer[Behind(front, i, capacity)] == b[Behind(front, i, capacity)]
      {
      }
      front := MoveForward(front, 1, capacity);
      storedItems := storedItems + 1;
      items := [item] + items;
      PushedView(b, buffer[..], old(front), front, storedItems, items);
      return true;
    }

    /** pop: refused when empty; otherwise the oldest item is dropped. */
    method Pop() returns (ok: bool)
      requires Valid()
      modifies this
      ensures Valid() && buffer == old(buffer) && unchanged(buffer)
      ensures ok <==> |old(items)| > 0
      ensures ok ==> items == old(items)[..|old(items)| - 1]
      ensures !ok ==> items == old(items) && unchanged(this)
    {
      if IsEmpty() {
        return false;
      }
      back := MoveForward(back, 1, capacity);
      storedItems := storedItems - 1;
      items := items[..storedItems];
      return true;
    }

    /** push_pop: refused when empty; otherwise item becomes element [0]
        and the oldest item is dropped, so the size is unchanged. */
    method PushPop(item: T) returns (ok: bool)
      requires Valid()
      modifies this, buffer
      ensures Valid() && buffer == old(buffer)
      ensures ok <==> |old(items)| > 0
      ensures ok ==> items == [item] + old(items)[..|old(items)| - 1]
      ensures !ok ==> items == old(items) && unchanged(this) && unchanged(buffer)
    {
      if IsEmpty() {
        return false;
      }
      ghost var b := buffer[..];
      ghost var kept := items[..storedItems - 1];
      buffer[front] := item;
      forall i | 0 <= i < storedItems - 1
        ensures buffer[Behind(front, i, capacity)] == b[Behind(front, i, capacity)]
      {
      }
      front := MoveForward(front, 1, capacity);
      back := MoveForward(back, 1, capacity);
      items := [item] + kept;
      PushedView(b, buffer[..], old(front), front, storedItems, items);
      return true;
    }

    /** operator[]: the slot index + 1 places behind front; for an index
        below the size, the index-th newest item. */
    method Get(index: nat) returns (x: T)
      requires Valid()
      ensures x == buffer[MoveBackward(front, index + 1, capacity)]
      ensures index < |items| ==> x == items[index]
    {
      x := buffer[MoveBackward(front, index + 1, capacity)];
      if index < storedItems {
        MoveBackwardIsBehind(front, index, capacity);
      }
    }

    /** last(): the oldest item. */
    method Last() returns (x: T)
      requires Valid()
      ensures x == buffer[back]
      ensures |items| > 0 ==> x == items[|items| - 1]
    {
      x := buffer[back];
    }

    /** first(): the newest item. */
    method First() returns (x: T)
      requires Valid()
      ensures |items| > 0 ==> x == items[0]
    {
      x := buffer[MoveBackward(front, 1, capacity)];
      MoveBackwardIsBehind(front, 0, capacity);
    }
  }

  /** After writing item at the old front and advancing it, the view over
      the new front is item followed by the previous view. */
  lemma PushedView<T>(b: seq<T>, b': seq<T>, front: nat, front': nat, stored': nat, items: seq<T>)
    requires |b| == |b'| > 0 && front < |b| && 0 < stored' <= |b| && |items| == stored'
    requires front' == if front + 1 == |b| then 0 else front + 1
    requires items[0] == b'[front]
    requires forall i :: 0 <= i < stored' - 1 ==> b'[Behind(front, i, |b|)] == b[Behind(front, i, |b|)]
    requires forall i :: 0 <= i < stored' - 1 ==> items[i + 1] == b[Behind(front, i, |b|)]
    ensures forall i :: 0 <= i < stored' ==> items[i] == b'[Behind(front', i, |b|)]
  {
    forall i | 0 <= i < stored' ensures items[i] == b'[Behind(front', i, |b|)] {
      if i > 0 {
        assert Behind(front', i, |b|) == Behind(front, i - 1, |b|);
      }
    }
  }
}
