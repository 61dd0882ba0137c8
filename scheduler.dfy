// The microsecond task scheduler: a table of 16 task slots, a free bitmap and
// a ready bitmap, and the due-time ordered queue of slot ids packed into one
// 64-bit word (see NibbleQueue).  One hardware timer is programmed to expire
// when the task at the front of the queue is due.
module TimeScheduler {
  import opened Bits
  import opened NibbleQueue

  const MaxTasks: bv64 := 16
  /** Returned by the registration calls when no task could be registered. */
  const InvalidId: bv64 := 0xFF
  /** The slot ids 0 .. 15. */
  const SlotIds: set<bv64> := {0, 1, 2, 3, 4, 5, 6, 7, 8, 9, 10, 11, 12, 13, 14, 15}
  /** The null callback pointer; any other number names a callback. */
  const NoCallback: nat := 0

  const TwoTo32: int := 0x1_0000_0000
  const TwoTo64: int := 0x1_0000_0000_0000_0000
  /** Values of the source's uint32_t and uint64_t; their arithmetic is
      written out modulo 2^32 and 2^64 where it can wrap. */
  type U32 = x: int | 0 <= x < TwoTo32
  type U64 = x: int | 0 <= x < TwoTo64

  /** uint64_t addition, which wraps modulo 2^64. */
  function AddU64(a: U64, b: U64): U64
  {
    (a + b) % TwoTo64
  }

  /** Longest interval the 32-bit auto-reload register can express: 2^32 µs. */
  const MaxIntervalUs: U64 := TwoTo32

  /** The key of a slot of the task table. */
  datatype Slot = Slot(id: bv64)

  /** One slot of the task table. */
  datatype Task = Task(nextFireUs: U64, callback: nat, periodUs: U32, repeating: bool)

  /** Bit id of a 32-bit bitmap. */
  /** The bitmap word with only slot id's bit set. */
  function Bit(id: bv64): bv32
    requires id < 32
  {
    1 << id
  }

  predicate Has(m: bv32, id: bv64)
    requires id < 32
  {
    (m >> id) & 1 == 1
  }

  /** The interval to program for a task due at nextFireUs when the tick is
      tickUs: the time left, at least 1 µs, at most 2^32 µs. */
  function NextIntervalUs(nextFireUs: U64, tickUs: U64): (r: U64)
    ensures 1 <= r <= MaxIntervalUs
  {
    var delta := if nextFireUs > tickUs then nextFireUs - tickUs else 1;
    if delta > MaxIntervalUs then MaxIntervalUs else delta
  }

  /** The timer never expires after the front task falls due: a task already
      due gets the shortest interval, and one due within 2^32 µs gets exactly
      the time left. */
  lemma NextIntervalUsNotLate(nextFireUs: U64, tickUs: U64)
    ensures var r := NextIntervalUs(nextFireUs, tickUs);
      (nextFireUs <= tickUs ==> r == 1) &&
      (nextFireUs > tickUs ==> tickUs + r <= nextFireUs) &&
      (tickUs < nextFireUs <= tickUs + MaxIntervalUs ==> tickUs + r == nextFireUs)
  {
  }

  /** The reload value for an interval: the counter runs from 0 to interval - 1. */
  function AutoReloadFor(intervalUs: U64): U32
  {
    (intervalUs - 1) % TwoTo32
  }

  /** Bitmap m with slot id's bit set. */
  function SetBit(m: bv32, id: bv64): bv32
    requires id < 32
  {
    m | Bit(id)
  }

  /** Bitmap m with slot id's bit cleared. */
  function ClearBit(m: bv32, id: bv64): bv32
    requires id < 32
  {
    m & !Bit(id)
  }

  /** No slot is free in bitmap free. */
  ghost predicate Full(free: bv32)
  {
    forall i: bv64 :: i < 16 ==> !Has(free, i)
  }

  /** id is the lowest free slot of bitmap free. */
  ghost predicate LowestFree(free: bv32, id: bv64)
  {
    id < 16 && Has(free, id) && forall i: bv64 :: i < id ==> !Has(free, i)
  }

  lemma NoneBelow16(m: bv32)
    requires m & 0xFFFF == 0
    ensures Full(m)
  {
  }

  // ------------------------------------------------------ sequence helpers

  predicate Distinct(s: seq<bv64>)
  {
    forall i, j :: 0 <= i < j < |s| ==> s[i] != s[j]
  }

  /** s without its first occurrence of x (s itself when x does not occur). */
  function RemoveFirst(s: seq<bv64>, x: bv64): (r: seq<bv64>)
    ensures x !in s ==> r == s
    ensures x in s ==> |r| == |s| - 1
    ensures forall y :: y in r ==> y in s
  {
    if s == [] then []
    else if s[0] == x then s[1..]
    else [s[0]] + RemoveFirst(s[1..], x)
  }

  /** The index of the first occurrence of x in s, |s| when x does not occur. */
  function IndexOf(s: seq<bv64>, x: bv64): (p: int)
    ensures 0 <= p <= |s|
    ensures p < |s| <==> x in s
    ensures p < |s| ==> s[p] == x
    ensures forall i :: 0 <= i < p ==> s[i] != x
  {
    if s == [] then 0
    else if s[0] == x then 0
    else 1 + IndexOf(s[1..], x)
  }

  lemma {:induction false} RemoveFirstAt(s: seq<bv64>, x: bv64, p: int)
    requires 0 <= p < |s| && s[p] == x && x !in s[..p]
    ensures RemoveFirst(s, x) == s[..p] + s[p + 1..]
  {
    if p > 0 {
      assert s[1..][p - 1] == x && s[1..][..p - 1] == s[..p][1..];
      RemoveFirstAt(s[1..], x, p - 1);
      assert s[..p] == [s[0]] + s[1..][..p - 1];
    }
  }

  lemma {:induction false} DistinctCard(s: seq<bv64>)
    requires Distinct(s)
    ensures |set x | x in s| == |s|
  {
    if s != [] {
      var t := s[1..];
      assert Distinct(t);
      DistinctCard(t);
      assert (set x | x in s) == {s[0]} + (set x | x in t);
      assert s[0] !in t;
    }
  }

  lemma {:induction false} SubsetCard(a: set<bv64>, b: set<bv64>)
    requires a <= b
    ensures |a| <= |b|
  {
    assert b == a + (b - a);
  }

  /** The slot ids numbered below k. */
  ghost function IdsBelow(k: int): set<bv64>
    requires 0 <= k <= 16
  {
    if k == 0 then {} else IdsBelow(k - 1) + {Pos(k - 1)}
  }

  lemma {:induction false} IdsBelowCard(k: int)
    requires 0 <= k <= 16
    ensures |IdsBelow(k)| == k
    ensures forall i :: k <= i < 16 ==> Pos(i) !in IdsBelow(k)
  {
    if k > 0 {
      IdsBelowCard(k - 1);
      forall i | k <= i < 16 ensures Pos(i) != Pos(k - 1) {
        PosEq(i, k - 1);
      }
    }
  }

  lemma {:induction false} IdsBelowHas(i: int, k: int)
    requires 0 <= i < k <= 16
    ensures Pos(i) in IdsBelow(k)
  {
    if i < k - 1 {
      IdsBelowHas(i, k - 1);
    }
  }

  lemma InAllIds(x: bv64)
    requires x < 16
    ensures x in IdsBelow(16)
  {
    SmallAsInt(x);
    PosOf(x);
    IdsBelowHas(x as int, 16);
  }

  /** Sixteen distinct slot ids cannot leave out a seventeenth: a queue that
      misses a slot id is not full. */
  lemma QueueNotFull(s: seq<bv64>, id: bv64)
    requires Distinct(s) && id < 16 && id !in s
    requires forall i :: 0 <= i < |s| ==> s[i] < 16
    ensures |s| < 16
  {
    var all := IdsBelow(16);
    IdsBelowCard(16);
    var elems := set x | x in s;
    forall x | x in elems ensures x in all - {id} {
      InAllIds(x);
    }
    InAllIds(id);
    SubsetCard(elems, all - {id});
    DistinctCard(s);
  }

  /** Removing an element adds nothing. */
  lemma {:induction false} RemoveFirstSubset(s: seq<bv64>, x: bv64)
    ensures forall y :: y in RemoveFirst(s, x) ==> y in s
  {
    if s != [] && s[0] != x {
      RemoveFirstSubset(s[1..], x);
      assert RemoveFirst(s, x) == [s[0]] + RemoveFirst(s[1..], x);
    }
  }

  /** Removing the first occurrence of x from a sequence without repeats
      leaves no x and no repeats. */
  lemma {:induction false} RemoveFirstDistinct(s: seq<bv64>, x: bv64)
    requires Distinct(s)
    ensures Distinct(RemoveFirst(s, x)) && x !in RemoveFirst(s, x)
  {
    if s != [] && s[0] != x {
      assert Distinct(s[1..]);
      RemoveFirstDistinct(s[1..], x);
      var r := RemoveFirst(s[1..], x);
      assert RemoveFirst(s, x) == [s[0]] + r;
      DistinctTail(s);
      RemoveFirstSubset(s[1..], x);
    } else if s != [] {
      assert RemoveFirst(s, x) == s[1..];
      DistinctTail(s);
    }
  }

  // ------------------------------------------------------ due-time order

  /** When the task in slot id next falls due. */
  ghost function Due(tasks: map<Slot, Task>, id: bv64): int
    requires Slot(id) in tasks
  {
    tasks[Slot(id)].nextFireUs
  }

  /** Task t is stored in slot id of tasks0, and id is inserted into queue0
      at position pos, after every task due no later than t and before every
      task due later. */
  ghost predicate Admitted(tasks0: map<Slot, Task>, queue0: seq<bv64>, id: bv64, t: Task, pos: int,
                           tasks: map<Slot, Task>, queue: seq<bv64>)
  {
    tasks == tasks0[Slot(id) := t] &&
    0 <= pos <= |queue0| && queue == queue0[..pos] + [id] + queue0[pos..] &&
    Between(tasks, queue, pos, t.nextFireUs)
  }

  /** Position pos of the queue sits after every task due no later than due
      and before every task due later. */
  ghost predicate Between(tasks: map<Slot, Task>, queue: seq<bv64>, pos: int, due: int)
  {
    (forall i :: 0 <= i < pos && i < |queue| && Slot(queue[i]) in tasks ==> Due(tasks, queue[i]) <= due) &&
    (forall i :: 0 <= i && pos < i < |queue| && Slot(queue[i]) in tasks ==> due < Due(tasks, queue[i]))
  }

  /** The slots of q name tasks, and they fall due in queue order. */
  ghost predicate OrderedByDue(tasks: map<Slot, Task>, q: seq<bv64>)
  {
    (forall i :: 0 <= i < |q| ==> Slot(q[i]) in tasks) &&
    forall i, j :: 0 <= i < j < |q| ==> Due(tasks, q[i]) <= Due(tasks, q[j])
  }

  /** One probe of the binary search: in a queue ordered by due time, a
      task due no later than due at mid puts everything up to mid no later
      too, and one due after it puts everything from mid on after it. */
  lemma SearchStep(tasks: map<Slot, Task>, q: seq<bv64>, mid: int, due: int)
    requires OrderedByDue(tasks, q) && 0 <= mid < |q|
    ensures Due(tasks, q[mid]) <= due ==> forall i :: 0 <= i <= mid ==> Due(tasks, q[i]) <= due
    ensures due < Due(tasks, q[mid]) ==> forall i :: mid <= i < |q| ==> due < Due(tasks, q[i])
  {
  }

  /** Placing id after the tasks due no later and before the tasks due later
      keeps the queue in order. */
  lemma OrderedInsert(tasks: map<Slot, Task>, q: seq<bv64>, pos: int, id: bv64)
    requires OrderedByDue(tasks, q) && 0 <= pos <= |q| && Slot(id) in tasks
    requires forall i :: 0 <= i < pos ==> Due(tasks, q[i]) <= Due(tasks, id)
    requires forall i :: pos <= i < |q| ==> Due(tasks, id) < Due(tasks, q[i])
    ensures OrderedByDue(tasks, q[..pos] + [id] + q[pos..])
  {
    var q' := q[..pos] + [id] + q[pos..];
    forall i, j | 0 <= i < j < |q'|
      ensures Due(tasks, q'[i]) <= Due(tasks, q'[j])
    {
      if j < pos {} else if j == pos {} else if i < pos {} else if i == pos {} else {}
    }
  }

  lemma OrderedRemove(tasks: map<Slot, Task>, q: seq<bv64>, p: int)
    requires OrderedByDue(tasks, q) && 0 <= p < |q|
    ensures OrderedByDue(tasks, q[..p] + q[p + 1..])
  {
    var q' := q[..p] + q[p + 1..];
    forall i, j | 0 <= i < j < |q'|
      ensures Due(tasks, q'[i]) <= Due(tasks, q'[j])
    {
      if j < p {} else if i < p {} else {}
    }
  }

  /** Retiming a task that is not queued does not disturb the order. */
  lemma OrderedRetime(tasks: map<Slot, Task>, q: seq<bv64>, id: bv64, t: Task)
    requires OrderedByDue(tasks, q) && id !in q
    ensures OrderedByDue(tasks[Slot(id) := t], q)
  {
    var tasks' := tasks[Slot(id) := t];
    forall i | 0 <= i < |q|
      ensures Due(tasks', q[i]) == Due(tasks, q[i])
    {
      assert q[i] != id;
    }
  }

  // ------------------------------------------------------ slot accounting

  /** Every slot id has an entry in the task table. */
  ghost predicate Slots(tasks: map<Slot, Task>)
  {
    forall id: bv64 :: id < 16 ==> Slot(id) in tasks
  }

  /** How the bitmaps, the table and the queue agree: queued and ready slots
      are allocated; a ready one-shot task has left the queue; an allocated
      slot has a callback and is queued or ready, and a repeating one is
      always queued. */
  ghost predicate Accounted(tasks: map<Slot, Task>, q: seq<bv64>, ready: bv32, free: bv32)
    requires Slots(tasks)
  {
    QueuedTaken(q, free) && ReadyTaken(tasks, q, ready, free) && TakenPlaced(tasks, q, ready, free)
  }

  /** Every queued slot is allocated. */
  ghost predicate QueuedTaken(q: seq<bv64>, free: bv32)
  {
    forall i :: 0 <= i < |q| && q[i] < 16 ==> !Has(free, q[i])
  }

  /** A ready slot is allocated, and a ready one-shot task has left the queue. */
  ghost predicate ReadyTaken(tasks: map<Slot, Task>, q: seq<bv64>, ready: bv32, free: bv32)
    requires Slots(tasks)
  {
    forall id: bv64 :: id < 16 && Has(ready, id) ==>
      !Has(free, id) && (!tasks[Slot(id)].repeating ==> id !in q)
  }

  /** An allocated slot has a callback and is queued or ready; a repeating
      one is always queued. */
  ghost predicate TakenPlaced(tasks: map<Slot, Task>, q: seq<bv64>, ready: bv32, free: bv32)
    requires Slots(tasks)
  {
    forall id: bv64 :: id < 16 && !Has(free, id) ==>
      tasks[Slot(id)].callback != NoCallback &&
      (id in q || Has(ready, id)) &&
      (tasks[Slot(id)].repeating ==> id in q)
  }

  lemma HasSet(m: bv32, c: bv64, x: bv64)
    requires c < 16 && x < 16
    ensures Has(SetBit(m, c), x) == (Has(m, x) || x == c)
  {
  }

  lemma HasClear(m: bv32, c: bv64, x: bv64)
    requires c < 16 && x < 16
    ensures Has(ClearBit(m, c), x) == (Has(m, x) && x != c)
  {
  }

  /** Among the slot bits, m' is m with bit c set. */
  ghost predicate AddsBit(m: bv32, m': bv32, c: bv64)
  {
    forall x: bv64 :: x < 16 ==> Has(m', x) == (Has(m, x) || x == c)
  }

  /** Among the slot bits, m' is m with bit c cleared. */
  ghost predicate DropsBit(m: bv32, m': bv32, c: bv64)
  {
    forall x: bv64 :: x < 16 ==> Has(m', x) == (Has(m, x) && x != c)
  }

  lemma SetAdds(m: bv32, c: bv64)
    requires c < 16
    ensures AddsBit(m, SetBit(m, c), c)
  {
    forall x: bv64 | x < 16 ensures Has(SetBit(m, c), x) == (Has(m, x) || x == c) {
      HasSet(m, c, x);
    }
  }

  lemma ClearDrops(m: bv32, c: bv64)
    requires c < 16
    ensures DropsBit(m, ClearBit(m, c), c)
  {
    forall x: bv64 | x < 16 ensures Has(ClearBit(m, c), x) == (Has(m, x) && x != c) {
      HasClear(m, c, x);
    }
  }

  /** The two tables give every slot the same callback and kind. */
  ghost predicate SameKinds(tasks: map<Slot, Task>, tasks': map<Slot, Task>)
    requires Slots(tasks) && Slots(tasks')
  {
    forall id: bv64 :: id < 16 ==>
      tasks'[Slot(id)].callback == tasks[Slot(id)].callback &&
      tasks'[Slot(id)].repeating == tasks[Slot(id)].repeating
  }

  /** The front task fires: it becomes ready, and only a repeating task goes
      back into the queue. */
  lemma FireAccounted(tasks: map<Slot, Task>, q: seq<bv64>, ready: bv32, free: bv32,
                      tasks': map<Slot, Task>, q': seq<bv64>, ready': bv32)
    requires Slots(tasks) && Slots(tasks') && SameKinds(tasks, tasks')
    requires Accounted(tasks, q, ready, free) && |q| > 0 && q[0] < 16 && Distinct(q)
    requires forall x :: x in q' <==> x in q[1..] || (x == q[0] && tasks[Slot(q[0])].repeating)
    requires AddsBit(ready, ready', q[0])
    ensures Accounted(tasks', q', ready', free)
  {
    DistinctTail(q);
    TailMembers(q);
    QueuedShrinks(q, q', free);
    FireReady(tasks, q, ready, free, tasks', q', ready');
    FirePlaced(tasks, q, ready, free, tasks', q', ready');
  }

  lemma FireReady(tasks: map<Slot, Task>, q: seq<bv64>, ready: bv32, free: bv32,
                  tasks': map<Slot, Task>, q': seq<bv64>, ready': bv32)
    requires Slots(tasks) && Slots(tasks') && SameKinds(tasks, tasks')
    requires QueuedTaken(q, free) && ReadyTaken(tasks, q, ready, free) && |q| > 0 && q[0] < 16
    requires q[0] !in q[1..] && forall x :: x in q <==> x == q[0] || x in q[1..]
    requires forall x :: x in q' <==> x in q[1..] || (x == q[0] && tasks[Slot(q[0])].repeating)
    requires AddsBit(ready, ready', q[0])
    ensures ReadyTaken(tasks', q', ready', free)
  {
    FireReadyTaken(tasks, q, ready, free, ready');
    FireReadyLeft(tasks, q, ready, free, tasks', q', ready');
  }

  /** A slot ready after the firing is allocated. */
  lemma FireReadyTaken(tasks: map<Slot, Task>, q: seq<bv64>, ready: bv32, free: bv32, ready': bv32)
    requires Slots(tasks) && QueuedTaken(q, free) && ReadyTaken(tasks, q, ready, free)
    requires |q| > 0 && q[0] < 16 && AddsBit(ready, ready', q[0])
    ensures forall id: bv64 :: id < 16 && Has(ready', id) ==> !Has(free, id)
  {
    assert !Has(free, q[0]);
  }

  /** A one-shot slot ready after the firing is out of the queue. */
  lemma FireReadyLeft(tasks: map<Slot, Task>, q: seq<bv64>, ready: bv32, free: bv32,
                      tasks': map<Slot, Task>, q': seq<bv64>, ready': bv32)
    requires Slots(tasks) && Slots(tasks') && SameKinds(tasks, tasks')
    requires ReadyTaken(tasks, q, ready, free) && |q| > 0 && q[0] < 16
    requires q[0] !in q[1..] && forall x :: x in q[1..] ==> x in q
    requires forall x :: x in q' <==> x in q[1..] || (x == q[0] && tasks[Slot(q[0])].repeating)
    requires AddsBit(ready, ready', q[0])
    ensures forall id: bv64 :: id < 16 && Has(ready', id) && !tasks'[Slot(id)].repeating ==> id !in q'
  {
  }

  lemma FirePlaced(tasks: map<Slot, Task>, q: seq<bv64>, ready: bv32, free: bv32,
                   tasks': map<Slot, Task>, q': seq<bv64>, ready': bv32)
    requires Slots(tasks) && Slots(tasks') && SameKinds(tasks, tasks')
    requires TakenPlaced(tasks, q, ready, free) && |q| > 0 && q[0] < 16
    requires forall x :: x in q <==> x == q[0] || x in q[1..]
    requires forall x :: x in q' <==> x in q[1..] || (x == q[0] && tasks[Slot(q[0])].repeating)
    requires AddsBit(ready, ready', q[0])
    ensures TakenPlaced(tasks', q', ready', free)
  {
  }

  /** Dropping queue entries keeps every queued slot allocated. */
  lemma QueuedShrinks(q: seq<bv64>, q': seq<bv64>, free: bv32)
    requires QueuedTaken(q, free) && forall x :: x in q' ==> x in q
    ensures QueuedTaken(q', free)
  {
    forall i | 0 <= i < |q'| && q'[i] < 16 ensures !Has(free, q'[i]) {
      IndexMember(q', i);
      MemberTaken(q, free, q'[i]);
    }
  }

  /** A free slot is taken for a new task, which is queued. */
  lemma AllocateAccounted(tasks: map<Slot, Task>, q: seq<bv64>, ready: bv32, free: bv32,
                          s: bv64, t: Task, q': seq<bv64>, free': bv32)
    requires Slots(tasks) && Accounted(tasks, q, ready, free)
    requires s < 16 && Has(free, s) && t.callback != NoCallback
    requires forall x :: x in q' <==> x in q || x == s
    requires DropsBit(free, free', s)
    ensures Slots(tasks[Slot(s) := t])
    ensures Accounted(tasks[Slot(s) := t], q', ready, free')
  {
    AllocateQueued(q, free, s, q', free');
    AllocateReady(tasks, q, ready, free, s, t, q', free');
    AllocatePlaced(tasks, q, ready, free, s, t, q', free');
  }

  lemma AllocateQueued(q: seq<bv64>, free: bv32, s: bv64, q': seq<bv64>, free': bv32)
    requires QueuedTaken(q, free) && s < 16
    requires forall x :: x in q' <==> x in q || x == s
    requires DropsBit(free, free', s)
    ensures QueuedTaken(q', free')
  {
    forall i | 0 <= i < |q'| && q'[i] < 16 ensures !Has(free', q'[i]) {
      IndexMember(q', i);
      if q'[i] != s {
        MemberTaken(q, free, q'[i]);
      }
    }
  }

  lemma AllocateReady(tasks: map<Slot, Task>, q: seq<bv64>, ready: bv32, free: bv32,
                      s: bv64, t: Task, q': seq<bv64>, free': bv32)
    requires Slots(tasks) && ReadyTaken(tasks, q, ready, free)
    requires s < 16 && Has(free, s)
    requires forall x :: x in q' <==> x in q || x == s
    requires DropsBit(free, free', s)
    ensures Slots(tasks[Slot(s) := t]) && ReadyTaken(tasks[Slot(s) := t], q', ready, free')
  {
    SlotsKept(tasks, s, t);
    var tasks' := tasks[Slot(s) := t];
    forall id: bv64 | id < 16 && Has(ready, id)
      ensures !Has(free', id) && (!tasks'[Slot(id)].repeating ==> id !in q')
    {
      ReadyStays(tasks, q, ready, free, s, t, q', free', id);
    }
  }

  lemma ReadyStays(tasks: map<Slot, Task>, q: seq<bv64>, ready: bv32, free: bv32,
                   s: bv64, t: Task, q': seq<bv64>, free': bv32, id: bv64)
    requires Slots(tasks) && ReadyTaken(tasks, q, ready, free)
    requires s < 16 && Has(free, s) && id < 16 && Slot(id) in tasks && Has(ready, id)
    requires forall x :: x in q' <==> x in q || x == s
    requires DropsBit(free, free', s)
    ensures id != s && !Has(free', id) && (!tasks[Slot(id)].repeating ==> id !in q')
  {
    assert id != s;
  }

  lemma AllocatePlaced(tasks: map<Slot, Task>, q: seq<bv64>, ready: bv32, free: bv32,
                       s: bv64, t: Task, q': seq<bv64>, free': bv32)
    requires Slots(tasks) && TakenPlaced(tasks, q, ready, free)
    requires s < 16 && t.callback != NoCallback
    requires forall x :: x in q' <==> x in q || x == s
    requires DropsBit(free, free', s)
    ensures Slots(tasks[Slot(s) := t]) && TakenPlaced(tasks[Slot(s) := t], q', ready, free')
  {
    SlotsKept(tasks, s, t);
    var tasks' := tasks[Slot(s) := t];
    forall id: bv64 | id < 16 && !Has(free', id)
      ensures tasks'[Slot(id)].callback != NoCallback && (id in q' || Has(ready, id))
              && (tasks'[Slot(id)].repeating ==> id in q')
    {
      PlacedStays(tasks, q, ready, free, s, t, q', free', id, tasks');
    }
  }

  lemma PlacedStays(tasks: map<Slot, Task>, q: seq<bv64>, ready: bv32, free: bv32,
                    s: bv64, t: Task, q': seq<bv64>, free': bv32, id: bv64, tasks': map<Slot, Task>)
    requires Slots(tasks) && TakenPlaced(tasks, q, ready, free)
    requires s < 16 && t.callback != NoCallback && id < 16 && !Has(free', id)
    requires tasks' == tasks[Slot(s) := t] && Slot(id) in tasks'
    requires forall x :: x in q' <==> x in q || x == s
    requires DropsBit(free, free', s)
    ensures tasks'[Slot(id)].callback != NoCallback && (id in q' || Has(ready, id))
            && (tasks'[Slot(id)].repeating ==> id in q')
  {
    assert tasks'[Slot(id)] == if id == s then t else tasks[Slot(id)];
  }

  /** An allocated slot is given back: it leaves the queue and the ready set. */
  lemma ReleaseAccounted(tasks: map<Slot, Task>, q: seq<bv64>, ready: bv32, free: bv32,
                         s: bv64, q': seq<bv64>, ready': bv32, free': bv32)
    requires Slots(tasks) && Accounted(tasks, q, ready, free)
    requires s < 16 && !Has(free, s)
    requires forall x :: x in q' <==> x in q && x != s
    requires DropsBit(ready, ready', s) && AddsBit(free, free', s)
    ensures Accounted(tasks, q', ready', free')
  {
    forall i | 0 <= i < |q'| && q'[i] < 16 ensures !Has(free', q'[i]) {
      IndexMember(q', i);
      MemberTaken(q, free, q'[i]);
    }
  }

  lemma IndexMember(s: seq<bv64>, i: int)
    requires 0 <= i < |s|
    ensures s[i] in s
  {
  }

  lemma TailMembers(q: seq<bv64>)
    requires |q| > 0
    ensures forall x :: x in q <==> x == q[0] || x in q[1..]
  {
    assert q == [q[0]] + q[1..];
  }

  /** A slot that occurs in a queue whose slots are all taken is taken. */
  lemma MemberTaken(q: seq<bv64>, free: bv32, x: bv64)
    requires forall i :: 0 <= i < |q| && q[i] < 16 ==> !Has(free, q[i])
    requires x in q && x < 16
    ensures !Has(free, x)
  {
    var j :| 0 <= j < |q| && q[j] == x;
  }

  /** update() takes ready slot b: its mark is cleared, and a one-shot task
      gives its slot back. */
  lemma RunAccounted(tasks: map<Slot, Task>, q: seq<bv64>, ready: bv32, free: bv32,
                     b: bv64, ready': bv32, free': bv32)
    requires Slots(tasks) && Accounted(tasks, q, ready, free)
    requires b < 16 && Has(ready, b) && DropsBit(ready, ready', b)
    requires if tasks[Slot(b)].repeating then free' == free else AddsBit(free, free', b)
    ensures Accounted(tasks, q, ready', free')
  {
  }

  // ------------------------------------------------------ the ready slots

  /** Whether slot c's bit is set in m: the test Has makes, kept under its
      own name so that unfolding the ready list does not set off the
      quantified facts stated with Has. */
  predicate Flag(m: bv32, c: bv64)
    requires c < 16
  {
    (m >> c) & 1 == 1
  }

  /** The ids from c up whose bit is set in m, in increasing order. */
  function ReadyFrom(m: bv32, c: bv64): seq<bv64>
    requires c <= 16
    decreases 16 - c
  {
    if c == 16 then []
    else (if Flag(m, c) then [c] else []) + ReadyFrom(m, c + 1)
  }

  /** The slot ids whose bit is set in m, in increasing order: the order in
      which update() runs the ready tasks. */
  function ReadyIds(m: bv32): seq<bv64>
  {
    ReadyFrom(m, 0)
  }

  lemma {:induction false} ReadyFromAgree(m: bv32, m': bv32, c: bv64)
    requires c <= 16
    requires forall j: bv64 :: c <= j < 16 ==> Flag(m, j) == Flag(m', j)
    ensures ReadyFrom(m, c) == ReadyFrom(m', c)
    decreases 16 - c
  {
    if c < 16 {
      ReadyFromAgree(m, m', c + 1);
    }
  }

  lemma {:induction false} ReadyFromDrop(m: bv32, m': bv32, b: bv64, c: bv64)
    requires c <= b < 16 && Flag(m, b)
    requires forall j: bv64 :: j < 16 ==> Flag(m', j) == (Flag(m, j) && j != b)
    requires forall j: bv64 :: c <= j < b ==> !Flag(m, j)
    ensures ReadyFrom(m, c) == [b] + ReadyFrom(m', c)
    decreases 16 - c
  {
    if c == b {
      ReadyFromAgree(m, m', b + 1);
    } else {
      ReadyFromDrop(m, m', b, c + 1);
    }
  }

  /** Clearing the lowest set bit takes the first id off the ready list. */
  lemma ReadyIdsDropLowest(m: bv32, bit: bv32)
    requires LowestSetBit32(m, bit) && m & 0xFFFF_0000 == 0
    ensures bit < 16
    ensures ReadyIds(m) == [bit as bv64] + ReadyIds(ClearBit(m, bit as bv64))
  {
    LowestBelow16(m, bit);
    var c := bit as bv64;
    FlagsDrop(m, c);
    FlagsBelow(m, bit);
    ReadyFromDrop(m, ClearBit(m, c), c, 0);
  }

  lemma LowestBelow16(m: bv32, bit: bv32)
    requires LowestSetBit32(m, bit) && m & 0xFFFF_0000 == 0
    ensures bit < 16
  {
  }

  lemma FlagsDrop(m: bv32, c: bv64)
    requires c < 16
    ensures forall j: bv64 :: j < 16 ==> Flag(ClearBit(m, c), j) == (Flag(m, j) && j != c)
  {
    forall j: bv64 | j < 16 ensures Flag(ClearBit(m, c), j) == (Flag(m, j) && j != c) {
      FlagDropAt(m, c, j);
    }
  }

  lemma FlagDropAt(m: bv32, c: bv64, j: bv64)
    requires c < 16 && j < 16
    ensures Flag(ClearBit(m, c), j) == (Flag(m, j) && j != c)
  {
    HasClear(m, c, j);
  }

  lemma FlagsBelow(m: bv32, bit: bv32)
    requires LowestSetBit32(m, bit) && bit < 16
    ensures Flag(m, bit as bv64)
    ensures forall j: bv64 :: j < bit as bv64 ==> !Flag(m, j)
  {
    forall j: bv64 | j < bit as bv64 ensures !Flag(m, j) {
      BelowLowest(m, bit, j);
    }
    AtLowest(m, bit);
  }

  lemma AtLowest(m: bv32, bit: bv32)
    requires LowestSetBit32(m, bit)
    ensures Has(m, bit as bv64)
  {
  }

  lemma BelowLowest(m: bv32, bit: bv32, k: bv64)
    requires LowestSetBit32(m, bit) && k < bit as bv64
    ensures !Has(m, k)
  {
  }

  /** The ids on ReadyFrom(m, c) are the set bits of m from slot c up. */
  lemma {:induction false} ReadyFromHas(m: bv32, c: bv64)
    requires c <= 16
    ensures forall x: bv64 :: x in ReadyFrom(m, c) <==> c <= x < 16 && Has(m, x)
    decreases 16 - c
  {
    if c < 16 {
      ReadyFromHas(m, c + 1);
      var head: seq<bv64> := if Flag(m, c) then [c] else [];
      var rest := ReadyFrom(m, c + 1);
      assert ReadyFrom(m, c) == head + rest;
      forall x: bv64 ensures x in head + rest <==> c <= x < 16 && Has(m, x) {
        assert x in head + rest <==> x in head || x in rest;
      }
    }
  }

  /** s is strictly increasing (as numbers). */
  ghost predicate Increasing(s: seq<bv64>)
  {
    forall a, b :: 0 <= a < b < |s| ==> s[a] as int < s[b] as int
  }

  /** ReadyFrom(m, c) is strictly increasing. */
  lemma {:induction false} ReadyFromSorted(m: bv32, c: bv64)
    requires c <= 16
    ensures Increasing(ReadyFrom(m, c))
    decreases 16 - c
  {
    if c < 16 {
      ReadyFromSorted(m, c + 1);
      ReadyFromHas(m, c + 1);
      var rest := ReadyFrom(m, c + 1);
      forall x | x in rest ensures c as int < x as int {
        BelowAsInt(c, x);
      }
      IncreasingJoin(if Flag(m, c) then [c] else [], rest, c);
    }
  }

  lemma BelowAsInt(c: bv64, x: bv64)
    requires c < x < 16
    ensures c as int < x as int
  {
    SmallAsInt(c);
    SmallAsInt(x);
    PosOf(c);
    PosOf(x);
    PosLess(c as int, x as int);
  }

  lemma SmallAsInt(k: bv64)
    requires k < 16
    ensures k as int < 16
  {
    if k == 0 {} else if k == 1 {} else if k == 2 {} else if k == 3 {}
    else if k == 4 {} else if k == 5 {} else if k == 6 {} else if k == 7 {}
    else if k == 8 {} else if k == 9 {} else if k == 10 {} else if k == 11 {}
    else if k == 12 {} else if k == 13 {} else if k == 14 {} else {}
  }

  lemma IncreasingJoin(head: seq<bv64>, rest: seq<bv64>, c: bv64)
    requires head == [] || head == [c]
    requires Increasing(rest) && forall x :: x in rest ==> c as int < x as int
    ensures Increasing(head + rest)
  {
    if head == [] {
      assert head + rest == rest;
    } else {
      var r := [c] + rest;
      forall a, b | 0 <= a < b < |r| ensures r[a] as int < r[b] as int {
        var y := rest[b - 1];
        assert r[b] == y && y in rest;
        if a == 0 {
          assert r[a] == c;
        } else {
          assert r[a] == rest[a - 1];
        }
      }
    }
  }

  /** The ready list holds exactly the set slot bits, in increasing order. */
  lemma ReadyIdsMembers(m: bv32)
    ensures forall x: bv64 :: x in ReadyIds(m) <==> x < 16 && Has(m, x)
    ensures Increasing(ReadyIds(m))
  {
    ReadyFromHas(m, 0);
    ReadyFromSorted(m, 0);
  }

  /** The free bitmap after the tasks in slots ids have run, starting from
      free: the slot of each one-shot task is released. */
  function FreedAfter(tasks: map<Slot, Task>, free: bv32, ids: seq<bv64>): bv32
    requires Slots(tasks) && forall i :: 0 <= i < |ids| ==> ids[i] < 16
  {
    if ids == [] then free
    else
      var last := ids[|ids| - 1];
      var before := FreedAfter(tasks, free, ids[..|ids| - 1]);
      if tasks[Slot(last)].repeating then before else SetBit(before, last)
  }

  /** After the tasks in ids have run, a slot is free exactly when it was
      free before or it is among ids and holds a one-shot task. */
  lemma {:induction false} FreedAfterHas(tasks: map<Slot, Task>, free: bv32, ids: seq<bv64>, x: bv64)
    requires Slots(tasks) && (forall i :: 0 <= i < |ids| ==> ids[i] < 16) && x < 16
    ensures Has(FreedAfter(tasks, free, ids), x) <==>
      Has(free, x) || (x in ids && !tasks[Slot(x)].repeating)
  {
    if ids != [] {
      var init, last := ids[..|ids| - 1], ids[|ids| - 1];
      FreedAfterHas(tasks, free, init, x);
      InitLast(ids, x);
      var before := FreedAfter(tasks, free, init);
      if !tasks[Slot(last)].repeating {
        HasSet(before, last, x);
      }
    }
  }

  lemma InitLast(ids: seq<bv64>, x: bv64)
    requires ids != []
    ensures x in ids <==> x in ids[..|ids| - 1] || x == ids[|ids| - 1]
  {
    assert ids == ids[..|ids| - 1] + [ids[|ids| - 1]];
  }

  /** A repeating task after it fires at tick: due again one period later,
      with the 64-bit wrap-around of the source's tick arithmetic. */
  function Retimed(t: Task, tick: U64): (r: Task)
    ensures r.callback == t.callback && r.periodUs == t.periodUs && r.repeating == t.repeating
    ensures r.nextFireUs == AddU64(tick, t.periodUs)
  {
    t.(nextFireUs := AddU64(tick, t.periodUs))
  }

  // ---------------------------------------------------------------- the scheduler

  class Scheduler {
    /** The task table, indexed by slot id 0 .. 15. */
    var tasks: map<Slot, Task>
    var sortedTaskIds: bv64
    var activeTaskCount: int
    var readyBitmap: bv32
    var freeBitmap: bv32
    var globalTickUs: U64
    var currentIntervalUs: U64
    /** The hardware timer: counter enable bit and auto-reload register. */
    var timerEnabled: bool
    var autoReload: U32
    var timerCounter: U32
    /** The queue that sortedTaskIds encodes, front first. */
    ghost var queue: seq<bv64>

    ghost predicate SlotTable()
      reads this`tasks
    {
      Slots(tasks)
    }

    /** sortedTaskIds holds the queue and activeTaskCount is its length. */
    ghost predicate Linked()
      reads this`sortedTaskIds, this`activeTaskCount, this`queue
    {
      Holds(sortedTaskIds, queue) && activeTaskCount == |queue|
    }

    /** The queue holds distinct slot ids ordered by due time. */
    ghost predicate QueueShape()
      reads this`tasks, this`queue
    {
      (forall i :: 0 <= i < |queue| ==> queue[i] < 16) && Distinct(queue) &&
      OrderedByDue(tasks, queue)
    }

    ghost predicate Shape()
      reads this`tasks, this`sortedTaskIds, this`activeTaskCount, this`queue
    {
      SlotTable() && Linked() && QueueShape()
    }

    /** Only the 16 slot bits of the ready bitmap are ever set. */
    ghost predicate ReadyInRange()
      reads this`readyBitmap
    {
      readyBitmap & 0xFFFF_0000 == 0
    }

    ghost predicate Allocated(id: bv64)
      reads this`freeBitmap
      requires id < 16
    {
      !Has(freeBitmap, id)
    }

    /** The timer runs exactly when a task is queued, and is then set to
        expire when the front task is due. */
    ghost predicate TimerProgrammed()
      reads this`tasks, this`sortedTaskIds, this`activeTaskCount, this`queue,
        this`timerEnabled, this`currentIntervalUs, this`globalTickUs, this`autoReload
      requires Shape()
    {
      timerEnabled == (|queue| > 0) &&
      (|queue| == 0 ==> currentIntervalUs == 0) &&
      (|queue| > 0 ==>
        currentIntervalUs == NextIntervalUs(tasks[Slot(queue[0])].nextFireUs, globalTickUs) &&
        autoReload == currentIntervalUs - 1)
    }

    /** The invariant without the timer: what holds between updating the
        queue and reprogramming the timer. */
    ghost predicate Queued()
      reads this`tasks, this`sortedTaskIds, this`activeTaskCount, this`queue, this`readyBitmap, this`freeBitmap
    {
      Shape() && ReadyInRange() && Accounted(tasks, queue, readyBitmap, freeBitmap)
    }

    /** The whole invariant: the queue and its word agree, the slots are
        accounted for, and the timer is set for the front task. */
    ghost predicate Valid()
      reads this
    {
      Shape() && ReadyInRange() && Accounted(tasks, queue, readyBitmap, freeBitmap) && TimerProgrammed()
    }

    /** The power-on state: every slot free, nothing queued, timer off. */
    constructor ()
      ensures Valid()
      ensures queue == [] && readyBitmap == 0 && freeBitmap == 0xFFFF_FFFF && globalTickUs == 0
    {
      tasks := PowerOnTasks();
      sortedTaskIds := 0;
      activeTaskCount := 0;
      readyBitmap := 0;
      freeBitmap := 0xFFFF_FFFF;
      globalTickUs := 0;
      currentIntervalUs := 0;
      timerEnabled := false;
      autoReload := 0;
      timerCounter := 0;
      queue := [];
      HoldsEmpty();
      PowerOnAccounted();
    }

    /** Takes the lowest free slot, or answers InvalidId when all 16 are taken. */
    method AllocateSlot() returns (id: bv64)
      modifies this`freeBitmap
      ensures id == InvalidId <==> Full(old(freeBitmap))
      ensures id == InvalidId ==> freeBitmap == old(freeBitmap)
      ensures id != InvalidId ==>
        LowestFree(old(freeBitmap), id) && freeBitmap == ClearBit(old(freeBitmap), id)
    {
      var first := FindFirstSet32(freeBitmap);
      var idx: bv32 := first - 1;
      if idx >= 16 {
        assert freeBitmap & 0xFFFF == 0;
        NoneBelow16(freeBitmap);
        return InvalidId;
      }
      id := idx as bv64;
      assert Has(freeBitmap, id);
      freeBitmap := freeBitmap & !(1 << idx);
    }

    /** Frees slot id and drops its ready mark; ids from 16 up are ignored. */
    method ReleaseSlot(id: bv64)
      modifies this`readyBitmap, this`freeBitmap
      ensures id >= 16 ==> readyBitmap == old(readyBitmap) && freeBitmap == old(freeBitmap)
      ensures id < 16 ==>
        readyBitmap == ClearBit(old(readyBitmap), id) && freeBitmap == SetBit(old(freeBitmap), id)
    {
      if id >= MaxTasks {
        return;
      }
      readyBitmap := ClearBit(readyBitmap, id);
      freeBitmap := SetBit(freeBitmap, id);
    }

    /** The slot id at the front of the queue. */
    method FrontId() returns (id: bv64)
      requires Linked() && |queue| > 0
      ensures id == queue[0]
    {
      id := ReadWord(sortedTaskIds, queue, 0);
    }

    /** The slot id at queue position idx. */
    method GetAt(idx: int) returns (id: bv64)
      requires Linked() && 0 <= idx < |queue|
      ensures id == queue[idx]
    {
      id := ReadWord(sortedTaskIds, queue, idx);
    }

    /** The binary search of the insertion: the first queue position whose
        task falls due strictly after due. */
    method FindInsertPosition(due: U64) returns (pos: int)
      requires Linked() && OrderedByDue(tasks, queue)
      ensures 0 <= pos <= |queue|
      ensures forall i :: 0 <= i < pos ==> Due(tasks, queue[i]) <= due
      ensures forall i :: pos <= i < |queue| ==> due < Due(tasks, queue[i])
    {
      var left := 0;
      var right := activeTaskCount;
      while left < right
        invariant 0 <= left <= right <= |queue|
        invariant forall i :: 0 <= i < left ==> Due(tasks, queue[i]) <= due
        invariant forall i :: right <= i < |queue| ==> due < Due(tasks, queue[i])
      {
        var mid := left + (right - left) / 2;
        var midId := GetAt(mid);
        SearchStep(tasks, queue, mid, due);
        if tasks[Slot(midId)].nextFireUs <= due {
          left := mid + 1;
        } else {
          right := mid;
        }
      }
      pos := left;
    }

    /** Inserts slot id into the queue after every task due no later than it
        and before every task due later. */
    method InsertSorted(id: bv64) returns (ghost pos: int)
      requires Shape() && id < 16 && id !in queue && |queue| < 16
      modifies this`sortedTaskIds, this`activeTaskCount, this`queue
      ensures Shape()
      ensures 0 <= pos <= |old(queue)| && queue == old(queue)[..pos] + [id] + old(queue)[pos..]
      ensures forall i :: 0 <= i < pos ==> Due(tasks, queue[i]) <= Due(tasks, id)
      ensures forall i :: pos < i < |queue| ==> Due(tasks, id) < Due(tasks, queue[i])
    {
      var left := FindInsertPosition(tasks[Slot(id)].nextFireUs);
      ghost var q := queue;
      sortedTaskIds := InsertWord(sortedTaskIds, q, left, id);
      activeTaskCount := activeTaskCount + 1;
      pos := left;
      queue := q[..pos] + [id] + q[pos..];
      InsertKeepsShape(tasks, q, pos, id);
    }

    /** Drops the front of the queue. */
    method PopFront()
      requires Shape() && |queue| > 0
      modifies this`sortedTaskIds, this`activeTaskCount, this`queue
      ensures Shape()
      ensures queue == old(queue)[1..]
    {
      ghost var q := queue;
      activeTaskCount := activeTaskCount - 1;
      sortedTaskIds := PopWord(sortedTaskIds, q);
      queue := q[1..];
      PopKeepsShape(tasks, q);
    }

    /** Takes slot id out of the queue, wherever it is; a slot that is not
        queued leaves the queue as it was. */
    method RemoveSorted(id: bv64)
      requires Shape() && id < 16
      modifies this`sortedTaskIds, this`activeTaskCount, this`queue
      ensures Shape()
      ensures queue == RemoveFirst(old(queue), id)
      ensures id !in queue
    {
      ghost var q := queue;
      var word, removed := RemoveWord(sortedTaskIds, q, id, activeTaskCount);
      RemoveKeepsShape(tasks, q, id);
      ghost var q' := RemoveFirst(q, id);
      var count := if removed then activeTaskCount - 1 else activeTaskCount;
      assert count == |q'|;
      sortedTaskIds, activeTaskCount, queue := word, count, q';
    }

    /** Programs the timer for the task at the front of the queue, or stops
        it when the queue is empty. */
    method ScheduleNextInterval()
      requires Queued()
      modifies this`timerEnabled, this`currentIntervalUs, this`autoReload, this`timerCounter
      ensures Valid()
      ensures |queue| == 0 ==> autoReload == old(autoReload) && timerCounter == old(timerCounter)
      ensures |queue| > 0 ==> timerCounter == 0
      ensures tasks == old(tasks) && globalTickUs == old(globalTickUs) && queue == old(queue)
      ensures readyBitmap == old(readyBitmap) && freeBitmap == old(freeBitmap)
    {
      if activeTaskCount == 0 {
        timerEnabled := false;
        currentIntervalUs := 0;
        return;
      }
      timerEnabled := true;
      var nextId := FrontId();
      currentIntervalUs := NextIntervalUs(tasks[Slot(nextId)].nextFireUs, globalTickUs);
      ConfigureTimerForInterval(currentIntervalUs);
    }

    /** Loads the auto-reload register for an interval and restarts the count. */
    method ConfigureTimerForInterval(microseconds: U64)
      requires 0 < microseconds <= MaxIntervalUs
      modifies this`autoReload, this`timerCounter, this`timerEnabled
      ensures autoReload == microseconds - 1 && timerCounter == 0 && timerEnabled
    {
      autoReload := (microseconds - 1) % TwoTo32;
      timerCounter := 0;
      timerEnabled := true;
    }

    /** Stores task t in slot id and queues the slot by its due time: the
        step register_task and the timer interrupt share. */
    method Enqueue(id: bv64, t: Task) returns (ghost pos: int)
      requires Shape() && id < 16 && id !in queue && |queue| < 16
      modifies this`tasks, this`sortedTaskIds, this`activeTaskCount, this`queue
      ensures Shape()
      ensures tasks == old(tasks)[Slot(id) := t]
      ensures 0 <= pos <= |old(queue)| && queue == old(queue)[..pos] + [id] + old(queue)[pos..]
      ensures Between(tasks, queue, pos, t.nextFireUs)
      ensures forall x :: x in queue <==> x in old(queue) || x == id
    {
      OrderedRetime(tasks, queue, id, t);
      SlotsKept(tasks, id, t);
      tasks := tasks[Slot(id) := t];
      ghost var q := queue;
      pos := InsertSorted(id);
      InsertMembers(q, pos, id);
    }

    /** Advances the global tick by the interval that just elapsed. */
    method AdvanceTick()
      modifies this`globalTickUs
      ensures globalTickUs == AddU64(old(globalTickUs), currentIntervalUs)
    {
      globalTickUs := AddU64(globalTickUs, currentIntervalUs);
    }

    /** The first half of the timer interrupt: the clock advances by the
        programmed interval, the front task leaves the queue and is marked
        ready, and a repeating task is queued again one period later. */
    method FireFront(tick: U64) returns (ghost pos: int)
      requires Shape() && ReadyInRange() && Accounted(tasks, queue, readyBitmap, freeBitmap) && |queue| > 0
      modifies this`tasks, this`sortedTaskIds, this`activeTaskCount, this`queue, this`readyBitmap
      ensures Shape() && ReadyInRange() && Accounted(tasks, queue, readyBitmap, freeBitmap)
      ensures Fired(old(tasks), old(queue), old(readyBitmap), tick, tasks, queue, readyBitmap, pos)
    {
      ghost var q0, tasks0, ready0 := queue, tasks, readyBitmap;
      assert Firable(tasks0, q0, ready0, freeBitmap);
      var candidateId := TakeFront();
      var task := tasks[Slot(candidateId)];
      if task.repeating {
        pos := Requeue(candidateId, Retimed(task, tick), q0);
      } else {
        pos := 0;
      }
      FiredStep(tasks0, q0, ready0, freeBitmap, tick, pos, tasks, queue, readyBitmap);
    }

    /** The front task leaves the queue and is marked ready. */
    method TakeFront() returns (id: bv64)
      requires Shape() && |queue| > 0
      modifies this`sortedTaskIds, this`activeTaskCount, this`queue, this`readyBitmap
      ensures Shape() && id == old(queue)[0] && queue == old(queue)[1..]
      ensures readyBitmap == SetBit(old(readyBitmap), id)
    {
      id := FrontId();
      PopFront();
      readyBitmap := SetBit(readyBitmap, id);
    }

    /** A repeating task that has just left the front of queue q0 goes back
        in at its new due time. */
    method Requeue(id: bv64, t: Task, ghost q0: seq<bv64>) returns (ghost pos: int)
      requires Shape() && |q0| > 0 && id == q0[0] && queue == q0[1..] && Distinct(q0) && id < 16
      modifies this`tasks, this`sortedTaskIds, this`activeTaskCount, this`queue
      ensures Shape() && tasks == old(tasks)[Slot(id) := t]
      ensures 0 <= pos < |q0| && queue == q0[1..][..pos] + [id] + q0[1..][pos..]
    {
      DistinctTail(q0);
      QueueNotFull(queue, id);
      pos := Enqueue(id, t);
    }

    /** The timer interrupt: the clock advances by the programmed interval,
        the front task is marked ready, a repeating task is queued again one
        period later, and the timer is set for the new front task. */
    method OnTimerUpdate() returns (ghost pos: int)
      requires Valid() && timerEnabled
      modifies this`globalTickUs, this`tasks, this`sortedTaskIds, this`activeTaskCount, this`queue, this`readyBitmap,
        this`timerEnabled, this`currentIntervalUs, this`autoReload, this`timerCounter
      ensures Valid()
      ensures globalTickUs == AddU64(old(globalTickUs), old(currentIntervalUs))
      ensures freeBitmap == old(freeBitmap)
      ensures Fired(old(tasks), old(queue), old(readyBitmap), globalTickUs, tasks, queue, readyBitmap, pos)
    {
      pos := Expire();
      ScheduleNextInterval();
    }

    /** The interrupt up to the reprogramming of the timer. */
    method Expire() returns (ghost pos: int)
      requires Valid() && timerEnabled
      modifies this`globalTickUs, this`tasks, this`sortedTaskIds, this`activeTaskCount, this`queue, this`readyBitmap
      ensures Queued()
      ensures globalTickUs == AddU64(old(globalTickUs), currentIntervalUs)
      ensures Fired(old(tasks), old(queue), old(readyBitmap), globalTickUs, tasks, queue, readyBitmap, pos)
    {
      AdvanceTick();
      pos := FireFront(globalTickUs);
    }

    /** Registers a task: takes the lowest free slot, records the callback,
        period and kind, queues the task one period from now, and reprograms
        the timer.  Answers InvalidId, changing nothing, for a null callback
        or when every slot is taken. */
    method Register(periodUs: U32, callback: nat, repeating: bool) returns (id: bv64, ghost pos: int)
      requires Valid()
      modifies this
      ensures Valid()
      ensures id == InvalidId <==>
        callback == NoCallback || Full(old(freeBitmap))
      ensures id == InvalidId ==> unchanged(this)
      ensures id != InvalidId ==>
        LowestFree(old(freeBitmap), id) && freeBitmap == ClearBit(old(freeBitmap), id) &&
        readyBitmap == old(readyBitmap) && globalTickUs == old(globalTickUs) &&
        Admitted(old(tasks), old(queue), id, Task(AddU64(old(globalTickUs), periodUs), callback, periodUs, repeating),
          pos, tasks, queue)
    {
      if callback == NoCallback {
        return InvalidId, 0;
      }
      id, pos := Enroll(periodUs, callback, repeating);
    }

    /** Registration of a task with a callback: the lowest free slot is
        taken and the task admitted there, or nothing changes when every
        slot is taken. */
    method Enroll(periodUs: U32, callback: nat, repeating: bool) returns (id: bv64, ghost pos: int)
      requires Valid() && callback != NoCallback
      modifies this
      ensures Valid()
      ensures id == InvalidId <==> Full(old(freeBitmap))
      ensures id == InvalidId ==> unchanged(this)
      ensures id != InvalidId ==>
        LowestFree(old(freeBitmap), id) && freeBitmap == ClearBit(old(freeBitmap), id) &&
        readyBitmap == old(readyBitmap) && globalTickUs == old(globalTickUs) &&
        Admitted(old(tasks), old(queue), id, Task(AddU64(old(globalTickUs), periodUs), callback, periodUs, repeating),
          pos, tasks, queue)
    {
      ghost var free0 := freeBitmap;
      var slot := AllocateSlot();
      if slot == InvalidId {
        return slot, 0;
      }
      ghost var free1 := freeBitmap;
      var t := Task(AddU64(globalTickUs, periodUs), callback, periodUs, repeating);
      pos := Admit(slot, t, free0);
      assert freeBitmap == free1;
      id := slot;
    }

    /** The second half of registration: slot s has just been taken from
        the free bitmap; task t is stored there, queued, and the timer
        reprogrammed. */
    method Admit(s: bv64, t: Task, ghost free0: bv32) returns (ghost pos: int)
      requires Shape() && ReadyInRange() && Accounted(tasks, queue, readyBitmap, free0)
      requires s < 16 && Has(free0, s) && freeBitmap == ClearBit(free0, s) && t.callback != NoCallback
      modifies this`tasks, this`sortedTaskIds, this`activeTaskCount, this`queue,
        this`timerEnabled, this`currentIntervalUs, this`autoReload, this`timerCounter
      ensures Valid()
      ensures tasks == old(tasks)[Slot(s) := t]
      ensures 0 <= pos <= |old(queue)| && queue == old(queue)[..pos] + [s] + old(queue)[pos..]
      ensures Between(tasks, queue, pos, t.nextFireUs)
    {
      ghost var q0, tasks0 := queue, tasks;
      FreeSlotIdle(tasks, queue, readyBitmap, free0, s);
      pos := Enqueue(s, t);
      AdmitStep(tasks0, q0, readyBitmap, free0, s, t, pos, tasks, queue, freeBitmap);
      ScheduleNextInterval();
    }

    /** register_task(period, callback): a repeating task; a period of 0
        counts as 1 µs. */
    method RegisterTask(periodUs: U32, callback: nat) returns (id: bv64, ghost pos: int)
      requires Valid()
      modifies this
      ensures Valid()
      ensures id == InvalidId <==>
        callback == NoCallback || Full(old(freeBitmap))
      ensures id == InvalidId ==> unchanged(this)
      ensures id != InvalidId ==>
        var p := if periodUs == 0 then 1 else periodUs;
        LowestFree(old(freeBitmap), id) && freeBitmap == ClearBit(old(freeBitmap), id) &&
        readyBitmap == old(readyBitmap) && globalTickUs == old(globalTickUs) &&
        Admitted(old(tasks), old(queue), id, Task(AddU64(old(globalTickUs), p), callback, p, true), pos, tasks, queue)
      ensures id != InvalidId ==>
        id < 16 && tasks[Slot(id)].callback == callback && tasks[Slot(id)].repeating &&
        tasks[Slot(id)].periodUs >= 1 && (periodUs > 0 ==> tasks[Slot(id)].periodUs == periodUs) &&
        id in queue
    {
      var p := if periodUs == 0 then 1 else periodUs;
      id, pos := Register(p, callback, true);
    }

    /** set_timeout(microseconds, callback): a one-shot task; a delay of 0
        counts as 1 µs. */
    method SetTimeout(microseconds: U32, callback: nat) returns (id: bv64, ghost pos: int)
      requires Valid()
      modifies this
      ensures Valid()
      ensures id == InvalidId <==>
        callback == NoCallback || Full(old(freeBitmap))
      ensures id == InvalidId ==> unchanged(this)
      ensures id != InvalidId ==>
        var p := if microseconds == 0 then 1 else microseconds;
        LowestFree(old(freeBitmap), id) && freeBitmap == ClearBit(old(freeBitmap), id) &&
        readyBitmap == old(readyBitmap) && globalTickUs == old(globalTickUs) &&
        Admitted(old(tasks), old(queue), id, Task(AddU64(old(globalTickUs), p), callback, p, false), pos, tasks, queue)
      ensures id != InvalidId ==>
        id < 16 && tasks[Slot(id)].callback == callback && !tasks[Slot(id)].repeating &&
        tasks[Slot(id)].periodUs >= 1 && (microseconds > 0 ==> tasks[Slot(id)].periodUs == microseconds) &&
        id in queue
    {
      var us := if microseconds == 0 then 1 else microseconds;
      id, pos := Register(us, callback, false);
    }

    /** Unregisters the task in slot id: takes it out of the queue, frees the
        slot, drops its ready mark and reprograms the timer.  Ids from 16 up
        and free slots are refused, changing nothing. */
    method UnregisterTask(id: bv64) returns (ok: bool)
      requires Valid() && id <= 0xFF
      modifies this
      ensures Valid()
      ensures ok <==> id < 16 && !Has(old(freeBitmap), id)
      ensures !ok ==> unchanged(this)
      ensures ok ==>
        queue == RemoveFirst(old(queue), id) && id !in queue &&
        freeBitmap == SetBit(old(freeBitmap), id) && readyBitmap == ClearBit(old(readyBitmap), id) &&
        tasks == old(tasks) && globalTickUs == old(globalTickUs)
    {
      if id >= MaxTasks {
        return false;
      }
      if Has(freeBitmap, id) {
        return false;
      }
      Withdraw(id);
      ScheduleNextInterval();
      return true;
    }

    /** The queue and bitmap half of unregister_task for an allocated slot
        id. */
    method Withdraw(id: bv64)
      requires Shape() && ReadyInRange() && Accounted(tasks, queue, readyBitmap, freeBitmap)
      requires id < 16 && !Has(freeBitmap, id)
      modifies this`sortedTaskIds, this`activeTaskCount, this`queue, this`readyBitmap, this`freeBitmap
      ensures Shape() && ReadyInRange() && Accounted(tasks, queue, readyBitmap, freeBitmap)
      ensures queue == RemoveFirst(old(queue), id) && id !in queue
      ensures freeBitmap == SetBit(old(freeBitmap), id) && readyBitmap == ClearBit(old(readyBitmap), id)
    {
      ghost var q0, ready0, free0 := queue, readyBitmap, freeBitmap;
      RemoveSorted(id);
      ReleaseSlot(id);
      WithdrawStep(tasks, q0, ready0, free0, id, queue, readyBitmap, freeBitmap);
    }

    /** cancel_timeout(id): unregisters a one-shot task; a repeating task is
        refused.  A slot that has been reused since the timeout fired is
        cancelled all the same. */
    method CancelTimeout(id: bv64) returns (ok: bool)
      requires Valid() && id < 16
      modifies this
      ensures Valid()
      ensures ok <==> !old(tasks)[Slot(id)].repeating && !Has(old(freeBitmap), id)
      ensures !ok ==> unchanged(this)
      ensures ok ==>
        queue == RemoveFirst(old(queue), id) && id !in queue &&
        freeBitmap == SetBit(old(freeBitmap), id) && readyBitmap == ClearBit(old(readyBitmap), id) &&
        tasks == old(tasks) && globalTickUs == old(globalTickUs)
    {
      if tasks[Slot(id)].repeating {
        return false;
      }
      ok := UnregisterTask(id);
    }

    /** Runs the ready tasks, lowest slot first, clearing each mark before
        the call and freeing the slot of each one-shot task after it.
        Answers the slots run, in order; their callbacks are
        tasks[Slot(id)].callback. */
    method Update() returns (ran: seq<bv64>)
      requires Valid()
      modifies this`readyBitmap, this`freeBitmap
      ensures Valid()
      ensures readyBitmap == 0
      ensures ran == ReadyIds(old(readyBitmap)) && forall i :: 0 <= i < |ran| ==> ran[i] < 16
      ensures freeBitmap == FreedAfter(tasks, old(freeBitmap), ran)
    {
      ran := RunReady();
    }

    /** The loop of `Update`: runs every ready slot, lowest first. */
    method RunReady() returns (ran: seq<bv64>)
      requires SlotTable() && ReadyInRange() && Accounted(tasks, queue, readyBitmap, freeBitmap)
      modifies this`readyBitmap, this`freeBitmap
      ensures ReadyInRange() && Accounted(tasks, queue, readyBitmap, freeBitmap)
      ensures readyBitmap == 0
      ensures ran == ReadyIds(old(readyBitmap)) && forall i :: 0 <= i < |ran| ==> ran[i] < 16
      ensures freeBitmap == FreedAfter(tasks, old(freeBitmap), ran)
    {
      ran := [];
      ghost var all, free0 := ReadyIds(readyBitmap), freeBitmap;
      ghost var pending := all;
      RanNone(tasks, all, free0);
      while readyBitmap != 0
        invariant ReadyInRange() && Accounted(tasks, queue, readyBitmap, freeBitmap)
        invariant pending == ReadyIds(readyBitmap)
        invariant Ran(tasks, all, free0, ran, pending, freeBitmap)
        decreases |pending|
      {
        var id := RunNext(all, free0, ran, pending);
        ran, pending := ran + [id], ReadyIds(readyBitmap);
      }
      ReadyIdsEmpty();
      RanAll(tasks, all, free0, ran, freeBitmap);
    }

    /** One pass of the update loop, stated as progress through the slots
        ready at the start. */
    method RunNext(ghost all: seq<bv64>, ghost free0: bv32, ghost ran: seq<bv64>, ghost pending: seq<bv64>)
      returns (id: bv64)
      requires SlotTable() && ReadyInRange() && Accounted(tasks, queue, readyBitmap, freeBitmap)
      requires readyBitmap != 0 && pending == ReadyIds(readyBitmap)
      requires Ran(tasks, all, free0, ran, pending, freeBitmap)
      modifies this`readyBitmap, this`freeBitmap
      ensures ReadyInRange() && Accounted(tasks, queue, readyBitmap, freeBitmap)
      ensures Ran(tasks, all, free0, ran + [id], ReadyIds(readyBitmap), freeBitmap)
    {
      ghost var free1 := freeBitmap;
      id := RunLowest();
      RanStep(tasks, all, free0, ran, pending, free1, id, ReadyIds(readyBitmap), freeBitmap);
    }

    /** One pass of the update loop: clears the lowest ready mark, runs that
        slot's task (the call itself is not modelled), and releases the slot
        of a one-shot task. */
    method RunLowest() returns (id: bv64)
      requires SlotTable() && ReadyInRange() && Accounted(tasks, queue, readyBitmap, freeBitmap)
      requires readyBitmap != 0
      modifies this`readyBitmap, this`freeBitmap
      ensures ReadyInRange() && Accounted(tasks, queue, readyBitmap, freeBitmap)
      ensures id < 16 && ReadyIds(old(readyBitmap)) == [id] + ReadyIds(readyBitmap)
      ensures freeBitmap == if tasks[Slot(id)].repeating then old(freeBitmap) else SetBit(old(freeBitmap), id)
    {
      ghost var ready0, free0 := readyBitmap, freeBitmap;
      id := TakeLowestReady();
      ghost var ready1 := readyBitmap;
      if !tasks[Slot(id)].repeating {
        ReleaseSlot(id);
        ClearTwice(ready0, id);
      }
      assert readyBitmap == ready1;
      RunStep(tasks, queue, ready0, free0, id, readyBitmap, freeBitmap);
    }

    /** Clears the lowest ready mark and answers its slot. */
    method TakeLowestReady() returns (id: bv64)
      requires ReadyInRange() && readyBitmap != 0
      modifies this`readyBitmap
      ensures ReadyInRange()
      ensures id < 16 && Has(old(readyBitmap), id) && readyBitmap == ClearBit(old(readyBitmap), id)
      ensures ReadyIds(old(readyBitmap)) == [id] + ReadyIds(readyBitmap)
    {
      var bitIndex := CountTrailingZeros32(readyBitmap);
      ReadyIdsDropLowest(readyBitmap, bitIndex);
      AtLowest(readyBitmap, bitIndex);
      id := bitIndex as bv64;
      ClearKeepsHigh(readyBitmap, id);
      readyBitmap := ClearBit(readyBitmap, id);
    }
  }

  /** The task table at power-on: every slot empty. */
  function PowerOnTasks(): (tasks: map<Slot, Task>)
    ensures forall id: bv64 :: id < 16 ==> Slot(id) in tasks && tasks[Slot(id)].callback == NoCallback
  {
    map id | id in SlotIds :: Slot(id) := Task(0, NoCallback, 0, false)
  }

  /** At power-on, with every slot free and nothing queued or ready, the
      slots are accounted for. */
  lemma PowerOnAccounted()
    ensures Slots(PowerOnTasks()) && Accounted(PowerOnTasks(), [], 0, 0xFFFF_FFFF)
  {
  }

  lemma HoldsEmpty()
    ensures Holds(0, [])
  {
    assert NibsAre(0, []) by {
      forall i | 0 <= i < 16 ensures Nib(0, Pos(i)) == Padded([])[i] {
      }
    }
    NibsHolds(0, []);
  }

  /** The word update of the insertion, on the two 32-bit halves: opens a
      hole at position pos of the held queue q and puts id in it. */
  method InsertWord(w: bv64, ghost q: seq<bv64>, pos: int, id: bv64) returns (r: bv64)
    requires Holds(w, q) && 0 <= pos <= |q| < 16 && id < 16
    ensures Holds(r, q[..pos] + [id] + q[pos..])
  {
    r := SplitInsert(w, Pos(pos), id);
    SplitInsertIsInsertNib(w, Pos(pos), id);
    HoldsInsert(w, q, pos, id);
  }

  lemma InsertKeepsShape(tasks: map<Slot, Task>, q: seq<bv64>, pos: int, id: bv64)
    requires (forall i :: 0 <= i < |q| ==> q[i] < 16) && Distinct(q) && OrderedByDue(tasks, q)
    requires 0 <= pos <= |q| && id < 16 && id !in q && Slot(id) in tasks
    requires forall i :: 0 <= i < pos ==> Due(tasks, q[i]) <= Due(tasks, id)
    requires forall i :: pos <= i < |q| ==> Due(tasks, id) < Due(tasks, q[i])
    ensures var q' := q[..pos] + [id] + q[pos..];
      (forall i :: 0 <= i < |q'| ==> q'[i] < 16) && Distinct(q') && OrderedByDue(tasks, q')
  {
    OrderedInsert(tasks, q, pos, id);
    DistinctInsert(q, pos, id);
    var q' := q[..pos] + [id] + q[pos..];
    forall i | 0 <= i < |q'| ensures q'[i] < 16 {
      if i < pos {
        assert q'[i] == q[i];
      } else if i > pos {
        assert q'[i] == q[i - 1];
      }
    }
  }

  lemma DistinctInsert(q: seq<bv64>, pos: int, id: bv64)
    requires Distinct(q) && id !in q && 0 <= pos <= |q|
    ensures Distinct(q[..pos] + [id] + q[pos..])
  {
    var q' := q[..pos] + [id] + q[pos..];
    forall i, j | 0 <= i < j < |q'| ensures q'[i] != q'[j] {
      if j < pos {
        assert q'[i] == q[i] && q'[j] == q[j];
      } else if j == pos {
        assert q'[i] == q[i] && q'[j] == id;
      } else if i < pos {
        assert q'[i] == q[i] && q'[j] == q[j - 1];
      } else if i == pos {
        assert q'[i] == id && q'[j] == q[j - 1];
      } else {
        assert q'[i] == q[i - 1] && q'[j] == q[j - 1];
      }
    }
  }

  /** Reads position idx of the word, from the 32-bit half that holds it. */
  method ReadWord(w: bv64, ghost q: seq<bv64>, idx: int) returns (id: bv64)
    requires Holds(w, q) && 0 <= idx < |q|
    ensures id == q[idx]
  {
    id := SplitRead(w, Pos(idx));
    SplitReadIsNib(w, Pos(idx));
    HoldsAt(w, q, idx);
  }

  /** The word update of the pop: every position moves down by one. */
  method PopWord(w: bv64, ghost q: seq<bv64>) returns (r: bv64)
    requires Holds(w, q) && |q| > 0
    ensures Holds(r, q[1..])
  {
    r := w >> 4;
    HoldsPop(w, q);
  }

  /** The word update of the removal: the zero-field detector finds the
      first position holding id, and that position is dropped.  removed says
      whether the position lay inside the queue (count is its length). */
  method RemoveWord(w: bv64, ghost q: seq<bv64>, id: bv64, count: int) returns (r: bv64, removed: bool)
    requires Holds(w, q) && count == |q| && id < 16
    ensures Holds(r, RemoveFirst(q, id))
    ensures removed == (id in q)
  {
    var diff := w ^ Pattern(id);
    var matches := Matches(diff);
    ghost var p := IndexOf(q, id);
    Locate(w, q, id);
    if matches == 0 {
      return w, false;
    }
    var posMsb := CountTrailingZeros64(matches);
    LowestSetBit64Unique(matches, posMsb, 4 * Pos(p) + 3);
    r := RemoveAtBit(w, posMsb as bv32);
    RemoveAtBitIsRemoveNib(w, Pos(p));
    HoldsRemove(w, q, p);
    if p < |q| {
      RemoveFirstAt(q, id, p);
    }
    PosValue(p);
    removed := ((posMsb >> 2) as int) < count;
  }

  /** Where the detector's lowest hit lies: at the first occurrence of id,
      or at the first position of the zero tail when id is 0 and the queue is
      not full; no hit at all otherwise. */
  lemma Locate(w: bv64, q: seq<bv64>, id: bv64)
    requires Holds(w, q) && id < 16
    ensures var p := IndexOf(q, id);
      var m := Matches(w ^ Pattern(id));
      (m == 0 <==> p == |q| && (|q| == 16 || id != 0)) &&
      (m != 0 ==> p < 16 && LowestSetBit64(m, 4 * Pos(p) + 3))
  {
    var p := IndexOf(q, id);
    if p < |q| {
      SearchFinds(w, q, id, p);
    } else if |q| < 16 && id == 0 {
      SearchFinds(w, q, id, p);
    } else {
      SearchMisses(w, q, id);
    }
  }

  lemma PopKeepsShape(tasks: map<Slot, Task>, q: seq<bv64>)
    requires (forall i :: 0 <= i < |q| ==> q[i] < 16) && Distinct(q) && OrderedByDue(tasks, q)
    requires |q| > 0
    ensures var q' := q[1..];
      (forall i :: 0 <= i < |q'| ==> q'[i] < 16) && Distinct(q') && OrderedByDue(tasks, q')
  {
  }

  lemma RemoveKeepsShape(tasks: map<Slot, Task>, q: seq<bv64>, id: bv64)
    requires (forall i :: 0 <= i < |q| ==> q[i] < 16) && Distinct(q) && OrderedByDue(tasks, q)
    ensures var q' := RemoveFirst(q, id);
      id !in q' && (forall i :: 0 <= i < |q'| ==> q'[i] < 16) && Distinct(q') && OrderedByDue(tasks, q')
  {
    RemoveFirstDistinct(q, id);
    var p := IndexOf(q, id);
    if p < |q| {
      RemoveFirstAt(q, id, p);
      OrderedRemove(tasks, q, p);
    }
  }

  lemma SetKeepsHigh(m: bv32, c: bv64)
    requires m & 0xFFFF_0000 == 0 && c < 16
    ensures SetBit(m, c) & 0xFFFF_0000 == 0
  {
  }

  lemma ClearTwice(m: bv32, c: bv64)
    requires c < 16
    ensures ClearBit(ClearBit(m, c), c) == ClearBit(m, c)
  {
  }

  lemma ClearKeepsHigh(m: bv32, c: bv64)
    requires m & 0xFFFF_0000 == 0 && c < 16
    ensures ClearBit(m, c) & 0xFFFF_0000 == 0
  {
  }

  lemma DistinctTail(q: seq<bv64>)
    requires Distinct(q) && |q| > 0
    ensures q[0] !in q[1..]
  {
    forall j | 0 <= j < |q| - 1 ensures q[1..][j] != q[0] {
      assert q[1..][j] == q[j + 1];
    }
  }

  lemma InsertMembers(q: seq<bv64>, pos: int, id: bv64)
    requires 0 <= pos <= |q|
    ensures forall x :: x in q[..pos] + [id] + q[pos..] <==> x in q || x == id
  {
    assert q == q[..pos] + q[pos..];
  }

  lemma RemoveFirstMembers(q: seq<bv64>, id: bv64)
    requires Distinct(q)
    ensures forall x :: x in RemoveFirst(q, id) <==> x in q && x != id
  {
    RemoveFirstDistinct(q, id);
    var p := IndexOf(q, id);
    if p < |q| {
      RemoveFirstAt(q, id, p);
      assert q == q[..p] + [id] + q[p + 1..];
    }
  }

  lemma SameKindsRefl(tasks: map<Slot, Task>)
    requires Slots(tasks)
    ensures SameKinds(tasks, tasks)
  {
  }

  lemma SlotsKept(tasks: map<Slot, Task>, id: bv64, t: Task)
    requires Slots(tasks)
    ensures Slots(tasks[Slot(id) := t])
  {
  }

  lemma RetimeSameKinds(tasks: map<Slot, Task>, id: bv64, t: Task)
    requires Slots(tasks) && id < 16
    requires t.callback == tasks[Slot(id)].callback && t.repeating == tasks[Slot(id)].repeating
    ensures Slots(tasks[Slot(id) := t]) && SameKinds(tasks, tasks[Slot(id) := t])
  {
  }

  /** A free slot is neither queued nor ready, so the queue has room for it. */
  lemma FreeSlotIdle(tasks: map<Slot, Task>, q: seq<bv64>, ready: bv32, free: bv32, s: bv64)
    requires Slots(tasks) && Accounted(tasks, q, ready, free) && s < 16 && Has(free, s)
    requires (forall i :: 0 <= i < |q| ==> q[i] < 16) && Distinct(q)
    ensures s !in q && !Has(ready, s) && |q| < 16
  {
    QueueNotFull(q, s);
  }

  /** One pass of the update loop keeps the slots accounted for. */
  lemma RunStep(tasks: map<Slot, Task>, q: seq<bv64>, ready0: bv32, free0: bv32, id: bv64,
                ready: bv32, free: bv32)
    requires Slots(tasks) && Accounted(tasks, q, ready0, free0) && ready0 & 0xFFFF_0000 == 0
    requires id < 16 && Has(ready0, id)
    requires ready == ClearBit(ready0, id)
    requires free == if tasks[Slot(id)].repeating then free0 else SetBit(free0, id)
    ensures Accounted(tasks, q, ready, free) && ready & 0xFFFF_0000 == 0
  {
    ClearDrops(ready0, id);
    SetAdds(free0, id);
    ClearKeepsHigh(ready0, id);
    RunAccounted(tasks, q, ready0, free0, id, ready, free);
  }

  lemma ReadyIdsEmpty()
    ensures ReadyIds(0) == []
  {
    NoneReadyFrom(0);
  }

  lemma {:induction false} NoneReadyFrom(c: bv64)
    requires c <= 16
    ensures ReadyFrom(0, c) == []
    decreases 16 - c
  {
    if c < 16 {
      NoneReadyFrom(c + 1);
    }
  }

  /** The state a timer interrupt starts from: slots accounted for, the
      ready bitmap within the slot bits, and a non-empty queue of distinct
      slot ids. */
  ghost predicate Firable(tasks0: map<Slot, Task>, q0: seq<bv64>, ready0: bv32, free: bv32)
  {
    Slots(tasks0) && Accounted(tasks0, q0, ready0, free) && ready0 & 0xFFFF_0000 == 0 &&
    |q0| > 0 && (forall i :: 0 <= i < |q0| ==> q0[i] < 16) && Distinct(q0)
  }

  /** One timer interrupt at tick, stated on values: the front task
      becomes ready and, when it repeats, is queued again at position pos of
      the rest of the queue, due one period after tick. */
  ghost predicate Fired(tasks0: map<Slot, Task>, q0: seq<bv64>, ready0: bv32, tick: U64,
                        tasks: map<Slot, Task>, q: seq<bv64>, ready: bv32, pos: int)
    requires |q0| > 0 && q0[0] < 16 && Slot(q0[0]) in tasks0
  {
    var id := q0[0];
    var t := tasks0[Slot(id)];
    ready == SetBit(ready0, id) &&
    (t.repeating ==>
      tasks == tasks0[Slot(id) := Retimed(t, tick)] &&
      0 <= pos < |q0| && q == q0[1..][..pos] + [id] + q0[1..][pos..]) &&
    (!t.repeating ==> tasks == tasks0 && q == q0[1..])
  }

  /** A timer interrupt keeps the slots accounted for and the ready bitmap
      within the 16 slot bits. */
  lemma FiredStep(tasks0: map<Slot, Task>, q0: seq<bv64>, ready0: bv32, free: bv32, tick: U64, pos: int,
                  tasks: map<Slot, Task>, q: seq<bv64>, ready: bv32)
    requires Firable(tasks0, q0, ready0, free)
    requires Fired(tasks0, q0, ready0, tick, tasks, q, ready, pos)
    ensures Accounted(tasks, q, ready, free) && ready & 0xFFFF_0000 == 0
  {
    SetAdds(ready0, q0[0]);
    SetKeepsHigh(ready0, q0[0]);
    if tasks0[Slot(q0[0])].repeating {
      FireRepeating(tasks0, q0, ready0, free, tick, pos, ready);
    } else {
      FireOnce(tasks0, q0, ready0, free, ready);
    }
  }

  lemma FireRepeating(tasks0: map<Slot, Task>, q0: seq<bv64>, ready0: bv32, free: bv32, tick: U64, pos: int,
                      ready: bv32)
    requires Slots(tasks0) && Accounted(tasks0, q0, ready0, free)
    requires |q0| > 0 && q0[0] < 16 && Distinct(q0)
    requires AddsBit(ready0, ready, q0[0])
    requires tasks0[Slot(q0[0])].repeating
    requires 0 <= pos <= |q0[1..]|
    ensures Accounted(tasks0[Slot(q0[0]) := Retimed(tasks0[Slot(q0[0])], tick)],
                      q0[1..][..pos] + [q0[0]] + q0[1..][pos..], ready, free)
  {
    var id := q0[0];
    var t := Retimed(tasks0[Slot(id)], tick);
    RetimeSameKinds(tasks0, id, t);
    InsertMembers(q0[1..], pos, id);
    FireAccounted(tasks0, q0, ready0, free, tasks0[Slot(id) := t], q0[1..][..pos] + [id] + q0[1..][pos..], ready);
  }

  lemma FireOnce(tasks0: map<Slot, Task>, q0: seq<bv64>, ready0: bv32, free: bv32, ready: bv32)
    requires Slots(tasks0) && Accounted(tasks0, q0, ready0, free)
    requires |q0| > 0 && q0[0] < 16 && Distinct(q0)
    requires AddsBit(ready0, ready, q0[0])
    requires !tasks0[Slot(q0[0])].repeating
    ensures Accounted(tasks0, q0[1..], ready, free)
  {
    SameKindsRefl(tasks0);
    FireAccounted(tasks0, q0, ready0, free, tasks0, q0[1..], ready);
  }

  /** Registering a task in free slot s keeps the slots accounted for. */
  lemma AdmitStep(tasks0: map<Slot, Task>, q0: seq<bv64>, ready: bv32, free0: bv32, s: bv64, t: Task, pos: int,
                  tasks: map<Slot, Task>, q: seq<bv64>, free: bv32)
    requires Slots(tasks0) && Accounted(tasks0, q0, ready, free0)
    requires s < 16 && Has(free0, s) && t.callback != NoCallback
    requires free == ClearBit(free0, s) && tasks == tasks0[Slot(s) := t]
    requires 0 <= pos <= |q0| && q == q0[..pos] + [s] + q0[pos..]
    ensures Slots(tasks) && Accounted(tasks, q, ready, free)
  {
    InsertMembers(q0, pos, s);
    ClearDrops(free0, s);
    AllocateAccounted(tasks0, q0, ready, free0, s, t, q, free);
  }

  /** Unregistering the task in allocated slot id keeps the slots accounted
      for and the ready bitmap within the slot bits. */
  lemma WithdrawStep(tasks: map<Slot, Task>, q0: seq<bv64>, ready0: bv32, free0: bv32, id: bv64,
                     q: seq<bv64>, ready: bv32, free: bv32)
    requires Slots(tasks) && Accounted(tasks, q0, ready0, free0) && ready0 & 0xFFFF_0000 == 0
    requires Distinct(q0) && id < 16 && !Has(free0, id)
    requires q == RemoveFirst(q0, id) && ready == ClearBit(ready0, id) && free == SetBit(free0, id)
    ensures Accounted(tasks, q, ready, free) && ready & 0xFFFF_0000 == 0
  {
    RemoveFirstMembers(q0, id);
    ClearDrops(ready0, id);
    SetAdds(free0, id);
    ClearKeepsHigh(ready0, id);
    ReleaseAccounted(tasks, q0, ready0, free0, id, q, ready, free);
  }

  /** Part way through update(): the ids in ran have been run, in order, and
      pending are still to run; together they are all the ids ready at the
      start, and free has the slot of each one-shot task run released. */
  ghost predicate Ran(tasks: map<Slot, Task>, all: seq<bv64>, free0: bv32, ran: seq<bv64>,
                      pending: seq<bv64>, free: bv32)
    requires Slots(tasks)
  {
    (forall i :: 0 <= i < |ran| ==> ran[i] < 16) &&
    ran + pending == all &&
    free == FreedAfter(tasks, free0, ran)
  }

  lemma RanStep(tasks: map<Slot, Task>, all: seq<bv64>, free0: bv32, ran: seq<bv64>,
                pending: seq<bv64>, free: bv32, id: bv64, pending': seq<bv64>, free': bv32)
    requires Slots(tasks) && Ran(tasks, all, free0, ran, pending, free)
    requires id < 16 && pending == [id] + pending'
    requires free' == if tasks[Slot(id)].repeating then free else SetBit(free, id)
    ensures Ran(tasks, all, free0, ran + [id], pending', free')
  {
    var ran' := ran + [id];
    assert ran'[..|ran'| - 1] == ran && ran'[|ran'| - 1] == id;
    assert FreedAfter(tasks, free0, ran') == free';
    assert ran' + pending' == ran + pending;
  }

  /** Before the update loop nothing has run and nothing is freed. */
  lemma RanNone(tasks: map<Slot, Task>, all: seq<bv64>, free: bv32)
    requires Slots(tasks)
    ensures Ran(tasks, all, free, [], all, free)
  {
    assert [] + all == all;
  }

  lemma RanAll(tasks: map<Slot, Task>, all: seq<bv64>, free0: bv32, ran: seq<bv64>, free: bv32)
    requires Slots(tasks) && Ran(tasks, all, free0, ran, [], free)
    ensures ran == all && free == FreedAfter(tasks, free0, ran)
  {
    assert ran + [] == ran;
  }
}
