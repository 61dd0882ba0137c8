// Three places where Scheduler.cpp, as written, departs from what the
// surrounding code and its tests evidently intend.  Each is modelled here as
// written, with the input that shows the departure; TimeScheduler models the
// intended behaviour.
module SchedulerFindings {
  import opened Bits
  import opened TimeScheduler

  // ------------------------------------------------ allocate_slot scans ~free

  /** allocate_slot as written: ffs is applied to the complement of the free
      bitmap, and only an index above 16 is refused.  The bitmap update
      clears a bit that the complement scan found already clear. */
  method AllocateSlotAsWritten(free: bv32) returns (id: bv64, free': bv32)
    ensures free == 0xFFFF_FFFF ==> id == InvalidId && free' == free
    ensures free & 0x1_FFFF != 0x1_FFFF ==> id != InvalidId
    ensures free != 0xFFFF_FFFF && id != InvalidId ==>
      id <= 16 && !Has(free, id) && (forall i: bv64 :: i < id ==> Has(free, i)) && free' == free
  {
    var first := FindFirstSet32(!free);
    var idx: bv32 := first - 1;
    if idx > 16 {
      return InvalidId, free;
    }
    id := idx as bv64;
    free' := free & !(1 << idx);
  }

  /** At power-on every slot is free, yet the scan as written finds no free
      slot; the intended scan takes slot 0 and leaves 0xFFFF_FFFE. */
  lemma PowerOnAllocation()
    ensures !Full(0xFFFF_FFFF) && LowestFree(0xFFFF_FFFF, 0)
    ensures ClearBit(0xFFFF_FFFF, 0) == 0xFFFF_FFFE
  {
    assert Has(0xFFFF_FFFF, 0);
  }

  /** With slot 0 taken the scan as written answers slot 0 again. */
  lemma TakenSlotFound()
    ensures !Has(0xFFFF_FFFE, 0) && LowestFree(0xFFFF_FFFE, 1)
  {
  }

  /** allocate_slot with only the scan corrected (ffs of the free bitmap)
      and the bound `idx > kMaxTasks` kept.  The bits above the sixteen slots
      stay set from power-on, so once every slot is taken the scan finds bit
      16, which the bound lets through as a slot that does not exist. */
  method AllocateSlotScanOnly(free: bv32) returns (id: bv64)
    ensures !Full(free) ==> LowestFree(free, id)
    ensures Full(free) && Has(free, 16) ==> id == 16
  {
    var first := FindFirstSet32(free);
    var idx: bv32 := first - 1;
    if idx > 16 {
      return InvalidId;
    }
    id := idx as bv64;
    if !Full(free) {
      assert Has(free, id);
    } else if Has(free, 16) {
      assert Has(free, id);
    }
  }

  /** Sixteen allocations from power-on leave 0xFFFF_0000: every slot taken,
      bit 16 still set. */
  lemma SixteenTakenBitmap()
    ensures Full(0xFFFF_0000) && Has(0xFFFF_0000, 16)
  {
    forall i: bv64 | i < 16 ensures !Has(0xFFFF_0000, i) {
      assert (0xFFFF_0000 as bv32 >> i) & 1 == 0;
    }
  }

  // ------------------------------------- schedule_next_interval and tick - 1

  /** uint64_t subtraction, which wraps modulo 2^64. */
  function SubU64(a: U64, b: U64): U64
  {
    (a - b) % TwoTo64
  }

  /** The interval as written: the task counts as not yet due when its time
      is after tick - 1, which wraps to 2^64 - 1 at tick 0. */
  function NextIntervalAsWritten(nextFireUs: U64, tickUs: U64): (r: U64)
    ensures r <= MaxIntervalUs
    ensures tickUs == 0 ==> r == 1
    ensures 0 < tickUs && nextFireUs == tickUs ==> r == 0
    ensures r == NextIntervalUs(nextFireUs, tickUs) <==>
      !((tickUs == 0 && nextFireUs > 1) || (0 < tickUs && nextFireUs == tickUs))
  {
    var delta := if nextFireUs > SubU64(tickUs, 1) then SubU64(nextFireUs, tickUs) else 1;
    if delta > MaxIntervalUs then MaxIntervalUs else delta
  }

  /** A task due exactly now (a second task due at the same microsecond as
      the one that just fired) gets interval 0, so the auto-reload register
      wraps to 2^32 - 1 and the task fires about 71 minutes late; the
      intended interval is 1. */
  lemma DueNowFiresLate()
    ensures NextIntervalAsWritten(5, 5) == 0 && AutoReloadFor(NextIntervalAsWritten(5, 5)) == 0xFFFF_FFFF
    ensures NextIntervalUs(5, 5) == 1 && AutoReloadFor(NextIntervalUs(5, 5)) == 0
  {
  }

  /** At tick 0 every task gets interval 1, however far off it is due. */
  lemma TickZeroFiresEarly()
    ensures NextIntervalAsWritten(10, 0) == 1
    ensures NextIntervalUs(10, 0) == 10
  {
  }

  // ------------------------------------------------ active_task_count_

  /** The steps that touch active_task_count_. */
  datatype CountStep = Allocate | Insert | PopFront | Release

  /** The count as written: allocate_slot adds one, pop_front and
      release_slot each take one away (a size_t, wrapping modulo 2^64), and
      insert_sorted leaves it alone. */
  function CountAsWritten(count: U64, steps: seq<CountStep>): (r: U64)
    ensures (forall i :: 0 <= i < |steps| ==> steps[i] == Insert) ==> r == count
    decreases |steps|
  {
    if steps == [] then count
    else
      var c := match steps[0]
        case Allocate => (count + 1) % TwoTo64
        case Insert => count
        case PopFront => SubU64(count, 1)
        case Release => SubU64(count, 1);
      CountAsWritten(c, steps[1..])
  }

  /** The number of queued ids, which insert_sorted's search range and
      schedule_next_interval's idle test take the count to be. */
  function QueuedAfter(queued: int, steps: seq<CountStep>): (r: int)
    ensures queued - |steps| <= r <= queued + |steps|
    decreases |steps|
  {
    if steps == [] then queued
    else
      var q := match steps[0]
        case Allocate => queued
        case Insert => queued + 1
        case PopFront => queued - 1
        case Release => queued;
      QueuedAfter(q, steps[1..])
  }

  /** A repeating task registered and fired once: it is queued again, but
      the count as written is back to 0, so schedule_next_interval stops the
      timer and the task never fires again.  A one-shot task registered,
      fired and run leaves the count at 2^64 - 1 with nothing queued. */
  lemma CountDrifts()
    ensures QueuedAfter(0, [Allocate, Insert, PopFront, Insert]) == 1
    ensures CountAsWritten(0, [Allocate, Insert, PopFront, Insert]) == 0
    ensures QueuedAfter(0, [Allocate, Insert, PopFront, Release]) == 0
    ensures CountAsWritten(0, [Allocate, Insert, PopFront, Release]) == TwoTo64 - 1
  {
    assert [Allocate, Insert, PopFront, Insert][1..] == [Insert, PopFront, Insert];
    assert [Insert, PopFront, Insert][1..] == [PopFront, Insert];
    assert [PopFront, Insert][1..] == [Insert];
    assert [Allocate, Insert, PopFront, Release][1..] == [Insert, PopFront, Release];
    assert [Insert, PopFront, Release][1..] == [PopFront, Release];
    assert [PopFront, Release][1..] == [Release];
  }

  /** The part of the scheduler's state that active_task_count_ bears on, as
      written: the queue of slot ids, the count, and the timer's enable bit. */
  datatype CountState = CountState(queue: seq<bv64>, count: U64, timerOn: bool)

  /** schedule_next_interval as written: the timer stops when the count is
      0, whatever is queued. */
  function ScheduleAsWritten(s: CountState): (r: CountState)
    ensures r.queue == s.queue && r.count == s.count
    ensures r.timerOn <==> s.count != 0
  {
    s.(timerOn := s.count != 0)
  }

  /** register_task as written: allocate_slot adds one to the count,
      insert_sorted puts id at pos without touching the count, then the
      timer is rescheduled. */
  function RegisterAsWritten(s: CountState, id: bv64, pos: nat): (r: CountState)
    requires pos <= |s.queue|
    ensures r.queue == s.queue[..pos] + [id] + s.queue[pos..] && |r.queue| == |s.queue| + 1
    ensures r.count == CountAsWritten(s.count, [Allocate, Insert])
    ensures r.timerOn <==> r.count != 0
  {
    assert [Allocate, Insert][1..] == [Insert];
    ScheduleAsWritten(CountState(s.queue[..pos] + [id] + s.queue[pos..], (s.count + 1) % TwoTo64, s.timerOn))
  }

  /** on_timer_update as written: pop_front takes the front id off and one
      off the count; a repeating task goes back in at pos, again without
      touching the count; then the timer is rescheduled. */
  function FireAsWritten(s: CountState, repeating: bool, pos: nat): (r: CountState)
    requires |s.queue| > 0 && pos < |s.queue|
    ensures repeating ==> |r.queue| == |s.queue| && r.count == CountAsWritten(s.count, [PopFront, Insert])
    ensures !repeating ==> r.queue == s.queue[1..] && r.count == CountAsWritten(s.count, [PopFront])
    ensures r.timerOn <==> r.count != 0
  {
    assert [PopFront, Insert][1..] == [Insert];
    var rest := s.queue[1..];
    var q := if repeating then rest[..pos] + [s.queue[0]] + rest[pos..] else rest;
    ScheduleAsWritten(CountState(q, SubU64(s.count, 1), s.timerOn))
  }

  /** Every firing of a repeating task takes one off the count as written
      while the queue keeps its length, so a count that matched the queue
      no longer does. */
  lemma FiringDrifts(s: CountState, pos: nat)
    requires |s.queue| > 0 && pos < |s.queue| && s.count == |s.queue|
    ensures FireAsWritten(s, true, pos).count == |FireAsWritten(s, true, pos).queue| - 1
  {
    assert [PopFront, Insert][1..] == [Insert];
  }

  /** A single repeating task, registered at power-on and fired once, is
      still queued, yet the timer as written is stopped, so it never fires
      again.  The intended scheduler keeps the timer running while a task is
      queued (TimeScheduler.Scheduler.OnTimerUpdate keeps Valid(), whose
      TimerProgrammed says so). */
  lemma RepeatingTaskStalls()
    ensures var s := FireAsWritten(RegisterAsWritten(CountState([], 0, false), 0, 0), true, 0);
            s.queue == [0] && !s.timerOn
  {
    var r := RegisterAsWritten(CountState([], 0, false), 0, 0);
    assert r.queue == [0] && r.count == 1;
    var s := FireAsWritten(r, true, 0);
    assert r.queue[1..] == [];
    assert s.queue == [0];
  }
}
