# ST-LIB core in Dafny

This project models the core of ST-LIB, a C++ hardware abstraction library for STM32H7 boards, together with its Python packet generator. It proves properties of that model. The model covers:

- **The runtime task scheduler.** A table of 16 tasks with free and ready bitmaps, and a queue of 4-bit task ids packed into a 64-bit word and sorted by next fire time. It also covers the tick, the next-interval clamp, and register, unregister, timeout and update.
- **The fixed-capacity C++ utilities:** ring buffer, arena, pool, stack and static vector.
- **The compile-time domains** that turn a board's requests into configurations:
  - GPIO and EXTI uniqueness;
  - ADC peripheral and channel resolution by preference score;
  - the SPI configuration translators, the prescaler search and the SPI domain;
  - the DFSDM filter and clock rules;
  - the timer domain's timer assignment;
  - the DMA stream assignment;
  - the MPU buffer layout;
  - the registry into which every device adds its entry.
- **The timer wrapper's register bit operations.**
- **The run-time services:**
  - the state machine's transition dispatch and nested machines;
  - the promise resolve/then/update cycle with `all` and `any`;
  - the SD logger's request/build/flush buffer manager;
  - the non-cached memory bump allocator;
  - the independent watchdog's prescaler and reload computation;
  - the FNV-1a benchmarking hash;
  - the analog conversion helpers.
- **The packet generator's resolution** of packet variables against a measurement dictionary.

Code that changes state in place is modelled as Dafny classes whose methods carry `modifies` clauses. Each such method states its new state as a function of the old one, and lemmas prove the source's promises about those functions. Pure switches and searches are functions. Loops in the source are methods with `while` loops and invariants.

Hardware access (HAL_*, NVIC, RCC, the SD card, the user callbacks) is not modelled as code. It becomes parameters or logged events:

- a callback is named by an id;
- what it returns is passed in;
- a compile-time `compile_error` or `ErrorHandler` call is a `Failure` value or a logged event.

Unsigned wrap-around is written out where the source relies on it, with `bv` types or explicit `% 2^n`.

## Model

The lemmas of the Arith module (DivAntiMonotone, BelowQuotient, MulMonotone, MulMonotoneIf, QuotientOf, RemainderOf) and Bits.LowestSetBit32, Bits.LowestSetBit64 and Bits.LowestSetBit64Unique are arithmetic helpers for the proofs below; they model no function of the source and have no row.

| member | source | states |
|---|---|---|
| RingBuffers.MoveForward | Inc/C++Utilities/RingBuffer.hpp:14-16 | the result is below N, and one step from the last slot wraps to 0 |
| RingBuffers.MoveBackward | Inc/C++Utilities/RingBuffer.hpp:18-23 | the unsigned intermediate never goes below zero, and the result is origin - amount modulo N, as the comment promises |
| RingBuffers.MoveBackwardIsBehind | Inc/C++Utilities/RingBuffer.hpp:18-23 | moving back i + 1 places from front reaches the slot that holds the i-th newest item |
| RingBuffers.RingBuffer.constructor | Inc/C++Utilities/RingBuffer.hpp:26 | an empty buffer of capacity N |
| RingBuffers.RingBuffer.Size | Inc/C++Utilities/RingBuffer.hpp:66 | the number of stored items, at most N |
| RingBuffers.RingBuffer.IsFull | Inc/C++Utilities/RingBuffer.hpp:67 | full exactly when N items are stored |
| RingBuffers.RingBuffer.IsEmpty | Inc/C++Utilities/RingBuffer.hpp:68 | empty exactly when no item is stored |
| RingBuffers.RingBuffer.Push | Inc/C++Utilities/RingBuffer.hpp:28-36 | refused (false, nothing changed) exactly when full; otherwise the item becomes the newest and every older item keeps its place |
| RingBuffers.RingBuffer.Pop | Inc/C++Utilities/RingBuffer.hpp:38-45 | refused exactly when empty; otherwise only the oldest item is dropped |
| RingBuffers.RingBuffer.PushPop | Inc/C++Utilities/RingBuffer.hpp:47-55 | refused exactly when empty; otherwise the item becomes the newest, the oldest is dropped and the size is unchanged |
| RingBuffers.RingBuffer.Get | Inc/C++Utilities/RingBuffer.hpp:57-59 | reads the slot index + 1 places behind front; below the size that is the index-th newest item |
| RingBuffers.RingBuffer.Last | Inc/C++Utilities/RingBuffer.hpp:61 | reads the slot at back, which is the oldest item when one is stored |
| RingBuffers.RingBuffer.First | Inc/C++Utilities/RingBuffer.hpp:63 | the newest item when one is stored |
| Stacks.Stack.constructor | Inc/C++Utilities/Stack.hpp:20 | an empty stack of capacity S |
| Stacks.Stack.Push | Inc/C++Utilities/Stack.hpp:22-26 | a full stack ignores the value; otherwise the value goes on top |
| Stacks.Stack.Pop | Inc/C++Utilities/Stack.hpp:28-30 | returns the top value and removes it, leaving the rest as it was |
| Stacks.Stack.Size | Inc/C++Utilities/Stack.hpp:32 | the number of stored values |
| Stacks.Stack.Empty | Inc/C++Utilities/Stack.hpp:33 | empty exactly when no value is stored |
| StaticVectors.StaticVector.constructor | Inc/C++Utilities/StaticVector.hpp:12 | no element in use |
| StaticVectors.StaticVector.FromElements | Inc/C++Utilities/StaticVector.hpp:14-15 | the given elements are in use, in order |
| StaticVectors.StaticVector.PushBack | Inc/C++Utilities/StaticVector.hpp:19-28 | refused, with nothing stored, exactly when full; otherwise the value is appended |
| StaticVectors.StaticVector.Size | Inc/C++Utilities/StaticVector.hpp:36 | the number of elements in use |
| StaticVectors.StaticVector.End | Inc/C++Utilities/StaticVector.hpp:30-33 | iteration from begin() to end() visits exactly the elements in use |
| StaticVectors.StaticVector.At | Inc/C++Utilities/StaticVector.hpp:39-40 | below the size, the element at that position |
| StaticVectors.StaticVector.Contains | Inc/C++Utilities/StaticVector.hpp:41-51 | true exactly when the value is among the elements in use |
| StaticVectors.StaticVector.Equal | Inc/C++Utilities/StaticVector.hpp:17 | equal vectors have the same elements in use |
| FreeLists.TakeKeeps | Inc/C++Utilities/Arena.hpp:32-34 | taking a listed index off the free list and flagging it used keeps the free-list invariant (distinct, unused, covering, counts adding up to S) |
| FreeLists.GiveBackKeeps | Inc/C++Utilities/Pool.hpp:67-68 | pushing a used index back onto the free list and clearing its flag keeps the invariant |
| FreeLists.GiveBackFrontKeeps | Inc/C++Utilities/Arena.hpp:62-63 | putting a used index back as the newest free entry and clearing its flag keeps the invariant |
| FreeLists.PowerOnFreeList | Inc/C++Utilities/Arena.hpp:84-86 | every index listed once with nothing in use satisfies the invariant |
| FreeLists.UsedMeansRoom | Inc/C++Utilities/Arena.hpp:57-62 | while an index is in use the free list is not full, so the push in release always succeeds |
| Arenas.Arena.constructor | Inc/C++Utilities/Arena.hpp:84-86 | every slot free and unused, listed so that slot 0 is handed out first |
| Arenas.Arena.Available | Inc/C++Utilities/Arena.hpp:81 | the number of free indexes |
| Arenas.Arena.Used | Inc/C++Utilities/Arena.hpp:82 | S - available(), which equals the number of slots flagged used |
| Arenas.Arena.Acquire | Inc/C++Utilities/Arena.hpp:28-36 | none, changing nothing, exactly when no slot is free; otherwise the oldest free index, which was unused, leaves the list and is flagged used |
| Arenas.Arena.Release | Inc/C++Utilities/Arena.hpp:57-65 | accepted exactly for an offset inside the slots whose slot is in use; then the index is listed free again and its flag cleared; a refusal changes nothing |
| Arenas.Arena.Destroy | Inc/C++Utilities/Arena.hpp:72-78 | succeeds exactly when release does, with the same effect |
| Pools.Pool.constructor | Inc/C++Utilities/Pool.hpp:164-169 | indexes pushed from S - 1 down to 0, so 0 is on top; nothing in use |
| Pools.Pool.Available | Inc/C++Utilities/Pool.hpp:90 | the number of free indexes |
| Pools.Pool.Used | Inc/C++Utilities/Pool.hpp:91 | S - available(), which equals the number of slots flagged used |
| Pools.Pool.Acquire | Inc/C++Utilities/Pool.hpp:29-37 | none exactly when the free stack is empty; otherwise the index on top, which was unused, is popped and flagged used |
| Pools.Pool.Release | Inc/C++Utilities/Pool.hpp:59-70 | a negative offset, one past the slots or one of an unused slot is refused, so a double release is refused; otherwise the index is pushed and its flag cleared |
| Pools.Pool.Destroy | Inc/C++Utilities/Pool.hpp:77-87 | the same checks as release, and the same effect when they pass |
| TimeScheduler.NextIntervalUs | Src/HALAL/Services/Time/Scheduler.cpp:228-237 | the interval programmed for the front task lies between 1 µs and 2^32 µs |
| TimeScheduler.NextIntervalUsNotLate | Src/HALAL/Services/Time/Scheduler.cpp:228-237 | the timer never expires after the front task falls due: a task already due gets 1 µs, and a task due within 2^32 µs gets exactly the time left |
| TimeScheduler.RemoveFirst | Src/HALAL/Services/Time/Scheduler.cpp:188-218 | removing an id that is absent leaves the queue as it was; removing one that is present shortens the queue by one and adds nothing |
| TimeScheduler.OrderedInsert | Src/HALAL/Services/Time/Scheduler.cpp:145-160 | putting a task after every task due no later and before every task due later keeps the queue ordered by due time |
| TimeScheduler.OrderedRemove | Src/HALAL/Services/Time/Scheduler.cpp:54-58 | taking any entry out of a queue ordered by due time leaves it ordered |
| TimeScheduler.QueueNotFull | Inc/HALAL/Services/Time/Scheduler.hpp:81-88 | a queue of distinct slot ids, below 16 and not holding id, has room for id: at most 15 entries |
| TimeScheduler.Scheduler.constructor | Src/HALAL/Services/Time/Scheduler.cpp:31-38 | power-on state: every slot free, nothing queued or ready, tick 0, timer off, and the invariant holds |
| TimeScheduler.Scheduler.AllocateSlot | Src/HALAL/Services/Time/Scheduler.cpp:124-135 | InvalidId exactly when none of the sixteen slots is free; otherwise the lowest free slot, whose bit is then cleared (the scan and the bound as intended: see Findings) |
| TimeScheduler.Scheduler.ReleaseSlot | Src/HALAL/Services/Time/Scheduler.cpp:137-143 | ids from 16 up change nothing; otherwise the slot's free bit is set and its ready bit cleared |
| TimeScheduler.Scheduler.FrontId | Src/HALAL/Services/Time/Scheduler.cpp:51-53 | the slot id at the front of the queue the word encodes |
| TimeScheduler.Scheduler.GetAt | Src/HALAL/Services/Time/Scheduler.cpp:40-44 | the slot id at position idx of the queue the word encodes |
| TimeScheduler.Scheduler.FindInsertPosition | Src/HALAL/Services/Time/Scheduler.cpp:148-160 | the binary search ends at the first position whose task falls due strictly after the new one; every earlier task is due no later |
| TimeScheduler.Scheduler.InsertSorted | Src/HALAL/Services/Time/Scheduler.cpp:145-186 | the id is inserted at that position, the rest of the queue is kept in order, and the word still encodes the queue |
| TimeScheduler.Scheduler.PopFront | Src/HALAL/Services/Time/Scheduler.cpp:54-58 | the front of the queue is dropped and the word still encodes the rest |
| TimeScheduler.Scheduler.RemoveSorted | Src/HALAL/Services/Time/Scheduler.cpp:188-218 | the first occurrence of id leaves the queue, nothing else does, and an id not queued leaves the queue as it was |
| TimeScheduler.RemoveWord | Src/HALAL/Services/Time/Scheduler.cpp:189-217 | the zero-field detection and the shift turn a word holding q into a word holding q without the first occurrence of id, and report whether id was in q |
| TimeScheduler.InsertWord | Src/HALAL/Services/Time/Scheduler.cpp:162-185 | the two-half word update turns a word holding q into one holding q with id inserted at pos |
| TimeScheduler.PopWord | Src/HALAL/Services/Time/Scheduler.cpp:57 | shifting the word by four bits turns a word holding q into one holding q without its front |
| TimeScheduler.ReadWord | Src/HALAL/Services/Time/Scheduler.cpp:40-44 | reading the half that holds position idx gives q[idx] |
| TimeScheduler.Locate | Src/HALAL/Services/Time/Scheduler.cpp:199-211 | the detector finds nothing exactly when id is not queued (and, for id 0, the word is full); otherwise its lowest hit is the top bit of the first position holding id |
| TimeScheduler.Scheduler.ScheduleNextInterval | Src/HALAL/Services/Time/Scheduler.cpp:220-240 | an empty queue stops the timer with interval 0; otherwise the timer runs with the interval of the front task and the counter restarts, re-establishing the invariant |
| TimeScheduler.Scheduler.ConfigureTimerForInterval | Src/HALAL/Services/Time/Scheduler.cpp:242-248 | the auto-reload register holds interval - 1, the counter is 0 and the timer runs |
| TimeScheduler.Scheduler.OnTimerUpdate | Src/HALAL/Services/Time/Scheduler.cpp:250-264 | the tick advances by the programmed interval (mod 2^64), the front task is marked ready, a repeating task is queued again one period after the new tick and a one-shot task leaves the queue, the free slots are unchanged, and the invariant (timer set for the new front) holds |
| TimeScheduler.Scheduler.Expire | Src/HALAL/Services/Time/Scheduler.cpp:251-262 | the interrupt before the timer is reprogrammed: the same effect on tick, queue and ready bitmap |
| TimeScheduler.Scheduler.FireFront | Src/HALAL/Services/Time/Scheduler.cpp:253-262 | the front task leaves the queue and is marked ready; a repeating one is retimed one period after the tick and inserted by its new due time |
| TimeScheduler.Scheduler.TakeFront | Src/HALAL/Services/Time/Scheduler.cpp:253-256 | the front id is returned, dropped from the queue and its ready bit set |
| TimeScheduler.Scheduler.Requeue | Src/HALAL/Services/Time/Scheduler.cpp:258-261 | a repeating task that has just left the front goes back into the queue at its new due time |
| TimeScheduler.Scheduler.Enqueue | Src/HALAL/Services/Time/Scheduler.cpp:272-278 | the task is stored in its slot and the slot is inserted into the queue after every task due no later and before every task due later |
| TimeScheduler.Scheduler.AdvanceTick | Src/HALAL/Services/Time/Scheduler.cpp:251 | the tick advances by the programmed interval, wrapping modulo 2^64 |
| TimeScheduler.FiredStep | Src/HALAL/Services/Time/Scheduler.cpp:250-264 | a timer interrupt keeps every slot accounted for (queued or ready slots allocated, an allocated slot queued or ready, a repeating one always queued) |
| TimeScheduler.AdmitStep | Src/HALAL/Services/Time/Scheduler.cpp:266-281 | registering a task in a free slot keeps every slot accounted for |
| TimeScheduler.WithdrawStep | Src/HALAL/Services/Time/Scheduler.cpp:283-291 | unregistering an allocated slot keeps every slot accounted for |
| TimeScheduler.Scheduler.Register | Src/HALAL/Services/Time/Scheduler.cpp:266-281 | InvalidId, nothing changed, exactly for a null callback or when no slot is free; otherwise the lowest free slot holds the task due one period from now (mod 2^64), it is queued by due time, and the timer is reprogrammed; among tasks due at the same time the new one goes last |
| TimeScheduler.Scheduler.Enroll | Src/HALAL/Services/Time/Scheduler.cpp:268-280 | with a callback given, InvalidId and nothing changed exactly when no slot is free; otherwise the lowest free slot is taken and the task due one period from now is queued after every task due no later |
| TimeScheduler.Scheduler.Admit | Src/HALAL/Services/Time/Scheduler.cpp:272-279 | the task is stored in the slot just taken and queued after every task due no later and before every task due later, and the timer is reprogrammed |
| TimeScheduler.Scheduler.RegisterTask | Inc/HALAL/Services/Time/Scheduler.hpp:44-47 | InvalidId and nothing changed exactly for a null callback or when no slot is free; otherwise the lowest free slot is taken, and holds a repeating task with the callback and the period (a period of 0 becomes 1 µs), due one period after the tick (mod 2^64), queued after every task due no later and before every task due later; the tick and the ready bitmap are kept |
| TimeScheduler.Scheduler.SetTimeout | Inc/HALAL/Services/Time/Scheduler.hpp:50-53 | InvalidId and nothing changed exactly for a null callback or when no slot is free; otherwise the lowest free slot is taken, and holds a one-shot task with the callback and the delay (a delay of 0 becomes 1 µs), due one delay after the tick (mod 2^64), queued after every task due no later and before every task due later; the tick and the ready bitmap are kept |
| TimeScheduler.Scheduler.UnregisterTask | Src/HALAL/Services/Time/Scheduler.cpp:283-291 | refused, nothing changed, exactly for ids from 16 up and free slots; otherwise the slot leaves the queue, is freed, loses its ready mark, and the timer is set for the new front |
| TimeScheduler.Scheduler.Withdraw | Src/HALAL/Services/Time/Scheduler.cpp:287-288 | the queue and bitmap half of unregistering keeps the invariant |
| TimeScheduler.Scheduler.CancelTimeout | Inc/HALAL/Services/Time/Scheduler.hpp:54-63 | refused, nothing changed, exactly for a repeating task or a free slot (ids are below 16); otherwise the slot leaves the queue (its first occurrence removed, none left), is freed and loses its ready mark, while the stored tasks and the tick are kept, whichever task now holds the slot |
| TimeScheduler.Scheduler.Update | Src/HALAL/Services/Time/Scheduler.cpp:108-118 | every ready slot is run once, lowest first; the ready bitmap ends empty, and exactly the one-shot tasks run have their slots freed |
| TimeScheduler.Scheduler.RunReady | Src/HALAL/Services/Time/Scheduler.cpp:109-117 | the loop of update: the slots run are the ready slots in ascending order, and the freed slots are those of the one-shot tasks among them |
| TimeScheduler.Scheduler.RunLowest | Src/HALAL/Services/Time/Scheduler.cpp:110-116 | one pass: the lowest ready slot is cleared and run, and its slot is freed exactly when its task is one-shot |
| TimeScheduler.Scheduler.TakeLowestReady | Src/HALAL/Services/Time/Scheduler.cpp:110-111 | the lowest set bit of the ready bitmap is found and cleared |
| TimeScheduler.ReadyIdsDropLowest | Src/HALAL/Services/Time/Scheduler.cpp:110-111 | clearing the lowest ready bit drops the first of the ready ids in ascending order |
| TimeScheduler.ReadyFromSorted | Src/HALAL/Services/Time/Scheduler.cpp:109-117 | the ready ids are visited in strictly ascending order |
| TimeScheduler.PowerOnAccounted | Src/HALAL/Services/Time/Scheduler.cpp:31-36 | the power-on state (all slots free, nothing queued or ready) satisfies the accounting invariant |
| Bits.CountTrailingZeros32 | Src/HALAL/Services/Time/Scheduler.cpp:110 | __builtin_ctz of a non-zero word: the index of its lowest set bit |
| Bits.CountTrailingZeros64 | Src/HALAL/Services/Time/Scheduler.cpp:211 | __builtin_ctzll of a non-zero word: the index of its lowest set bit |
| Bits.FindFirstSet32 | Src/HALAL/Services/Time/Scheduler.cpp:129 | __builtin_ffs: 0 for a zero word, otherwise one more than the index of the lowest set bit |
| NibbleQueue.SplitInsertIsInsertNib | Src/HALAL/Services/Time/Scheduler.cpp:162-185 | the insertion computed on two 32-bit halves equals opening a hole at the position on the whole 64-bit word |
| NibbleQueue.SplitReadIsNib | Src/HALAL/Services/Time/Scheduler.cpp:40-44 | reading a position from the 32-bit half that holds it equals reading that nibble of the 64-bit word |
| NibbleQueue.RemoveAtBitIsRemoveNib | Src/HALAL/Services/Time/Scheduler.cpp:212-217 | the mask-and-shift update at the found bit equals dropping that position |
| NibbleQueue.PatternNib | Src/HALAL/Services/Time/Scheduler.cpp:189-196 | the pattern built by the three shifted additions holds id in all sixteen positions |
| NibbleQueue.MatchesFirst | Src/HALAL/Services/Time/Scheduler.cpp:203-204 | the detector's lowest hit is the top bit of the first zero position of the difference |
| NibbleQueue.MatchesNone | Src/HALAL/Services/Time/Scheduler.cpp:203-206 | a difference with no zero position gives no hit |
| NibbleQueue.HoldsInsert | Src/HALAL/Services/Time/Scheduler.cpp:162-185 | opening a hole at pos and putting id there inserts id at index pos of the held queue |
| NibbleQueue.HoldsPop | Src/HALAL/Services/Time/Scheduler.cpp:57 | shifting the word down one position drops the front of the held queue |
| NibbleQueue.HoldsRemove | Src/HALAL/Services/Time/Scheduler.cpp:212-217 | dropping position p removes q[p] from the held queue and closes the gap |
| NibbleQueue.SearchFinds | Src/HALAL/Services/Time/Scheduler.cpp:199-211 | the detector's lowest hit is the first position that holds id |
| NibbleQueue.SearchMisses | Src/HALAL/Services/Time/Scheduler.cpp:199-206 | when no position holds id the detector reports nothing |
| NibbleQueue.HoldsAt | Src/HALAL/Services/Time/Scheduler.cpp:40-44 | reading position i of a held queue gives q[i] |
| SchedulerFindings.AllocateSlotAsWritten | Src/HALAL/Services/Time/Scheduler.cpp:124-135 | as written, the scan runs over the complement of the free bitmap: with every slot free it finds none, and otherwise it answers a taken slot and leaves the bitmap as it was |
| SchedulerFindings.PowerOnAllocation | Src/HALAL/Services/Time/Scheduler.cpp:129 | at power-on the intended scan takes slot 0 and leaves 0xFFFF_FFFE |
| SchedulerFindings.TakenSlotFound | Src/HALAL/Services/Time/Scheduler.cpp:124-135 | with slot 0 already taken, the scan as written answers slot 0 again |
| SchedulerFindings.AllocateSlotScanOnly | Src/HALAL/Services/Time/Scheduler.cpp:129-131 | with only the scan corrected, a bitmap whose sixteen slots are all taken but whose bit 16 is set yields slot 16, because the bound refuses only indexes above 16 |
| SchedulerFindings.SixteenTakenBitmap | Src/HALAL/Services/Time/Scheduler.cpp:36 | the bitmap left by sixteen allocations from 0xFFFFFFFF, 0xFFFF0000, has every slot taken and bit 16 set |
| SchedulerFindings.NextIntervalAsWritten | Src/HALAL/Services/Time/Scheduler.cpp:229-237 | the comparison against tick - 1 agrees with the intended interval except at tick 0 with the task due after 1 µs, and for a task due exactly now, which gets 0 |
| SchedulerFindings.DueNowFiresLate | Src/HALAL/Services/Time/Scheduler.cpp:229-243 | a task due exactly now gets interval 0 and reload 2^32 - 1 as written, where interval 1 and reload 0 are intended |
| SchedulerFindings.TickZeroFiresEarly | Src/HALAL/Services/Time/Scheduler.cpp:229-231 | at tick 0 as written every task gets interval 1, where its whole delay is intended |
| SchedulerFindings.CountAsWritten | Src/HALAL/Services/Time/Scheduler.cpp:56 | the count as written: allocation adds one, the pop and the release each take one away (mod 2^64), insertion leaves it; insertions alone change nothing |
| SchedulerFindings.QueuedAfter | Src/HALAL/Services/Time/Scheduler.cpp:145-160 | the number of queued ids after the steps, which the search range and the idle test take the count to be |
| SchedulerFindings.CountDrifts | Src/HALAL/Services/Time/Scheduler.cpp:132 | one repeating task registered and fired leaves the count at 0 with one task queued; a one-shot task registered, fired and run leaves it at 2^64 - 1 with nothing queued |
| SchedulerFindings.ScheduleAsWritten | Src/HALAL/Services/Time/Scheduler.cpp:221-225 | as written the timer stops exactly when the count is 0, whatever is queued |
| SchedulerFindings.RegisterAsWritten | Src/HALAL/Services/Time/Scheduler.cpp:266-281 | register_task as written: the queue gains the id and the count goes up by one |
| SchedulerFindings.FireAsWritten | Src/HALAL/Services/Time/Scheduler.cpp:250-264 | on_timer_update as written: the count goes down by one, while a repeating task's queue keeps its length |
| SchedulerFindings.FiringDrifts | Src/HALAL/Services/Time/Scheduler.cpp:56 | for any state whose count matches its queue, firing a repeating task leaves the count one below the queue's length |
| SchedulerFindings.RepeatingTaskStalls | Src/HALAL/Services/Time/Scheduler.cpp:221-225 | one repeating task registered at power-on and fired once is still queued, yet the timer as written is stopped |
| GPIODomain.AfCode | Inc/HALAL/Models/GPIO.hpp:74-94 | NO_AF is stored as 20 and AFk as 15 - k, so every real alternate function's code lies below 16 |
| GPIODomain.ValidAf | Inc/HALAL/Models/GPIO.hpp:159-163 | NO_AF is always valid; a real alternate function is valid exactly when the pin's mask has the bit at its stored code |
| GPIODomain.ShiftIsBit | Inc/HALAL/Models/GPIO.hpp:159-163 | the shift-and-mask test valid_af writes reads exactly that bit of the mask |
| GPIODomain.SamePinIgnoresAfs | Inc/HALAL/Models/GPIO.hpp:165-167 | pin equality looks at port and pin only, so two descriptions of a pin that list different alternate functions are equal both ways |
| GPIODomain.MakeGpio | Inc/HALAL/Models/GPIO.hpp:186-202 | the request is accepted exactly when its alternate function is valid for the pin and an alternate mode has a real alternate function; an accepted one carries the pin's port and mask and the requested settings |
| GPIODomain.ConfigFor | Inc/HALAL/Models/GPIO.hpp:227-237 | each configuration keeps the entry's port, pin and mode; an alternate mode gets the AF number back from its code (15 - code) and any other mode gets 0 |
| GPIODomain.Build | Inc/HALAL/Models/GPIO.hpp:215-241 | build succeeds exactly when no two entries name the same port and pin, and then gives one configuration per entry, in order |
| EXTIDomain.FirstSetFrom | Inc/HALAL/Services/EXTI/EXTI.hpp:20-25 | the scan from bit i finds a set bit at or above i, or reports 0xFF |
| EXTIDomain.ClearBelowFirst | Inc/HALAL/Services/EXTI/EXTI.hpp:20-25 | no bit between the start of the scan and the bit it finds is set |
| EXTIDomain.PinIndexIsLowest | Inc/HALAL/Services/EXTI/EXTI.hpp:20-25 | the pin index of a mask is 0xFF exactly for the empty mask, and otherwise its lowest set bit |
| EXTIDomain.AllClearIsZero | Inc/HALAL/Services/EXTI/EXTI.hpp:20-25 | a 16-bit mask with none of its bits set is 0 |
| EXTIDomain.GetPinIndex | Inc/HALAL/Services/EXTI/EXTI.hpp:20-25 | the bit-by-bit loop returns the mask's pin index |
| EXTIDomain.TriggerMode | Inc/HALAL/Services/EXTI/EXTI.hpp:27-31 | every trigger maps to one of the three EXTI interrupt modes |
| EXTIDomain.DeviceGpioAccepted | Inc/HALAL/Services/EXTI/EXTI.hpp:44-49 | the GPIO request an EXTI device makes (no pull, low speed, no alternate function) is always accepted, and distinct triggers ask for distinct modes |
| EXTIDomain.PinNumbers | Inc/HALAL/Services/EXTI/EXTI.hpp:69-96 | one pin number per entry |
| EXTIDomain.PinNumbersAt | Inc/HALAL/Services/EXTI/EXTI.hpp:79-80 | the k-th pin number is the pin index of the k-th entry's mask |
| EXTIDomain.DistinctSnoc | Inc/HALAL/Services/EXTI/EXTI.hpp:81-92 | one more line keeps the lines distinct exactly when it is below 16 and not yet used |
| EXTIDomain.DistinctLinesMeans | Inc/HALAL/Services/EXTI/EXTI.hpp:81-88 | the entries are acceptable exactly when every mask has a pin and no two masks have the same pin number |
| EXTIDomain.Build | Inc/HALAL/Services/EXTI/EXTI.hpp:69-96 | build succeeds exactly when every entry has a pin and no line is used twice, and then gives each entry its pin number as interrupt line, in order |
| EXTIDomain.NotDistinctAfter | Inc/HALAL/Services/EXTI/EXTI.hpp:85-88 | once a prefix of the entries clashes, the whole list does, so the first error ends build |
| EXTIDomain.IrqFor | Inc/HALAL/Services/EXTI/EXTI.hpp:130-133 | a line with its own vector gets the vector of that line |
| EXTIDomain.IrqShared | Inc/HALAL/Services/EXTI/EXTI.hpp:130-133 | two lines share a vector exactly when they are equal, both in 5..9, or both in 10..15 |
| EXTIDomain.Instance.constructor | Inc/HALAL/Services/EXTI/EXTI.hpp:98-111 | a new instance is off and keeps its callback |
| EXTIDomain.Instance.TurnOn | Inc/HALAL/Services/EXTI/EXTI.hpp:102 | the instance is on |
| EXTIDomain.Instance.TurnOff | Inc/HALAL/Services/EXTI/EXTI.hpp:101 | the instance is off |
| Benchmarking.HashFromAppend | Inc/HALAL/Benchmarking_toolkit/Benchmarking.hpp:36-45 | hashing a + b is hashing b from the value a left |
| Benchmarking.HashSnoc | Inc/HALAL/Benchmarking_toolkit/Benchmarking.hpp:39-42 | one more character is one more xor-and-multiply step |
| Benchmarking.FirstStep | Inc/HALAL/Benchmarking_toolkit/Benchmarking.hpp:37-41 | the first step from the FNV offset basis on 'a' gives 0xE40C292C |
| Benchmarking.KnownValues | Inc/HALAL/Benchmarking_toolkit/Benchmarking.hpp:36-45 | the empty name hashes to the offset basis and "a" to the published FNV-1a value 0xE40C292C |
| Benchmarking.ComputeHash | Inc/HALAL/Benchmarking_toolkit/Benchmarking.hpp:36-45 | the loop returns the FNV-1a hash of the name, with 32-bit wrap-around |
| NonCachedMemory.ContiguousDisjoint | Inc/HALAL/Models/MPUManager/MPUManager.hpp:10-19 | blocks handed out one after another never overlap and all end by the point reached |
| NonCachedMemory.MPUManager.constructor | Inc/HALAL/Models/MPUManager/MPUManager.hpp:21-23 | an empty pool at the given start |
| NonCachedMemory.MPUManager.Allocate | Inc/HALAL/Models/MPUManager/MPUManager.hpp:10-19 | the occupied count grows by size either way; the request is granted exactly when it ends within 2048 bytes, and then the block starts at start plus the old count |
| NonCachedMemory.GrantedBlocksDisjoint | Inc/HALAL/Models/MPUManager/MPUManager.hpp:10-19 | every block a manager handed out lies within the 2048-byte pool and no two overlap |
| NonCachedMemory.AllocateAsWritten | Inc/HALAL/Models/MPUManager/MPUManager.hpp:10-19 | the uint32_t count always stays below 2^32; without wrap-around it is the old count plus size and the grant is decided as intended |
| NonCachedMemory.WrapGrantsOverlap | Inc/HALAL/Models/MPUManager/MPUManager.hpp:12-13 | a huge request wraps the count and is granted, and the next request is then granted over memory already handed out |
| IndependentWatchdog.Reload | Inc/HALAL/Services/Watchdog/Watchdog.hpp:28 | the reload is ms * 8 - 1 for a positive ms, and fits in 12 bits exactly when ms is at most 512 |
| IndependentWatchdog.HalveSucc | Inc/HALAL/Services/Watchdog/Watchdog.hpp:30-34 | halving k + 1 times is halving k times, then once more |
| IndependentWatchdog.HalvingsLeast | Inc/HALAL/Services/Watchdog/Watchdog.hpp:30-34 | the prescaler the loop reaches is the least whose reload fits in 12 bits |
| IndependentWatchdog.Pow2 | Inc/HALAL/Services/Watchdog/Watchdog.hpp:30-34 | a power of two is at least 1 |
| IndependentWatchdog.HalvingsAtMost | Inc/HALAL/Services/Watchdog/Watchdog.hpp:30-34 | at most 512 * 2^j milliseconds need at most j halvings |
| IndependentWatchdog.PrescalerAtMostSix | Inc/HALAL/Services/Watchdog/Watchdog.hpp:21-34 | every period of at most 32 s needs a prescaler of at most 6 |
| IndependentWatchdog.ComputeInit | Inc/HALAL/Services/Watchdog/Watchdog.hpp:20-39 | the period is accepted exactly when it lies between 125 µs and 32 s; then the prescaler is the least number of halvings whose reload fits in 12 bits, and the window equals the reload |
| IndependentWatchdog.InitInRange | Inc/HALAL/Services/Watchdog/Watchdog.hpp:20-39 | an accepted period gives a prescaler of at most 6 and a reload within 12 bits |
| IndependentWatchdog.Watchdog.constructor | Inc/HALAL/Services/Watchdog/Watchdog.hpp:53-56 | the period is stored and nothing is started |
| IndependentWatchdog.Watchdog.Start | Inc/HALAL/Services/Watchdog/Watchdog.hpp:20-41 | start succeeds exactly for a period between 125 µs and 32 s, and then fills the handle with a prescaler of at most 6 and a 12-bit reload equal to the window; a refused period leaves the handle alone |
| PacketGeneration.FirstWithId | Inc/Packet_generation/Generator.py:2-6 | the index found holds the variable's id and no earlier entry does; none means no entry from there on has it |
| PacketGeneration.MeasurementSearch | Inc/Packet_generation/Generator.py:2-6 | none exactly when no entry has the id; otherwise the first entry that has it |
| PacketGeneration.SearchKeepsFirst | Inc/Packet_generation/Generator.py:2-6 | entries appended after a match do not change what is found |
| PacketGeneration.FirstWithIdPrefix | Inc/Packet_generation/Generator.py:2-6 | the same, for a search from any index |
| PacketGeneration.Prefix | Inc/Packet_generation/Generator.py:9-11 | split on '_' then [0]: a prefix of the name with no underscore, followed in the name by an underscore unless it is the whole name |
| PacketGeneration.PrefixOfJoined | Inc/Packet_generation/Generator.py:9-11 | a name without underscores, joined to anything by an underscore, splits back to the name |
| PacketGeneration.FileSearchFrom | Inc/Packet_generation/Generator.py:8-15 | the search from an index returns one of the files or an IndexError; the first file with the same initial wins, and files[0] is the fallback |
| PacketGeneration.FileSearchOutcome | Inc/Packet_generation/Generator.py:8-15 | the search fails exactly for an empty list, an empty packet prefix, or an empty file prefix met before a match |
| PacketGeneration.MeasurementFileSearch | Inc/Packet_generation/Generator.py:8-15 | the first file whose first segment starts like the packet's, files[0] when none does, and an indexing error exactly in the cases above |
| PacketGeneration.DescribeMeasurement | Inc/Packet_generation/Generator.py:47-55 | "Measurement not found" exactly when no entry has the id; otherwise the name and type of the first entry that has it |
| PacketGeneration.DescribePacket | Inc/Packet_generation/Generator.py:35-44 | fails with "Measurement not found" exactly when some variable has no measurement; otherwise keeps the packet's id, name and type and describes every variable, in order |
| BuildContext.BuildCtx.constructor | Inc/ST-LIB.hpp:29-36 | every domain starts empty, with value-initialised entries and null owners |
| BuildContext.BuildCtx.Span | Inc/ST-LIB.hpp:65-71 | exactly the first size entries of the domain |
| BuildContext.BuildCtx.OwnersSpan | Inc/ST-LIB.hpp:73-78 | exactly the owners of those entries |
| BuildContext.BuildCtx.Size | Inc/ST-LIB.hpp:80-83 | the length of both spans, at most the domain's capacity |
| BuildContext.BuildCtx.Add | Inc/ST-LIB.hpp:51-63 | a domain with room gets the entry and owner at index size, returns that index and grows by one, its spans gaining the new item; a full domain is an error and nothing changes; other domains never change |
| BuildContext.OwnerIndexOf | Inc/ST-LIB.hpp:182-192 | the first index whose owner is the device, and "Device not registered in domain" exactly when none is |
| BuildContext.FindsNewOwner | Inc/ST-LIB.hpp:182-192 | a device added for the first time is found at the index add gave it |
| BuildContext.FindsOldOwner | Inc/ST-LIB.hpp:182-192 | later additions do not move a device already registered |
| ADCDomain.PeripheralIndex | Inc/HALAL/Services/ADC/NewADC.hpp:168-180 | every peripheral has one of three slots, AUTO sharing ADC_1's |
| ADCDomain.ResolutionSupportedMeans | Inc/HALAL/Services/ADC/NewADC.hpp:252-257 | ADC_3 takes 12, 10 or 8 bits only; ADC_1 and ADC_2 take every resolution |
| ADCDomain.PreferenceScore | Inc/HALAL/Services/ADC/NewADC.hpp:294-320 | every score is at most 3, and AUTO scores 0 |
| ADCDomain.PreferenceOrder | Inc/HALAL/Services/ADC/NewADC.hpp:294-320 | above 12 bits ADC_1 beats ADC_2, which beats ADC_3; at 12 bits or fewer ADC_3 beats ADC_1, which beats ADC_2 |
| ADCDomain.BestIndex | Inc/HALAL/Services/ADC/NewADC.hpp:358-382 | the row the table search keeps matches the request (same pin, the named peripheral and channel, enough bits) |
| ADCDomain.BestIndexIsFirstBest | Inc/HALAL/Services/ADC/NewADC.hpp:358-382 | the search finds a row exactly when some row matches, and then the first among the highest-scoring matching rows |
| ADCDomain.CheckedMapping | Inc/HALAL/Services/ADC/NewADC.hpp:324-335 | an explicit mapping is kept exactly when its channel is valid, an internal channel is on the dedicated ADC and the resolution is supported |
| ADCDomain.ExplicitKept | Inc/HALAL/Services/ADC/NewADC.hpp:324-335 | a request naming both peripheral and channel resolves to them exactly when they pass the checks |
| ADCDomain.InternalGoesToDedicated | Inc/HALAL/Services/ADC/NewADC.hpp:337-356 | an internal channel with AUTO peripheral goes to ADC_3, or ADC_2 on a part without ADC3, and fails exactly when that ADC cannot take the resolution |
| ADCDomain.SearchPicksFirstBest | Inc/HALAL/Services/ADC/NewADC.hpp:358-388 | any other request resolves exactly when some table row matches, and then to the first of the best-scoring matching rows |
| ADCDomain.PA0Resolves | Inc/HALAL/Services/ADC/NewADC.hpp:269-292 | PA0 at 12 bits with AUTO peripheral and channel resolves to ADC_1 channel 16 |
| ADCDomain.ResolveMapping | Inc/HALAL/Services/ADC/NewADC.hpp:322-389 | the method's explicit, internal and table-search branches give exactly the resolution described above |
| ADCDomain.Resolutions | Inc/HALAL/Services/ADC/NewADC.hpp:404-407 | one resolution per request, in order |
| ADCDomain.CountOnPrefix | Inc/HALAL/Services/ADC/NewADC.hpp:440-443 | the number of requests on a peripheral never falls as more requests are seen |
| ADCDomain.Build | Inc/HALAL/Services/ADC/NewADC.hpp:391-467 | build succeeds exactly when there are at most 32 requests, each resolves and passes its checks with no sample rate, requests on one peripheral agree on resolution, prescaler and rate, at most 16 sit on one peripheral, and no two share a GPIO or a peripheral and channel; it then gives each request its configuration, in order |
| ADCDomain.Admit | Inc/HALAL/Services/ADC/NewADC.hpp:404-455 | one pass of the loop either finds a reason that refuses the whole list or extends the checked prefix by one request |
| ADCDomain.BuiltExtends | Inc/HALAL/Services/ADC/NewADC.hpp:404-465 | an accepted request that agrees with its peripheral's settings and clashes with no earlier request extends the checked prefix |
| ADCDomain.UpdateSlot | Inc/HALAL/Services/ADC/NewADC.hpp:423-443 | the first request on a peripheral fixes its settings; a later one must agree with them and keep the count within 16, or the list is refused |
| ADCDomain.CheckEntry | Inc/HALAL/Services/ADC/NewADC.hpp:405-419 | a request passes its own checks exactly when it resolves, its mapping passes the checks, and it asks for no sample rate |
| ADCDomain.CheckEarlier | Inc/HALAL/Services/ADC/NewADC.hpp:445-454 | no clash exactly when no earlier request has the same GPIO or the same peripheral and channel; a clash refuses the list |
| ADCDomain.SlotAgrees | Inc/HALAL/Services/ADC/NewADC.hpp:429-437 | agreeing with the first request on a peripheral is agreeing with every earlier request on it |
| ADCDomain.Pow2 | Inc/HALAL/Services/ADC/NewADC.hpp:478-490 | a power of two is at least 1 |
| ADCDomain.MaxRawIsAllOnes | Inc/HALAL/Services/ADC/NewADC.hpp:478-490 | the largest raw reading at each resolution is 2^bits - 1 |
| AnalogUtils.AdcResolutionBits | Inc/ST-LIB_LOW/Sensors/AnalogUtils.hpp:8-22 | the bits of a resolution agree with the ADC's own count and lie between 8 and 16 |
| AnalogUtils.AdcMaxValueIsMaxRaw | Inc/ST-LIB_LOW/Sensors/AnalogUtils.hpp:24-30 | adc_max_value equals the ADC's largest raw reading, 2^bits - 1 |
| AnalogUtils.RawTo12BitInRange | Inc/ST-LIB_LOW/Sensors/AnalogUtils.hpp:41-50 | an in-range reading converts to at most 4095 |
| AnalogUtils.RawTo12BitKeeps12 | Inc/ST-LIB_LOW/Sensors/AnalogUtils.hpp:43-45 | at 12 bits an in-range reading is unchanged |
| AnalogUtils.RawTo12BitScales | Inc/ST-LIB_LOW/Sensors/AnalogUtils.hpp:41-50 | an in-range reading is divided by 2^(bits - 12) above 12 bits and multiplied by 2^(12 - bits) below |
| AnalogUtils.DividesBy16 | Inc/ST-LIB_LOW/Sensors/AnalogUtils.hpp:46-48 | a 16-bit reading is divided by 16 |
| AnalogUtils.DividesBy4 | Inc/ST-LIB_LOW/Sensors/AnalogUtils.hpp:46-48 | a 14-bit reading is divided by 4 |
| AnalogUtils.MultipliesBy4 | Inc/ST-LIB_LOW/Sensors/AnalogUtils.hpp:49 | a 10-bit reading is multiplied by 4 |
| AnalogUtils.MultipliesBy16 | Inc/ST-LIB_LOW/Sensors/AnalogUtils.hpp:49 | an 8-bit reading is multiplied by 16 |
| SPIConfigTypes.Validate | Inc/HALAL/Models/SPI/SPIConfig.hpp:178-196 | no complaint exactly when CRC, if enabled, has an odd polynomial from 1 to 0xFFFF and both idleness counts are at most 15; a zero polynomial with CRC on gives the range complaint first |
| SPIConfigTypes.DefaultValid | Inc/HALAL/Models/SPI/SPIConfig.hpp:137-170 | the default configuration passes the check |
| SPIConfigTypes.TranslateNssMode | Inc/HALAL/Models/SPI/SPIConfig.hpp:199-206 | software NSS exactly for the software mode; hardware NSS is an output exactly on a master and an input exactly on a slave |
| SPIConfigTypes.TranslationsInjective | Inc/HALAL/Models/SPI/SPIConfig.hpp:199-282 | distinct enumerated settings translate to distinct HAL constants, so no setting is lost |
| SPIConfigTypes.TranslateDataSize | Inc/HALAL/Models/SPI/SPIConfig.hpp:220-223 | the HAL value is the data size minus one, from 3 to 31 |
| SPIConfigTypes.TranslateFifoThreshold | Inc/HALAL/Models/SPI/SPIConfig.hpp:239-242 | the FIFO threshold minus one, shifted into bits 8:5 |
| SPIConfigTypes.TranslateSsIdleness | Inc/HALAL/Models/SPI/SPIConfig.hpp:252-256 | the cycle count clamped to 15 |
| SPIConfigTypes.TranslateInterdataIdleness | Inc/HALAL/Models/SPI/SPIConfig.hpp:258-262 | the clamped cycle count placed in bits 7:4 |
| SPIConfigTypes.TranslateCrcLength | Inc/HALAL/Models/SPI/SPIConfig.hpp:284-290 | DATASIZE exactly for the data-size length; otherwise the bit count minus one, shifted into bits 20:16 |
| SPIConfigTypes.TranslationsRoundTrip | Inc/HALAL/Models/SPI/SPIConfig.hpp:220-290 | for validated configurations the data size, FIFO threshold, idleness counts and CRC length can be read back from their HAL values |
| SPIDomain.PeripheralIndex | Inc/HALAL/Models/SPI/SPI2.hpp:638-668 | each of the six peripherals has its own slot of used_peripherals, below 6 |
| SPIDomain.PeripheralIndexInjective | Inc/HALAL/Models/SPI/SPI2.hpp:638-668 | no two peripherals share a slot |
| SPIDomain.GetAf | Inc/HALAL/Models/SPI/SPI2.hpp:78-105 | the alternate function is AF5, AF6, AF7 or AF8, and always AF5 on SPI1, SPI4 and SPI5 |
| SPIDomain.GetAfBySamePin | Inc/HALAL/Models/SPI/SPI2.hpp:74-76 | get_af compares pins by port and pin only, so two descriptions of one pin get the same alternate function |
| SPIDomain.GetAfExamples | Inc/HALAL/Models/SPI/SPI2.hpp:78-105 | PB4 takes AF7 on SPI2, AF6 on SPI3, AF8 on SPI6 and AF5 elsewhere; a port-D pin takes AF5 everywhere |
| SPIDomain.Pow2 | Inc/HALAL/Models/SPI/SPI2.hpp:108-127 | a power of two is at least 1 |
| SPIDomain.PrescalerFlag | Inc/HALAL/Models/SPI/SPI2.hpp:108-127 | a flag is found only for a power of two from 2 to 256, and it is the exponent minus one |
| SPIDomain.PrescalerFlagOfPow2 | Inc/HALAL/Models/SPI/SPI2.hpp:108-127 | every power of two from 2 to 256 has its flag |
| SPIDomain.LeastFitFromIsLeast | Src/HALAL/Models/SPI/SPI2.cpp:2-14 | the search from exponent k finds the first exponent that fits, or 9 when none up to 8 does |
| SPIDomain.Pow2Monotone | Src/HALAL/Models/SPI/SPI2.cpp:5-6 | larger exponents give larger powers |
| SPIDomain.FitsMonotone | Src/HALAL/Models/SPI/SPI2.cpp:5-6 | once a prescaler brings the clock within the maximum baud rate, every larger one does |
| SPIDomain.PrescalerIsSmallestFit | Src/HALAL/Models/SPI/SPI2.cpp:2-14 | a prescaler is found exactly when 256 fits, and it is the smallest power of two from 2 that brings the clock within the maximum baud rate |
| SPIDomain.PrescalerExamples | Src/HALAL/Models/SPI/SPI2.cpp:2-14 | a 64 MHz clock gives prescaler 4 for a 20 MHz maximum and 8 for an 8 MHz maximum |
| SPIDomain.CalculatePrescaler | Src/HALAL/Models/SPI/SPI2.cpp:2-14 | the doubling loop returns exactly that prescaler's flag, or the error past 256 |
| SPIDomain.SpiGpios | Inc/HALAL/Models/SPI/SPI2.hpp:187-231 | the device's pins are accepted exactly when SCK, MISO, MOSI and the NSS pin (if any) are each accepted as GPIOs, and each becomes its own request; the first refusal is the error |
| SPIDomain.MakeDevice | Inc/HALAL/Models/SPI/SPI2.hpp:187-231 | a device is made exactly when its pins are accepted, the peripheral has a DMA instance (not SPI6), the configuration validates, and an NSS pin is given exactly in hardware NSS mode |
| SPIDomain.SpiGpioShape | Inc/HALAL/Models/SPI/SPI2.hpp:193-196 | each pin request is an alternate push-pull GPIO on the pin's own port and pin, with get_af's alternate function |
| SPIDomain.DeviceNssTranslation | Inc/HALAL/Models/SPI/SPI2.hpp:187-231 | a device with an NSS pin drives it in hardware, as an output on a master and an input on a slave; one without manages it in software |
| SPIDomain.Build | Inc/HALAL/Models/SPI/SPI2.hpp:616-671 | build succeeds exactly when no peripheral is used twice, and then copies every entry into its configuration |
| SPIDomain.DistinctCount | Inc/HALAL/Models/SPI/SPI2.hpp:616-671 | a list without repeated peripherals has as many peripherals as entries |
| SPIDomain.AtMostSix | Inc/HALAL/Models/SPI/SPI2.hpp:131 | a list build accepts has at most six entries, one per peripheral |
| SPIDomain.SubsetCard | Inc/HALAL/Models/SPI/SPI2.hpp:131 | a subset of the peripherals is no larger than the set |
| DFSDMDomain.Order | Inc/HALAL/Services/DFSDM/DFSDM.hpp:32-39 | the FORD code is at most 5, and 0 exactly for FastSinc |
| DFSDMDomain.TypeOfOrder | Inc/HALAL/Services/DFSDM/DFSDM.hpp:336-340 | the filter type read back from a FORD code has that code |
| DFSDMDomain.OrderRoundTrip | Inc/HALAL/Services/DFSDM/DFSDM.hpp:32-39 | reading the type back from its code gives the type |
| DFSDMDomain.HigherOrderStricter | Inc/HALAL/Services/DFSDM/DFSDM.hpp:142-157 | a ratio a higher filter order accepts is accepted by every lower order |
| DFSDMDomain.ChannelFromMeans | Inc/HALAL/Services/DFSDM/DFSDM.hpp:131-140 | the scan from row k finds a channel exactly when a later row lists the pin, and returns that row's channel |
| DFSDMDomain.TableChannels | Inc/HALAL/Services/DFSDM/DFSDM.hpp:123-129 | every channel in the pin table is one of the eight DFSDM channels |
| DFSDMDomain.ChannelOfMeans | Inc/HALAL/Services/DFSDM/DFSDM.hpp:123-140 | a pin has a channel exactly when the table lists it, and the channel is the table's, below 8 |
| DFSDMDomain.GetChannel | Inc/HALAL/Services/DFSDM/DFSDM.hpp:131-140 | the loop finds the pin's channel exactly when the table lists it, and is an error otherwise |
| DFSDMDomain.MakeFilter | Inc/HALAL/Services/DFSDM/DFSDM.hpp:166-200 | a filter is made exactly when the pin has a channel, the integrator is not 0 and the oversampling suits the filter type; the entry keeps that channel and the requested settings |
| DFSDMDomain.MakeFilterAsWritten | Inc/HALAL/Services/DFSDM/DFSDM.hpp:173-191 | the constructor as written accepts exactly the same requests, but every entry's offset is 0, whatever was asked |
| DFSDMDomain.OffsetDropped | Inc/HALAL/Services/DFSDM/DFSDM.hpp:166-191 | a PC1 filter asked for offset 5 should record 5 on channel 0, and as written records 0 |
| DFSDMDomain.Latency | Inc/HALAL/Services/DFSDM/DFSDM.hpp:213-229 | the latency is computed in 32-bit arithmetic and so lies below 2^32 |
| DFSDMDomain.SmallProduct | Inc/HALAL/Services/DFSDM/DFSDM.hpp:213-229 | a ratio of at most 1024 times a factor of at most 259 stays within 1024 * 259 |
| DFSDMDomain.LatencyBounds | Inc/HALAL/Services/DFSDM/DFSDM.hpp:213-229 | for an accepted filter nothing wraps: the latency is the ratio times its factor plus its extra, equals ratio * integrator in fast continuous mode, and lies between that and ratio * (integrator + 4) + 5 |
| DFSDMDomain.LatencyGrowsWithOversampling | Inc/HALAL/Services/DFSDM/DFSDM.hpp:213-229 | a larger oversampling ratio never shortens the conversion |
| DFSDMDomain.MakeFltfcrFields | Inc/HALAL/Services/DFSDM/DFSDM.hpp:230-236 | FLTFCR fits 32 bits and its fields read back as the filter order, oversampling - 1 and integrator - 1 |
| DFSDMDomain.ReadDataDistinguishes | Inc/HALAL/Services/DFSDM/DFSDM.hpp:438-444 | the no-data value is returned exactly while the end-of-conversion flag is clear, and never collides with a 24-bit result |
| DFSDMDomain.ThresholdRegister | Inc/HALAL/Services/DFSDM/DFSDM.hpp:410-416 | the threshold register has the value's low 16 bits in bits 31:16 in fast mode and its low 24 bits in bits 31:8 otherwise |
| DFSDMDomain.OversamplingFitsAgrees | Inc/HALAL/Services/DFSDM/DFSDM.hpp:332-340 | modify_oversampling accepts exactly the ratios the constructor accepts for the filter type in FORD |
| DFSDMDomain.FilterOrderFitsAsWritten | Inc/HALAL/Services/DFSDM/DFSDM.hpp:366-371 | the check as written treats the FOSR field as if it were the ratio: for a field up to 1024 it accepts exactly a field of 0 or one the type's ratio limit takes, so it never refuses a type whose limit the ratio (FOSR + 1) meets, but also accepts a ratio one over the limit |
| DFSDMDomain.FilterOrderOffByOne | Inc/HALAL/Services/DFSDM/DFSDM.hpp:366-371 | as written, a Sinc3 filter with ratio 216 may switch to Sinc4 and one with ratio 74 to Sinc5, although both ratios are over the new limit |
| DFSDMDomain.Filter.constructor | Inc/HALAL/Services/DFSDM/DFSDM.hpp:230-257 | the filter starts enabled, with FLTFCR's fields from make_fltfcr, DMA as requested, the requested sync and mode, and zero thresholds |
| DFSDMDomain.Filter.Enable | Inc/HALAL/Services/DFSDM/DFSDM.hpp:302-305 | DFEN is set and reported set |
| DFSDMDomain.Filter.Disable | Inc/HALAL/Services/DFSDM/DFSDM.hpp:307-310 | DFEN is clear and reported clear |
| DFSDMDomain.Filter.Start | Inc/HALAL/Services/DFSDM/DFSDM.hpp:312-316 | the filter is enabled and a regular conversion started |
| DFSDMDomain.Filter.ModifySyncConversion | Inc/HALAL/Services/DFSDM/DFSDM.hpp:318-326 | RSYNC takes the new value and DFEN ends as it began |
| DFSDMDomain.Filter.ModifyMode | Inc/HALAL/Services/DFSDM/DFSDM.hpp:327-330 | RCONT takes the new value |
| DFSDMDomain.Filter.ModifyOversampling | Inc/HALAL/Services/DFSDM/DFSDM.hpp:332-351 | the ratio is accepted exactly when it suits the filter order in FORD; then FOSR holds the ratio minus one, otherwise FOSR is unchanged; DFEN ends as it began |
| DFSDMDomain.Filter.ModifyIntegrator | Inc/HALAL/Services/DFSDM/DFSDM.hpp:353-364 | the integrator is accepted exactly when it is not 0; then IOSR holds it minus one, otherwise IOSR is unchanged; DFEN ends as it began |
| DFSDMDomain.Filter.ModifyFilterOrder | Inc/HALAL/Services/DFSDM/DFSDM.hpp:366-382 | the corrected check: the new order is accepted exactly when the current ratio (FOSR + 1) suits it, and then FORD is its code; DFEN ends as it began |
| DFSDMDomain.Filter.ModifyWatchdogLow | Inc/HALAL/Services/DFSDM/DFSDM.hpp:406-420 | the low threshold register holds the value in the current mode's field; DFEN ends as it began |
| DFSDMDomain.Filter.ModifyWatchdogHigh | Inc/HALAL/Services/DFSDM/DFSDM.hpp:422-436 | the corrected write: the high threshold register holds the value in the current mode's field and the low one is kept; DFEN ends as it began |
| DFSDMDomain.Filter.ActivateDmaReading | Inc/HALAL/Services/DFSDM/DFSDM.hpp:446-455 | RDMAEN is set and DFEN ends as it began |
| DFSDMDomain.Filter.ActivateCpu | Inc/HALAL/Services/DFSDM/DFSDM.hpp:457-466 | RDMAEN is clear and DFEN ends as it began |
| DFSDMDomain.HighThresholdAsWritten | Inc/HALAL/Services/DFSDM/DFSDM.hpp:422-436 | as written, the high write clears the low register's threshold field and then writes the high register |
| DFSDMDomain.HighThresholdClearsLow | Inc/HALAL/Services/DFSDM/DFSDM.hpp:406-436 | after the low threshold is set to 0x1234, setting the high one as written leaves the low register at 0 |
| DFSDMDomain.SetThresholds | Inc/HALAL/Services/DFSDM/DFSDM.hpp:406-436 | setting the low and then the high threshold keeps both |
| DFSDMClockDomain.FindClkPin | Inc/HALAL/Services/DFSDM/DFSDM.hpp:552-563 | the search reports a pin exactly when the table lists its port and pin |
| DFSDMClockDomain.ClkPinsAsWrittenMissPins | Inc/HALAL/Services/DFSDM/DFSDM.hpp:545-551 | the table as written stores pin numbers where masks are compared, so PC2 is refused, PC1 accepted, and no other row names a real pin |
| DFSDMClockDomain.ClkPinsAreTheNamedPins | Inc/HALAL/Services/DFSDM/DFSDM.hpp:545-551 | the corrected table accepts exactly PC2, PB0, PE9, PD3 and PD10 |
| DFSDMClockDomain.ClkAf | Inc/HALAL/Services/DFSDM/DFSDM.hpp:565-569 | the corrected choice: AF4 exactly for PC2, AF6 for every other pin |
| DFSDMClockDomain.ClkAfAsWritten | Inc/HALAL/Services/DFSDM/DFSDM.hpp:565-569 | dfsdm_clk_af as written: AF4 exactly for port C with pin value 2, AF6 otherwise; it differs from the corrected choice exactly on PC1 and PC2 |
| DFSDMClockDomain.ClkAfAsWrittenSwapped | Inc/HALAL/Services/DFSDM/DFSDM.hpp:565-569 | as written, PC2 gets AF6 and PC1 gets AF4, where PC2 should get AF4 |
| DFSDMClockDomain.MakeClockOut | Inc/HALAL/Services/DFSDM/DFSDM.hpp:580-588 | a clock-out is made exactly when its GPIO request is accepted, the pin is in the table and the divider is at least 4; the request keeps the divider and the pin, on dfsdm_clk_af's function |
| DFSDMClockDomain.Build | Inc/HALAL/Services/DFSDM/DFSDM.hpp:600-610 | build accepts exactly one clock-out and copies it |
| DFSDMClockDomain.ClockOut.constructor | Inc/HALAL/Services/DFSDM/DFSDM.hpp:650-657 | the instance takes the configured divider and runs init, so the output runs with CKOUTDIV = divider - 1 |
| DFSDMClockDomain.ClockOut.Init | Inc/HALAL/Services/DFSDM/DFSDM.hpp:615-627 | the DFSDM clock is on, the kernel clock is selected, CKOUTDIV holds the divider minus one and the output is enabled |
| DFSDMClockDomain.ClockOut.Disable | Inc/HALAL/Services/DFSDM/DFSDM.hpp:628-631 | the output is disabled and reported disabled |
| DFSDMClockDomain.ClockOut.Enable | Inc/HALAL/Services/DFSDM/DFSDM.hpp:632-635 | the output is enabled and reported enabled |
| DFSDMClockDomain.ClockOut.ChangeDivider | Inc/HALAL/Services/DFSDM/DFSDM.hpp:636-644 | a divider below 4 is refused and leaves every field of the instance as it was; any other restarts the output with that divider |
| DFSDMClockDomain.OutputAtMostQuarter | Inc/HALAL/Services/DFSDM/DFSDM.hpp:585-587 | a running clock-out never exceeds a quarter of the kernel clock |
| RegisterBits.SetBitsSpec | Inc/HALAL/Services/Time/TimerWrapper.hpp:154-156 | SET_BIT makes the mask's bits 1 and keeps every other bit |
| RegisterBits.ClearBitsSpec | Inc/HALAL/Services/Time/TimerWrapper.hpp:157-159 | CLEAR_BIT makes the mask's bits 0 and keeps every other bit |
| RegisterBits.ModifyReg | Inc/HALAL/Services/Time/TimerWrapper.hpp:254-265 | MODIFY_REG puts the value in the field and keeps every bit outside it |
| RegisterBits.ClearUndoesSet | Inc/HALAL/Services/Time/TimerWrapper.hpp:154-159 | counter_disable after counter_enable restores a register whose enable bit was clear |
| RegisterBits.CcmrUpdateField | Inc/HALAL/Services/Time/TimerWrapper.hpp:291-297 | the channel's mode field ends holding the requested mode |
| RegisterBits.CcmrUpdateCcs | Inc/HALAL/Services/Time/TimerWrapper.hpp:294-295 | the channel's CCxS field ends cleared, so the channel is an output |
| RegisterBits.CcmrUpdateRest | Inc/HALAL/Services/Time/TimerWrapper.hpp:291-340 | every bit outside the channel's mode and CCxS fields keeps its value |
| RegisterBits.CcmrUpdateSpec | Inc/HALAL/Services/Time/TimerWrapper.hpp:291-340 | together: the mode lands in its field, CCxS is cleared and the rest of CCMR is kept |
| RegisterBits.CcerUpdatePolarity | Inc/HALAL/Services/Time/TimerWrapper.hpp:298-342 | the channel's polarity field ends holding the requested polarity |
| RegisterBits.CcerUpdateEnable | Inc/HALAL/Services/Time/TimerWrapper.hpp:279-342 | the copy's enable bit is not touched by the polarity writes |
| RegisterBits.CcerUpdateNPolarity | Inc/HALAL/Services/Time/TimerWrapper.hpp:348-359 | with a complementary output, the negated polarity field holds the requested value |
| RegisterBits.CcerUpdateNEnable | Inc/HALAL/Services/Time/TimerWrapper.hpp:348-359 | with a complementary output, CCxNE ends cleared |
| RegisterBits.CcerUpdateRest | Inc/HALAL/Services/Time/TimerWrapper.hpp:298-342 | without a complementary output, every bit outside the polarity field keeps its value |
| RegisterBits.CcerUpdateSpec | Inc/HALAL/Services/Time/TimerWrapper.hpp:279-359 | together: each CCER field the update writes ends as intended and the enable bit is kept |
| RegisterBits.Cr2UpdateIdle | Inc/HALAL/Services/Time/TimerWrapper.hpp:367-390 | OISx ends holding the requested idle state |
| RegisterBits.Cr2UpdateNIdle | Inc/HALAL/Services/Time/TimerWrapper.hpp:367-381 | with a complementary output, OISxN ends holding the requested negated idle state |
| RegisterBits.Cr2UpdateRestBoth | Inc/HALAL/Services/Time/TimerWrapper.hpp:367-381 | with both fields written, every other CR2 bit keeps its value |
| RegisterBits.Cr2UpdateRestOne | Inc/HALAL/Services/Time/TimerWrapper.hpp:382-390 | with only OISx written, every other CR2 bit keeps its value |
| RegisterBits.Cr2UpdateSpec | Inc/HALAL/Services/Time/TimerWrapper.hpp:367-390 | together: the idle states land in their fields and the rest of CR2 is kept |
| TimerWrapper.OnApb1MatchesRcc | Inc/HALAL/Services/Time/TimerWrapper.hpp:71-81 | the corrected is_on_APB1 holds exactly for the timers whose clock is enabled in an APB1 register (Inc/HALAL/Models/TimerDomain/TimerDomain.hpp:29-47); the written one differs from it on TIM23 and TIM24 only |
| TimerWrapper.Is32BitIsThePool | Inc/HALAL/Services/Time/TimerWrapper.hpp:34-40 | an accepted Any32bit request is served by a 32-bit timer, and the 32-bit timers are exactly the pool Any32bit draws from |
| TimerWrapper.CcxnMatchesPinTables | Inc/HALAL/Services/Time/TimerWrapper.hpp:84-101 | a timer has a complementary output on channels 1 to 4 exactly where its pin table lists a negated-channel pin |
| TimerWrapper.NegatedRow | Inc/HALAL/Services/Time/TimerWrapper.hpp:84-101 | a complementary output's pin-table row exists and is the negated use of that channel |
| TimerWrapper.NoNegatedRow | Inc/HALAL/Services/Time/TimerWrapper.hpp:84-101 | any other timer and channel has no negated-channel row |
| TimerWrapper.ClassificationsAgree | Inc/HALAL/Services/Time/TimerWrapper.hpp:34-101 | the timers that can count down are slave instances, the 32-bit timers count down and sit on APB1, break timers sit on APB2, and only break timers have complementary outputs |
| TimerWrapper.ClockFrequency | Inc/HALAL/Services/Time/TimerWrapper.hpp:103-117 | the corrected frequency: the timer's own APB clock, doubled modulo 2^32 when that bus is prescaled |
| TimerWrapper.ClockFrequencyAsWritten | Inc/HALAL/Services/Time/TimerWrapper.hpp:103-117 | as written, the bus is chosen with the written is_on_APB1; on the APB2 branch with no prescaler the result is the APB2 clock |
| TimerWrapper.ClockFrequencyAsWrittenMisreadsTim23 | Inc/HALAL/Services/Time/TimerWrapper.hpp:71-117 | TIM23 with APB1 at 100 MHz and APB2 at 120 MHz reports 120 MHz as written, where it runs at 100 MHz |
| TimerWrapper.ClockDoubling | Inc/HALAL/Services/Time/TimerWrapper.hpp:107-114 | a prescaled bus below 2^31 Hz gives twice its clock; from 2^31 Hz the uint32 doubling wraps below the bus clock |
| TimerWrapper.ApplyCountingMode | Inc/HALAL/Services/Time/TimerWrapper.hpp:248-270 | set_counting_mode keeps every CR1 bit outside CMS and DIR; edge-aligned modes clear CMS and set DIR to the direction, centre-aligned modes write CMS as 01, 10 or 11 and keep DIR |
| TimerWrapper.CountingModeRoundTrip | Inc/HALAL/Services/Time/TimerWrapper.hpp:248-270 | the mode set is the mode read back from CR1, whatever CR1 held before |
| TimerWrapper.CcsBitsApart | Inc/HALAL/Services/Time/TimerWrapper.hpp:291-340 | each channel's CCxS bits lie outside its mode field |
| TimerWrapper.OcCcmrMode | Inc/HALAL/Services/Time/TimerWrapper.hpp:291-340 | the corrected CCMR update puts the mode in the channel's own OCxM field |
| TimerWrapper.OcCcmrCcs | Inc/HALAL/Services/Time/TimerWrapper.hpp:294-322 | the channel's CCxS field ends cleared |
| TimerWrapper.OcCcmrRest | Inc/HALAL/Services/Time/TimerWrapper.hpp:291-340 | every CCMR bit outside the channel's two fields keeps its value |
| TimerWrapper.OcCcmrSpec | Inc/HALAL/Services/Time/TimerWrapper.hpp:291-340 | together: mode in place, CCxS cleared, the rest of CCMR kept |
| TimerWrapper.OcCcmrAsWrittenRightOnOddAndTwo | Inc/HALAL/Services/Time/TimerWrapper.hpp:291-317 | on channels 1, 2, 3 and 5 the code as written gives the corrected CCMR |
| TimerWrapper.OcCcmrAsWrittenMissesChannel4 | Inc/HALAL/Services/Time/TimerWrapper.hpp:318-324 | configuring channel 4 in PWM mode 2 after channel 3 in PWM mode 1 leaves CCMR2 at 0x70 as written, where 0x7060 is meant |
| TimerWrapper.OcCcmrAsWrittenMissesChannel6 | Inc/HALAL/Services/Time/TimerWrapper.hpp:335-340 | channel 6 fails the same way in CCMR3 |
| TimerWrapper.OcCcerPolarity | Inc/HALAL/Services/Time/TimerWrapper.hpp:298-342 | the channel's polarity lands in its CCxP field |
| TimerWrapper.OcCcerEnable | Inc/HALAL/Services/Time/TimerWrapper.hpp:279-292 | CCxE keeps the value read before it was cleared, since CCER is written back from that copy |
| TimerWrapper.OcCcerNPolarity | Inc/HALAL/Services/Time/TimerWrapper.hpp:348-359 | a complementary output gets its polarity in CCxNP |
| TimerWrapper.OcCcerNEnable | Inc/HALAL/Services/Time/TimerWrapper.hpp:348-359 | a complementary output ends with CCxNE clear |
| TimerWrapper.OcCcerRest | Inc/HALAL/Services/Time/TimerWrapper.hpp:298-342 | without a complementary output nothing but CCxP changes |
| TimerWrapper.OcCcerSpec | Inc/HALAL/Services/Time/TimerWrapper.hpp:279-359 | together: the CCER copy's polarity and negated-output fields end as intended and CCxE is restored |
| TimerWrapper.OcCr2Idle | Inc/HALAL/Services/Time/TimerWrapper.hpp:367-390 | on a break timer OISx takes the idle state |
| TimerWrapper.OcCr2NIdle | Inc/HALAL/Services/Time/TimerWrapper.hpp:367-381 | on channels 1 to 3 OISxN takes the negated idle state |
| TimerWrapper.OcCr2Rest | Inc/HALAL/Services/Time/TimerWrapper.hpp:382-390 | on channels 4 to 6 nothing but OISx changes |
| TimerWrapper.OcCr2Spec | Inc/HALAL/Services/Time/TimerWrapper.hpp:367-390 | together: the idle states land in their fields and nothing else changes |
| TimerWrapper.OutputCompareCopies | Inc/HALAL/Services/Time/TimerWrapper.hpp:273-392 | the three register copies the method builds are the CCMR, CCER and CR2 updates above |
| TimerWrapper.IrqnSharedOnlyByTim13AndTim8 | Inc/HALAL/Models/TimerDomain/TimerDomain.hpp:247-260 | two timer slots share an interrupt line only for TIM13 and TIM8 |
| TimerWrapper.IrqnOfTimers | Inc/HALAL/Models/TimerDomain/TimerDomain.hpp:247-260 | TIM1's slot has TIM1_UP_IRQn, TIM8 and TIM13 share TIM8_UP_TIM13_IRQn, TIM2 has TIM2_IRQn |
| TimerWrapper.Nvic.constructor | Inc/HALAL/Models/TimerDomain/TimerDomain.hpp:247-260 | no interrupt line starts enabled |
| TimerWrapper.CallbackTable.constructor | Inc/HALAL/Models/TimerDomain/TimerDomain.hpp:247-260 | every timer slot starts with no callback and no data |
| TimerWrapper.Registers.constructor | Inc/HALAL/Services/Time/TimerWrapper.hpp:29-32 | the timer's registers start at their reset value 0 |
| TimerWrapper.Registers.DisableChannel | Inc/HALAL/Services/Time/TimerWrapper.hpp:291-336 | the channel's CCxE is cleared and nothing else |
| TimerWrapper.Registers.WriteOutputCompare | Inc/HALAL/Services/Time/TimerWrapper.hpp:394-410 | CR2, the channel's CCMR and CCER take the copies, the channel's CCR the pulse, and the other CCMRs keep their values |
| TimerWrapper.Registers.SetCcmr | Inc/HALAL/Services/Time/TimerWrapper.hpp:395-401 | only the CCMR holding the channel is written |
| TimerWrapper.Wrapper.constructor | Inc/HALAL/Services/Time/TimerWrapper.hpp:29-32 | the wrapper refers to its timer's registers, slot, interrupt controller and callback table |
| TimerWrapper.Wrapper.CounterEnable | Inc/HALAL/Services/Time/TimerWrapper.hpp:154-156 | CEN is set and the rest of CR1 kept |
| TimerWrapper.Wrapper.CounterDisable | Inc/HALAL/Services/Time/TimerWrapper.hpp:157-159 | CEN is cleared and the rest of CR1 kept |
| TimerWrapper.Wrapper.ClearUpdateInterruptFlag | Inc/HALAL/Services/Time/TimerWrapper.hpp:161-163 | UIF is cleared |
| TimerWrapper.Wrapper.EnableUpdateInterrupt | Inc/HALAL/Services/Time/TimerWrapper.hpp:166-168 | UIE is set |
| TimerWrapper.Wrapper.DisableUpdateInterrupt | Inc/HALAL/Services/Time/TimerWrapper.hpp:169-171 | UIE is cleared |
| TimerWrapper.Wrapper.EnableNvic | Inc/HALAL/Services/Time/TimerWrapper.hpp:174-176 | the slot's interrupt line joins the enabled lines |
| TimerWrapper.Wrapper.DisableNvic | Inc/HALAL/Services/Time/TimerWrapper.hpp:177-179 | the slot's interrupt line leaves the enabled lines |
| TimerWrapper.Wrapper.EnableUpdateEvent | Inc/HALAL/Services/Time/TimerWrapper.hpp:187-189 | UDIS is cleared |
| TimerWrapper.Wrapper.DisableUpdateEvent | Inc/HALAL/Services/Time/TimerWrapper.hpp:194-196 | UDIS is set |
| TimerWrapper.Wrapper.BreakInterruptEnable | Inc/HALAL/Services/Time/TimerWrapper.hpp:199-203 | on TIM1 and TIM8 only, BIE is set |
| TimerWrapper.Wrapper.BreakInterruptDisable | Inc/HALAL/Services/Time/TimerWrapper.hpp:204-208 | on TIM1 and TIM8 only, BIE is cleared |
| TimerWrapper.Wrapper.SetOnePulseMode | Inc/HALAL/Services/Time/TimerWrapper.hpp:211-213 | OPM is set |
| TimerWrapper.Wrapper.SetMultiInterruptMode | Inc/HALAL/Services/Time/TimerWrapper.hpp:214-216 | OPM is cleared |
| TimerWrapper.Wrapper.SetPrescaler | Inc/HALAL/Services/Time/TimerWrapper.hpp:225-227 | PSC holds the 16-bit prescaler |
| TimerWrapper.Wrapper.GetPrescaler | Inc/HALAL/Services/Time/TimerWrapper.hpp:449-451 | the low 16 bits of PSC |
| TimerWrapper.Wrapper.GetPeriod | Inc/HALAL/Services/Time/TimerWrapper.hpp:452-454 | ARR |
| TimerWrapper.Wrapper.Configure16Bit | Inc/HALAL/Services/Time/TimerWrapper.hpp:239-245 | ARR holds the period, the timer's slot holds the callback and its data, and the counter is enabled |
| TimerWrapper.Wrapper.Configure32Bit | Inc/HALAL/Services/Time/TimerWrapper.hpp:229-237 | the same with a 32-bit period, on 32-bit timers only |
| TimerWrapper.Wrapper.SetCountingMode | Inc/HALAL/Services/Time/TimerWrapper.hpp:248-270 | on timers that can count down, CR1 takes the counting mode, and the mode reads back |
| TimerWrapper.Wrapper.ConfigOutputCompareChannel | Inc/HALAL/Services/Time/TimerWrapper.hpp:272-411 | the corrected configuration: CR2, the channel's CCMR and CCER become the updates above, the channel's CCR the pulse, and the other CCMRs are kept |
| TimerWrapper.Wrapper.SetOutputComparePreloadEnable | Inc/HALAL/Services/Time/TimerWrapper.hpp:413-429 | the channel's OCxPE is set in its own CCMR and the other CCMRs are kept |
| TimerWrapper.Wrapper.SetCaptureCompare | Inc/HALAL/Services/Time/TimerWrapper.hpp:431-446 | the channel's CCR holds the value |
| TimerWrapper.SharedLineDisablesBoth | Inc/HALAL/Services/Time/TimerWrapper.hpp:174-179 | disabling TIM13's interrupt line also disables TIM8's, the line they share |
| TimerDomain.IdxMapMatchesSlots | Inc/HALAL/Models/TimerDomain/TimerDomain.hpp:173-200 | the slot map is a bijection from the sixteen timer numbers onto slots 0..15, inverse to the handle tables' order, and gives 0xFF to every other number below 25 |
| TimerDomain.IdxMapInjective | Inc/HALAL/Models/TimerDomain/TimerDomain.hpp:173-200 | distinct timers get distinct slots |
| TimerDomain.OperationModeOf | Inc/HALAL/Models/TimerDomain/TimerDomain.hpp:290-304 | a PWM or encoder pin is an alternate-function pin, an unused pin an input |
| TimerDomain.PullOf | Inc/HALAL/Models/TimerDomain/TimerDomain.hpp:306-320 | encoder and input-capture pins pull up and no timer pin pulls down |
| TimerDomain.SpeedOf | Inc/HALAL/Models/TimerDomain/TimerDomain.hpp:322-336 | every timer pin is configured at low speed |
| TimerDomain.TimPins | Inc/HALAL/Models/TimerDomain/TimerDomain.hpp:861-887 | only numbers that name a timer have pin rows |
| TimerDomain.FirstMatch | Inc/HALAL/Models/TimerDomain/TimerDomain.hpp:906-920 | the search finds an alternate function exactly when some row from the start point serves the pin, and it is the first such row's |
| TimerDomain.GpioAf | Inc/HALAL/Models/TimerDomain/TimerDomain.hpp:603-925 | get_gpio_af succeeds exactly for a specific, non-basic timer, a channel other than the bare negation flag and a pin some row serves; the result is the first serving row's alternate function |
| TimerDomain.FindGpioAf | Inc/HALAL/Models/TimerDomain/TimerDomain.hpp:603-925 | the row-scanning loop returns what GpioAf specifies, including every error |
| TimerDomain.GpioAfAsWrittenIgnoresPin | Inc/HALAL/Models/TimerDomain/TimerDomain.hpp:906-920 | matching rows by use alone gives PC12 on TIM15 channel 1 the AF4 of PA2, where the pin's own row says AF2 |
| TimerDomain.GpioAfAsWrittenMisplacesBreak | Inc/HALAL/Models/TimerDomain/TimerDomain.hpp:912-915 | matching by use alone gives PA12 as a TIM1 break input AF1 instead of its row's AF12 |
| TimerDomain.GpioAfAsWrittenAcceptsUnlisted | Inc/HALAL/Models/TimerDomain/TimerDomain.hpp:906-923 | matching by use alone accepts PC0 for TIM1 channel 1, which no TIM1 row lists |
| TimerDomain.FirstUseAt | Inc/HALAL/Models/TimerDomain/TimerDomain.hpp:906-920 | the as-written search returns the first row whose use matches |
| TimerDomain.FirstMatchAt | Inc/HALAL/Models/TimerDomain/TimerDomain.hpp:906-920 | the corrected search returns the first row that serves the pin |
| TimerDomain.PinGpio | Inc/HALAL/Models/TimerDomain/TimerDomain.hpp:344-351 | a pin's GPIO request succeeds exactly when the table gives an alternate function the pin supports, and carries the pin's port, pin, that function and the mode of its use |
| TimerDomain.PinGpios | Inc/HALAL/Models/TimerDomain/TimerDomain.hpp:354-376 | the GPIO requests of all pins succeed exactly when each does, element by element |
| TimerDomain.MakeTimer | Inc/HALAL/Models/TimerDomain/TimerDomain.hpp:354-398 | the Timer constructor succeeds exactly for at most seven pins each with a valid GPIO request, and records the entry and one request per pin with the table's function |
| TimerDomain.PinsNeedASpecificTimer | Inc/HALAL/Models/TimerDomain/TimerDomain.hpp:887-898 | a timer constructed with pins names a specific timer that is neither a wildcard nor a basic timer |
| TimerDomain.ValidRequestAsWrittenMisjudges | Inc/HALAL/Models/TimerDomain/TimerDomain.hpp:433-439 | build's value check refuses Any32bit, making the 32-bit assignment unreachable, and accepts 9 to 11, which name no timer; it agrees with the intended check on all other values |
| TimerDomain.CheckChannels | Inc/HALAL/Models/TimerDomain/TimerDomain.hpp:441-448 | the channel-mask loop accepts exactly the pin lists with no channel repeated |
| TimerDomain.Count | Inc/HALAL/Models/TimerDomain/TimerDomain.hpp:484-545 | a kind's request count is at most the number of requests |
| TimerDomain.CountGrows | Inc/HALAL/Models/TimerDomain/TimerDomain.hpp:484-510 | a request of a kind at position i makes the count before it smaller than the count up to any later position, so wildcards of one kind take distinct pool positions |
| TimerDomain.UsedTimersSpec | Inc/HALAL/Models/TimerDomain/TimerDomain.hpp:452-460 | the used-timer set is exactly the set of timers some request names |
| TimerDomain.UnusedSpec | Inc/HALAL/Models/TimerDomain/TimerDomain.hpp:475-482 | the collection keeps exactly the pool's timers that are not used, and keeps a repeat-free pool repeat-free |
| TimerDomain.CollectUnused | Inc/HALAL/Models/TimerDomain/TimerDomain.hpp:475-482 | the collection loops yield the pool's unused timers in the pool's order |
| TimerDomain.PoolsSpec | Inc/HALAL/Models/TimerDomain/TimerDomain.hpp:475-529 | the 32-bit pool is the unused 32-bit timers; the general pool of the corrected build is the unused general timers minus those the Any32bit requests take (the source leaves those in: see Findings); neither repeats |
| TimerDomain.AssignmentHonoursRequests | Inc/HALAL/Models/TimerDomain/TimerDomain.hpp:452-545 | every accepted request gets a real timer of the kind it asked for: the one it names, a 32-bit timer, or a general-pool timer |
| TimerDomain.Any32Taken | Inc/HALAL/Models/TimerDomain/TimerDomain.hpp:484-497 | an Any32bit request gets one of the 32-bit timers taken by the Any32bit requests |
| TimerDomain.AnyTaken | Inc/HALAL/Models/TimerDomain/TimerDomain.hpp:535-545 | an AnyGeneralPurpose request gets a timer of the general pool |
| TimerDomain.SameKindApart | Inc/HALAL/Models/TimerDomain/TimerDomain.hpp:484-545 | two requests of the same wildcard kind take different pool positions |
| TimerDomain.AssignmentDistinct | Inc/HALAL/Models/TimerDomain/TimerDomain.hpp:420-548 | no two accepted requests share a timer |
| TimerDomain.CheckRequests | Inc/HALAL/Models/TimerDomain/TimerDomain.hpp:433-449 | the first loop of build passes exactly when every request has a valid value and distinct channels |
| TimerDomain.ClaimNamed | Inc/HALAL/Models/TimerDomain/TimerDomain.hpp:452-472 | the named-timer loop succeeds exactly when no timer is named twice, returns the named timers as the used set, and puts each named request's slot at its own position |
| TimerDomain.ClaimStep | Inc/HALAL/Models/TimerDomain/TimerDomain.hpp:452-472 | each named request adds its timer to the used set, and a repeat happens exactly when that timer is already used, which spoils the whole list |
| TimerDomain.AssignWildcards | Inc/HALAL/Models/TimerDomain/TimerDomain.hpp:484-545 | the wildcard loops succeed exactly when the pool holds enough timers, and give the k-th request of the kind the slot of the pool's k-th timer |
| TimerDomain.CountRest | Inc/HALAL/Models/TimerDomain/TimerDomain.hpp:484-545 | counting a prefix never exceeds counting the whole list |
| TimerDomain.Build | Inc/HALAL/Models/TimerDomain/TimerDomain.hpp:420-548 | build succeeds exactly when BuildOk holds, and then gives each request, in its own position, the slot of the timer TimerFor assigns it (with the corrections listed under Findings, including the Any32bit timers left out of the general pool) |
| TimerDomain.BuildSlotsDistinct | Inc/HALAL/Models/TimerDomain/TimerDomain.hpp:420-548 | build's configurations name distinct slots below 16, one per request |
| TimerDomain.Iota | Inc/HALAL/Models/TimerDomain/TimerDomain.hpp:429-431 | the initial remaining_requests list is 0..n-1 |
| TimerDomain.WildcardPositions | Inc/HALAL/Models/TimerDomain/TimerDomain.hpp:467-470 | the positions the later loops must see are exactly those of the wildcard requests |
| TimerDomain.RemainingAsWrittenLosesWildcard | Inc/HALAL/Models/TimerDomain/TimerDomain.hpp:466-470 | with TIM2, a wildcard and TIM3 requested, the as-written removal keeps the TIM3 position and loses the wildcard's, so the last loop refuses a valid list |
| TimerDomain.TwoNamedOneWildcardBuilds | Inc/HALAL/Models/TimerDomain/TimerDomain.hpp:420-548 | the corrected build accepts those requests and gives TIM2, TIM15 and TIM3 |
| TimerDomain.TwoNamedOneWildcardCounts | Inc/HALAL/Models/TimerDomain/TimerDomain.hpp:452-472 | that list uses TIM2 and TIM3 and holds one AnyGeneralPurpose request |
| TimerDomain.RequestsSnoc | Inc/HALAL/Models/TimerDomain/TimerDomain.hpp:452-545 | counts and the used set grow one request at a time |
| TimerDomain.UnusedSnoc | Inc/HALAL/Models/TimerDomain/TimerDomain.hpp:475-529 | the unused list grows one pool timer at a time |
| TimerDomain.Bits32Unused | Inc/HALAL/Models/TimerDomain/TimerDomain.hpp:474-482 | the 32-bit pool, timer by timer, is the unused ones among TIM2, TIM5, TIM23 and TIM24 |
| TimerDomain.GeneralStartsWith15 | Inc/HALAL/Models/TimerDomain/TimerDomain.hpp:513-519 | while TIM15 is free it heads the general pool |
| TimerDomain.UnusedPrefix | Inc/HALAL/Models/TimerDomain/TimerDomain.hpp:475-529 | cutting the pool keeps a prefix of its unused timers |
| TimerDomain.ConfigsAsWrittenMisplaceNamed | Inc/HALAL/Models/TimerDomain/TimerDomain.hpp:462-465 | with a wildcard then TIM1 requested, the configurations as written come out as TIM1's slot then TIM15's, so the TIM1 request's position names TIM15 |
| TimerDomain.WildcardThenTim1Counts | Inc/HALAL/Models/TimerDomain/TimerDomain.hpp:452-472 | that list uses only TIM1, and its named slots are TIM1's |
| TimerDomain.WildcardThenTim1Builds | Inc/HALAL/Models/TimerDomain/TimerDomain.hpp:420-548 | the corrected build gives the TIM1 request TIM1 and the wildcard TIM15 |
| TimerDomain.PoolGeneralAsWritten | Inc/HALAL/Models/TimerDomain/TimerDomain.hpp:509-529 | the general pool as written holds every unused general timer, including the 32-bit timers the Any32bit requests were just given |
| TimerDomain.GeneralPoolAsWrittenReusesTim2 | Inc/HALAL/Models/TimerDomain/TimerDomain.hpp:484-545 | with one Any32bit request and six AnyGeneralPurpose ones, the Any32bit request gets TIM2 and, as written, the sixth AnyGeneralPurpose request gets TIM2 as well |
| TimerDomain.Any32ThenSixAnyBuilds | Inc/HALAL/Models/TimerDomain/TimerDomain.hpp:420-548 | the corrected build accepts those requests and gives the sixth AnyGeneralPurpose request TIM5 instead |
| TimerDomain.Any32ThenSixAnyCounts | Inc/HALAL/Models/TimerDomain/TimerDomain.hpp:452-497 | that list names no timer, holds one Any32bit request and six AnyGeneralPurpose ones, five of them before position 6 |
| TimerDomain.GeneralUnused | Inc/HALAL/Models/TimerDomain/TimerDomain.hpp:509-527 | the general pool is TIM15, 16, 17, 3 and 4 when free, followed by the free 32-bit timers |
| TimerDomain.Timer32AsWritten | Inc/HALAL/Models/TimerDomain/TimerDomain.hpp:477-497 | as written every Any32bit request gets the first unused 32-bit timer, and is refused only when no 32-bit timer is unused |
| TimerDomain.TwoAny32AsWrittenShareTim2 | Inc/HALAL/Models/TimerDomain/TimerDomain.hpp:477-497 | two Any32bit requests both get TIM2 as written, while the corrected build gives them TIM2 and TIM5 |
| DMADomain.IrqnDistinct | Inc/HALAL/Models/DMA/DMA2.hpp:110-130 | every stream has an interrupt line of its own and only Stream::none gets the placeholder 0 |
| DMADomain.RequestDefined | Inc/HALAL/Models/DMA/DMA2.hpp:158-191 | get_Request is defined exactly for none and the ADCs on any channel, channels 0 and 1 of the I2Cs and of SPI1 to SPI5, and channels 0 to 2 of the FMAC; every other pair is the invalid-configuration error |
| DMADomain.RequestLinesOwned | Inc/HALAL/Models/DMA/DMA2.hpp:158-191 | a request line other than MEM2MEM belongs to one peripheral, and to one channel of it unless it is an ADC's |
| DMADomain.DirectionMatchesRequest | Inc/HALAL/Models/DMA/DMA2.hpp:193-203 | a transfer is memory to memory exactly on MEM2MEM and memory to peripheral exactly on a transmit or FMAC-write line |
| DMADomain.IncrementsFollowDirection | Inc/HALAL/Models/DMA/DMA2.hpp:205-217 | the peripheral address advances exactly on memory-to-memory transfers and the memory address stays put only for the FMAC's |
| DMADomain.AlignmentsAgree | Inc/HALAL/Models/DMA/DMA2.hpp:219-238 | both sides use one item size exactly for the SPIs, the ADCs and the FMAC, and the SPIs move bytes |
| DMADomain.ModeCircularExactly | Inc/HALAL/Models/DMA/DMA2.hpp:240-246 | only the ADCs and the I2Cs run in circular mode |
| DMADomain.Spi2Channels | Inc/HALAL/Models/DMA/DMA2.hpp:158-268 | SPI2's channel 0 receives on SPI2_RX and channel 1 sends on SPI2_TX, byte-wide, normal mode, full FIFO threshold |
| DMADomain.FmacChannels | Inc/HALAL/Models/DMA/DMA2.hpp:158-203 | the FMAC's channels 0, 1 and 2 are memory to memory on MEM2MEM, memory to peripheral on FMAC_WRITE and peripheral to memory on FMAC_READ |
| DMADomain.MakeEntries | Inc/HALAL/Models/DMA/DMA2.hpp:76-93 | the DMA constructor's entry j is channel j of the instance on the j-th stream given, with that stream's interrupt line (0 for none) |
| DMADomain.LowestFree | Inc/HALAL/Models/DMA/DMA2.hpp:312-320 | the lowest stream from a start point not in use, every stream before it being in use, or one past the last stream when none is free |
| DMADomain.Build | Inc/HALAL/Models/DMA/DMA2.hpp:288-358 | build's three passes compute exactly BuildSpec |
| DMADomain.ClaimStreams | Inc/HALAL/Models/DMA/DMA2.hpp:295-305 | the first pass succeeds exactly when no stream is named twice, and marks exactly the named streams |
| DMADomain.AssignStreams | Inc/HALAL/Models/DMA/DMA2.hpp:307-325 | the second pass gives each entry without a stream the lowest stream still unused, as Assign specifies, failing when none is left |
| DMADomain.FirstFree | Inc/HALAL/Models/DMA/DMA2.hpp:312-320 | the inner search returns the first place of the table not marked in use |
| DMADomain.AssignAt | Inc/HALAL/Models/DMA/DMA2.hpp:307-325 | one step of the second pass: a named stream stays, a missing one takes the lowest free stream and marks it used, or the pass fails |
| DMADomain.MakeConfigs | Inc/HALAL/Models/DMA/DMA2.hpp:328-356 | the third pass computes exactly the duplicate check and the settings ConfigsFrom specifies |
| DMADomain.FirstUnused | Inc/HALAL/Models/DMA/DMA2.hpp:312-320 | the first unmarked place of the table is the lowest free stream |
| DMADomain.ClaimedMeans | Inc/HALAL/Models/DMA/DMA2.hpp:295-305 | a stream is claimed exactly when some entry names it, and is then a real stream |
| DMADomain.AssignShape | Inc/HALAL/Models/DMA/DMA2.hpp:307-325 | the second pass keeps every entry's peripheral and channel and any named stream, and gives each other entry an unused stream with its interrupt line |
| DMADomain.AssignDistinct | Inc/HALAL/Models/DMA/DMA2.hpp:307-325 | when every named stream is already marked and none is named twice, the second pass leaves no two entries on one stream |
| DMADomain.AssignLowest | Inc/HALAL/Models/DMA/DMA2.hpp:312-320 | an entry without a stream gets the lowest stream neither marked nor taken by an earlier entry |
| DMADomain.AssignSucceeds | Inc/HALAL/Models/DMA/DMA2.hpp:321-323 | the second pass runs out of streams exactly when the entries without one outnumber the unmarked streams |
| DMADomain.UsedCard | Inc/HALAL/Models/DMA/DMA2.hpp:312-323 | at most MAX_STREAMS streams can be in use, and all are when none is free |
| DMADomain.ClaimedCard | Inc/HALAL/Models/DMA/DMA2.hpp:295-305 | with no stream named twice, each entry names a stream of its own or none |
| DMADomain.ClaimedCovers | Inc/HALAL/Models/DMA/DMA2.hpp:295-305 | claimed streams are real streams and every named stream is claimed |
| DMADomain.ConfigsAll | Inc/HALAL/Models/DMA/DMA2.hpp:328-356 | on entries with distinct streams the third pass fails only on a channel without a request line, and otherwise configures every entry in order |
| DMADomain.BuildOutcome | Inc/HALAL/Models/DMA/DMA2.hpp:288-358 | build fails with "DMA stream already in use" on a stream named twice, with "Not enough DMA streams available" on more entries than streams, with the request error on a channel without a line, and succeeds otherwise |
| DMADomain.BuildUnfolds | Inc/HALAL/Models/DMA/DMA2.hpp:288-358 | a successful build is the third pass over the second pass's entries and configures every entry |
| DMADomain.BuildMeaning | Inc/HALAL/Models/DMA/DMA2.hpp:288-358 | a successful build gives one configuration per entry, in order, with its peripheral, channel, settings and a stream, and keeps named streams and their interrupt lines |
| DMADomain.BuildPlacesAuto | Inc/HALAL/Models/DMA/DMA2.hpp:307-325 | in a successful build an entry without a stream gets the lowest stream no entry names and no earlier entry took, with its interrupt line |
| DMADomain.BuildDistinct | Inc/HALAL/Models/DMA/DMA2.hpp:328-336 | no two configurations of a successful build share a stream |
| DMADomain.BuildKeepsIrqns | Inc/HALAL/Models/DMA/DMA2.hpp:76-93 | entries from the DMA constructor carry their stream's interrupt line, and so does every configuration built from them |
| DMADomain.Spi2Build | Inc/HALAL/Models/DMA/DMA2.hpp:288-358 | SPI2 on DMA1 streams 0 and 1 gets SPI2_RX and SPI2_TX, opposite directions, a full FIFO threshold and those streams' interrupt lines |
| DMADomain.AutoStreamsBuild | Inc/HALAL/Models/DMA/DMA2.hpp:307-325 | two ADC entries without streams get DMA1 streams 0 and 1 and their interrupt lines |
| MPUDomain.RankPlacesAlignment | Inc/HALAL/Models/MPU.hpp:339 | each supported alignment has one place in the list 32, 16, 8, 4, 2, 1 |
| MPUDomain.PoolDistinct | Inc/HALAL/Models/MPU.hpp:218-219 | each (domain, memory type) pair has a running offset of its own among the six |
| MPUDomain.AlignUpBounds | Inc/HALAL/Models/MPU.hpp:181-183 | align_up gives the least multiple of the alignment at or above the value, less than one alignment above it |
| MPUDomain.Build | Inc/HALAL/Models/MPU.hpp:214-251 | build keeps each entry's size, domain and type, puts each buffer at a multiple of its alignment, and in each pool ends every buffer before any buffer laid out after it (larger alignment first, then entry order) starts |
| MPUDomain.PlaceStep | Inc/HALAL/Models/MPU.hpp:226-235 | placing an entry at its pool's offset rounded up to its alignment keeps the layout invariant |
| MPUDomain.SkipStep | Inc/HALAL/Models/MPU.hpp:225-226 | an entry of another alignment is left for a later round without breaking the invariant |
| MPUDomain.NextAlignment | Inc/HALAL/Models/MPU.hpp:224-237 | after the last entry the loop moves on to the next alignment with the invariant intact |
| MPUDomain.AllPlaced | Inc/HALAL/Models/MPU.hpp:224-237 | after alignment 1 every supported entry is placed at a multiple of its alignment, after all pool-mates laid out before it |
| MPUDomain.BuildNoOverlap | Inc/HALAL/Models/MPU.hpp:214-251 | two different buffers of one pool do not overlap |
| MPUDomain.MaxEnd | Inc/HALAL/Models/MPU.hpp:188-201 | a pool's furthest end bounds every buffer of the pool and is one of their ends, or 0 for an empty pool |
| MPUDomain.CalculateTotalSizes | Inc/HALAL/Models/MPU.hpp:186-210 | calculate_total_sizes gives each pool its furthest buffer end rounded up to 32 bytes |
| MPUDomain.PoolTotalFits | Inc/HALAL/Models/MPU.hpp:186-210 | a pool's total is a whole number of 32-byte lines, holds every buffer of the pool, and is the least such size |
| MPUDomain.EmptyPoolIsZero | Inc/HALAL/Models/MPU.hpp:186-210 | a pool without buffers takes no room |
| StateMachineDomain.SortStates | Inc/ST-LIB_LOW/StateMachine/StateMachine.hpp:350-358 | the constructor's bubble sort leaves the states ordered by enum value and a permutation of the given ones |
| StateMachineDomain.BubblePass | Inc/ST-LIB_LOW/StateMachine/StateMachine.hpp:351-357 | one pass keeps the states a permutation and settles one more largest state at the end |
| StateMachineDomain.CheckContiguous | Inc/ST-LIB_LOW/StateMachine/StateMachine.hpp:361-365 | the contiguity loop passes exactly when each sorted state's value equals its index, and reports an error otherwise |
| StateMachineDomain.ContiguousIffExact | Inc/ST-LIB_LOW/StateMachine/StateMachine.hpp:344-365 | after sorting, the states are 0..n-1 exactly when the given states have distinct enum values all below n |
| StateMachineDomain.Spans | Inc/ST-LIB_LOW/StateMachine/StateMachine.hpp:312-322 | one (start, count) pair per state |
| StateMachineDomain.SpansSlice | Inc/ST-LIB_LOW/StateMachine/StateMachine.hpp:312-322 | each state's (start, count) cuts exactly its own transitions out of the flattened list |
| StateMachineDomain.TransitionTable | Inc/ST-LIB_LOW/StateMachine/StateMachine.hpp:367-375 | the table of a state-ordered list holds each state's transitions at its index |
| StateMachineDomain.ProcessStates | Inc/ST-LIB_LOW/StateMachine/StateMachine.hpp:371-375 | the constructor's last loop flattens the transitions in state order and records each state's span at its own value |
| StateMachineDomain.ProcessState | Inc/ST-LIB_LOW/StateMachine/StateMachine.hpp:312-317 | process_state appends a state's transitions, in order, to the list |
| StateMachineDomain.PeriodUs | Inc/ST-LIB_LOW/StateMachine/StateMachine.hpp:159-166 | a microsecond action is registered with its own period; a millisecond one with its period times 1000, reduced to 32 bits |
| StateMachineDomain.RegisterFrom | Inc/ST-LIB_LOW/StateMachine/StateMachine.hpp:152-179 | registration keeps one entry per action |
| StateMachineDomain.UnregisterFrom | Inc/ST-LIB_LOW/StateMachine/StateMachine.hpp:139-150 | unregistration keeps one entry per action |
| StateMachineDomain.RegisterAll | Inc/ST-LIB_LOW/StateMachine/StateMachine.hpp:152-179 | the register_all_timed_actions loop computes RegisterFrom |
| StateMachineDomain.UnregisterAll | Inc/ST-LIB_LOW/StateMachine/StateMachine.hpp:139-150 | the unregister_all_timed_actions loop computes UnregisterFrom |
| StateMachineDomain.Calls | Inc/ST-LIB_LOW/StateMachine/StateMachine.hpp:121-137 | at most one call per listed callback |
| StateMachineDomain.RunCallbacks | Inc/ST-LIB_LOW/StateMachine/StateMachine.hpp:123-126 | the enter and exit loops call each non-null callback once, in order |
| StateMachineDomain.RegisterSucceeds | Inc/ST-LIB_LOW/StateMachine/StateMachine.hpp:152-179 | when every request is granted, each non-null action is switched on under its id and exactly one registration per such action is asked for, in order, with its period in microseconds |
| StateMachineDomain.RegisterStops | Inc/ST-LIB_LOW/StateMachine/StateMachine.hpp:171-176 | the first refused registration reports "Failed to register timed action" and leaves every later action untouched |
| StateMachineDomain.UnregisterReleases | Inc/ST-LIB_LOW/StateMachine/StateMachine.hpp:139-150 | unregistration switches off every non-null action that was on and releases each by its id, in order |
| StateMachineDomain.ExitUndoesEnter | Inc/ST-LIB_LOW/StateMachine/StateMachine.hpp:121-179 | leaving a state undoes entering it: the exit releases exactly the ids granted, one per registration and in the same order, and leaves every action off |
| StateMachineDomain.FirstFiring | Inc/ST-LIB_LOW/StateMachine/StateMachine.hpp:383-398 | the transition chosen is the first, in declaration order, whose guard holds, or none when no guard holds |
| StateMachineDomain.NestedFor | Inc/ST-LIB_LOW/StateMachine/StateMachine.hpp:401-407 | the nested machine looked up for a state is the first registered for it, none when there is none |
| StateMachineDomain.FindFiring | Inc/ST-LIB_LOW/StateMachine/StateMachine.hpp:383-398 | the check_transitions loop over the current state's span picks FirstFiring of that span |
| StateMachineDomain.FindNested | Inc/ST-LIB_LOW/StateMachine/StateMachine.hpp:401-407 | the nested-machine loop finds NestedFor of the current state |
| StateMachineDomain.StateMachine.constructor | Inc/ST-LIB_LOW/StateMachine/StateMachine.hpp:341-376 | a machine built from states sorted to 0..n-1 starts in the initial state, on, with no nested machines, the states' transition table and each state's actions |
| StateMachineDomain.StateMachine.Enter | Inc/ST-LIB_LOW/StateMachine/StateMachine.hpp:121-128 | enter() runs the current state's enter callbacks, then registers its timed actions, and changes nothing else |
| StateMachineDomain.StateMachine.Exit | Inc/ST-LIB_LOW/StateMachine/StateMachine.hpp:130-137 | exit() unregisters the current state's timed actions, then runs its exit callbacks, and changes nothing else |
| StateMachineDomain.StateMachine.Start | Inc/ST-LIB_LOW/StateMachine/StateMachine.hpp:410-413 | start() enters the initial state: its enter callbacks run, its timed actions are registered, and the nested machines, callback lists and on flag stay as they were |
| StateMachineDomain.StateMachine.SetOn | Inc/ST-LIB_LOW/StateMachine/StateMachine.hpp:297-301 | set_on changes only the on flag |
| StateMachineDomain.StateMachine.ForceChangeState | Inc/ST-LIB_LOW/StateMachine/StateMachine.hpp:274-292 | changing to the current state leaves the whole machine as it was; otherwise the old state is exited, the state switched and the new one entered, in that order, with the callback lists, nested machines and on flag kept |
| StateMachineDomain.StateMachine.CheckTransitions | Inc/ST-LIB_LOW/StateMachine/StateMachine.hpp:380-408 | the first transition of the current state whose guard holds fires (exit, switch, enter, even to the same state), leaving the timed actions as FiredCyclic gives them and the callback lists and on flag as they were; then the resulting state's nested machine is checked |
| StateMachineDomain.StateMachine.TransitionStep | Inc/ST-LIB_LOW/StateMachine/StateMachine.hpp:382-399 | at most one transition fires, the first whose guard holds; the log and timed actions are those of its exit and enter, and the callback lists, nested machines and on flag are kept |
| StateMachineDomain.StateMachine.AddStateMachine | Inc/ST-LIB_LOW/StateMachine/StateMachine.hpp:497-508 | a second nested machine for one state is refused with the error naming that state, one past the capacity with the StaticVector error; otherwise the pair is appended; the timed actions, callback lists and on flag are kept |
| StateMachineDomain.StateMachine.AddCyclicAction | Inc/ST-LIB_LOW/StateMachine/StateMachine.hpp:209-232 | add_cyclic_action appends a new, unregistered action to a known state's list and answers its slot; a full list or an unknown state is an error |
| StateMachineDomain.StateMachine.RemoveCyclicAction | Inc/ST-LIB_LOW/StateMachine/StateMachine.hpp:182-201 | remove_cyclic_action unregisters the action if it is on, then resets its slot to a default action, keeping the list's length; an unknown state is an error |
| StateMachineDomain.StateMachine.AddEnterAction | Inc/ST-LIB_LOW/StateMachine/StateMachine.hpp:469-480 | add_enter_action appends the callback to a known state's enter list; an unknown state is an error |
| StateMachineDomain.StateMachine.AddExitAction | Inc/ST-LIB_LOW/StateMachine/StateMachine.hpp:483-494 | add_exit_action appends the callback to a known state's exit list; an unknown state is an error |
| StateMachineDomain.Pushed | Inc/ST-LIB_LOW/StateMachine/StateMachine.hpp:111-119 | push_back appends below the capacity and changes no other list; at the capacity it refuses with an error |
| StateMachineDomain.Make | Inc/ST-LIB_LOW/StateMachine/StateMachine.hpp:583-588 | make_state_machine builds a machine exactly when the given states have distinct enum values below n, in the initial state with each value's transitions at its index; otherwise it reports the error |
| StateMachineDomain.SortCopy | Inc/ST-LIB_LOW/StateMachine/StateMachine.hpp:344-358 | the constructor's local array is a sorted permutation of the given states |
| StateMachineDomain.SortedKeepsTargets | Inc/ST-LIB_LOW/StateMachine/StateMachine.hpp:344-358 | sorting keeps every transition target within the states |
| StateMachineDomain.SortedOrigins | Inc/ST-LIB_LOW/StateMachine/StateMachine.hpp:341-376 | table entry k holds the transitions of the given state whose value is k |
| SdLoggerDomain.TiledDisjoint | Inc/ST-LIB_HIGH/SdLogger/SdLogger.hpp:79-92 | packets placed back to back never overlap and all lie below the end |
| SdLoggerDomain.FillFrom | Inc/ST-LIB_HIGH/SdLogger/SdLogger.hpp:66-94 | the request pass either leaves the offset alone or ends within the limit |
| SdLoggerDomain.BuildsFinished | Inc/ST-LIB_HIGH/SdLogger/SdLogger.hpp:51-61 | the build step stops exactly the building packets whose builds completed and clears only their flags, touching nothing else |
| SdLoggerDomain.SdLogger.constructor | Inc/ST-LIB_HIGH/SdLogger/SdLogger.hpp:19-24 | a new logger has no packets, no requests, no builds, offset 0, a buffer of four bytes per word and one block per 512 bytes, block address 0 and no write |
| SdLoggerDomain.SdLogger.AddPacket | Inc/ST-LIB_HIGH/SdLogger/SdLogger.hpp:26-35 | the 33rd packet is refused with "Max packets reached in SdLogger" and index 0, the packets kept; otherwise its size is appended and its index returned; only the packet sizes and the error log can change |
| SdLoggerDomain.SdLogger.Log | Inc/ST-LIB_HIGH/SdLogger/SdLogger.hpp:37-39 | log sets the packet's request bit; no other field can change |
| SdLoggerDomain.SdLogger.BuildComplete | Inc/ST-LIB_HIGH/SdLogger/SdLogger.hpp:91 | a build's completion adds its packet to the completed flags; no other field can change |
| SdLoggerDomain.SdLogger.WriteComplete | Inc/ST-LIB_HIGH/SdLogger/SdLogger.hpp:116 | the card's completion raises the write-complete flag; no other field can change |
| SdLoggerDomain.SdLogger.Update | Inc/ST-LIB_HIGH/SdLogger/SdLogger.hpp:41-102 | update is the SD step, the build step and the request pass (skipped while a flush is pending), then a flush exactly when the buffer is full, no build is running, no write is ongoing and the card accepts; a flush advances the block address by the buffer's blocks modulo 2^32, records the write and restarts the buffer; when a flush is tried the write is ongoing exactly when the card accepted and not yet complete, otherwise a finished write is cleared; the packet sizes and the error log are kept |
| SdLoggerDomain.SdLogger.Advance | Inc/ST-LIB_HIGH/SdLogger/SdLogger.hpp:43-94 | the steps before the flush compute Advanced of the state, leaving the block address and writes alone |
| SdLoggerDomain.SdLogger.FlushStep | Inc/ST-LIB_HIGH/SdLogger/SdLogger.hpp:97-101 | the pending flag clears exactly when the write is issued, which restarts the buffer and advances the block address |
| SdLoggerDomain.SdLogger.SdStep | Inc/ST-LIB_HIGH/SdLogger/SdLogger.hpp:43-48 | a finished write clears the ongoing and complete flags; only those two flags can change |
| SdLoggerDomain.SdLogger.BuildStep | Inc/ST-LIB_HIGH/SdLogger/SdLogger.hpp:51-61 | every building packet whose build completed stops building and its flag clears; only the building set and the completed flags can change |
| SdLoggerDomain.SdLogger.RequestStep | Inc/ST-LIB_HIGH/SdLogger/SdLogger.hpp:66-94 | the request pass over the mask as it was computes FillFrom |
| SdLoggerDomain.SdLogger.Commit | Inc/ST-LIB_HIGH/SdLogger/SdLogger.hpp:79-92 | the state the request pass ended in becomes the logger's, keeping its invariant |
| SdLoggerDomain.SdLogger.FlushBuffer | Inc/ST-LIB_HIGH/SdLogger/SdLogger.hpp:109-125 | flush_buffer does nothing while a write is ongoing or when the card refuses; otherwise it writes the buffer's blocks at the block address, which advances modulo 2^32, and restarts the buffer at offset 0 |
| SdLoggerDomain.SdLogger.CurrentBlock | Inc/ST-LIB_HIGH/SdLogger/SdLogger.hpp:104-106 | get_current_block is below 2^32 |
| SdLoggerDomain.RunFill | Inc/ST-LIB_HIGH/SdLogger/SdLogger.hpp:67-93 | the request-pass loop computes FillFrom and keeps the logger's invariant |
| SdLoggerDomain.FillKeeps | Inc/ST-LIB_HIGH/SdLogger/SdLogger.hpp:67-93 | the request pass keeps packet indices below the packet count, the placements tiled and matching the packet sizes, and the offset within the limit |
| SdLoggerDomain.FillAppends | Inc/ST-LIB_HIGH/SdLogger/SdLogger.hpp:67-93 | the request pass only appends placements, each of a pending packet that was not building, is building afterwards and is no longer requested, in ascending packet order |
| SdLoggerDomain.FillGrows | Inc/ST-LIB_HIGH/SdLogger/SdLogger.hpp:67-93 | the request pass never takes a packet out of building nor puts one back into request |
| SdLoggerDomain.FillComplete | Inc/ST-LIB_HIGH/SdLogger/SdLogger.hpp:67-93 | a pass that does not end full leaves every pending packet building; one that ends full stopped at a pending, non-building packet that did not fit |
| SdLoggerDomain.PlaceOk | Inc/ST-LIB_HIGH/SdLogger/SdLogger.hpp:87-92 | placing a packet that fits at the offset keeps the invariant |
| PromiseDomain.Enqueued | Inc/HALAL/Utils/Promise.hpp:63 | the ready list's push appends the promise below capacity and otherwise changes nothing; no promise object changes |
| PromiseDomain.Inscribed | Inc/HALAL/Utils/Promise.hpp:32-41 | inscribe gives no promise exactly when the arena is exhausted; otherwise the oldest free slot, now in use, unresolved and without a callback, other slots unchanged |
| PromiseDomain.Released | Inc/HALAL/Utils/Promise.hpp:49-51 | release succeeds exactly for a slot of the arena in use, which goes to the back of the free list; otherwise nothing changes |
| PromiseDomain.WithCallback | Inc/HALAL/Utils/Promise.hpp:59-65 | then(Callback) sets the callback and context only, and queues an already resolved promise |
| PromiseDomain.WithChain | Inc/HALAL/Utils/Promise.hpp:85-103 | then(ChainedCallback) inscribes the next promise first and keeps it whatever the outcome; only when it exists are the chained callback, its context and the chaining callback installed with the promise as context |
| PromiseDomain.InstallChain | Inc/HALAL/Utils/Promise.hpp:89-99 | the promise's chained callback and context are set and the chaining callback installed with the promise itself as context |
| PromiseDomain.Resolved | Inc/HALAL/Utils/Promise.hpp:110-118 | resolve does nothing to a resolved promise; otherwise it marks it resolved and queues it when it has a callback |
| PromiseDomain.RunCallback | Inc/HALAL/Utils/Promise.hpp:124-131 | calling a callback other than the chaining one changes no promise's callback or context |
| PromiseDomain.CountDown | Inc/HALAL/Utils/Promise.hpp:154-160 | all()'s callback decrements the combined promise's counter and resolves it exactly when the counter was at one, touching no other promise |
| PromiseDomain.RunChain | Inc/HALAL/Utils/Promise.hpp:93-98 | the chaining callback calls the user's chained callback with its context and uses up one returned promise |
| PromiseDomain.ChainHandsOn | Inc/HALAL/Utils/Promise.hpp:93-98 | the chaining callback hands the next promise's callback and context to the promise the chained callback returned, queues it when already resolved, releases the next promise, and changes no other promise |
| PromiseDomain.SecondCallbackFollows | Inc/HALAL/Utils/Promise.hpp:67-103 | in then(f)->then(g), once f's chaining callback has run, the promise f returned calls g with g's context |
| PromiseDomain.HandOn | Inc/HALAL/Utils/Promise.hpp:96-97 | handing on keeps the arena invariant |
| PromiseDomain.Step | Inc/HALAL/Utils/Promise.hpp:125-130 | one round of update() keeps the arena invariant |
| PromiseDomain.ResolveMeasure | Inc/HALAL/Utils/Promise.hpp:110-118 | resolving never increases the pending work |
| PromiseDomain.RunCallbackMeasure | Inc/HALAL/Utils/Promise.hpp:124-131 | running a callback never increases the pending work |
| PromiseDomain.ChainMeasure | Inc/HALAL/Utils/Promise.hpp:93-98 | a hand-on queues at most one promise and uses up one returned one |
| PromiseDomain.CountDownMeasure | Inc/HALAL/Utils/Promise.hpp:154-160 | all()'s callback never increases the pending work |
| PromiseDomain.StepDecreases | Inc/HALAL/Utils/Promise.hpp:124-131 | each round of update() strictly decreases the pending work, so update() ends |
| PromiseDomain.Drain | Inc/HALAL/Utils/Promise.hpp:124-131 | update() returns with the ready list empty |
| PromiseDomain.Attach | Inc/HALAL/Utils/Promise.hpp:143-162 | attaching inputs either reaches the end and answers the combined promise, or gives up with none |
| PromiseDomain.AttachNext | Inc/HALAL/Utils/Promise.hpp:143-162 | an input without callbacks gets cb with the combined promise as context before the loop moves on |
| PromiseDomain.ReleaseUntil | Inc/HALAL/Utils/Promise.hpp:146-151 | releasing the inputs before the failing one keeps the arena invariant |
| PromiseDomain.AllOf | Inc/HALAL/Utils/Promise.hpp:140-163 | all() keeps the arena invariant |
| PromiseDomain.AnyOf | Inc/HALAL/Utils/Promise.hpp:172-191 | any() keeps the arena invariant |
| PromiseDomain.InscribeRelease | Inc/HALAL/Utils/Promise.hpp:32-51 | a promise inscribed then released goes to the back of the free list, with the used slots as before |
| PromiseDomain.ResolveIdempotent | Inc/HALAL/Utils/Promise.hpp:110-113 | resolve is idempotent |
| PromiseDomain.UserCalls | Inc/HALAL/Utils/Promise.hpp:124-131 | one call per queued promise |
| PromiseDomain.DrainCallsInOrder | Inc/HALAL/Utils/Promise.hpp:124-131 | update() calls the queued user callbacks once each, oldest first, and changes no promise object |
| PromiseDomain.StepUser | Inc/HALAL/Utils/Promise.hpp:125-130 | one round on a user callback pops the oldest promise, records its call with its context and releases it |
| PromiseDomain.DrainReleasesInOrder | Inc/HALAL/Utils/Promise.hpp:124-131 | update() releases the queued promises in the order they were queued |
| PromiseDomain.DrainKeepsReleased | Inc/HALAL/Utils/Promise.hpp:124-131 | a slot not in use stays out of use through update() while no callback inscribes |
| PromiseDomain.RunAll | Inc/HALAL/Utils/Promise.hpp:124-131 | running callbacks keeps the arena invariant |
| PromiseDomain.CountDowns | Inc/HALAL/Utils/Promise.hpp:154-160 | n count-downs drop the counter by n, and the combined promise ends resolved exactly when it was, or its counter was between 1 and n |
| PromiseDomain.AttachOutcome | Inc/HALAL/Utils/Promise.hpp:143-162 | attaching reaches the end exactly when every remaining input has no callback or chained callback and occurs once |
| PromiseDomain.AttachSets | Inc/HALAL/Utils/Promise.hpp:143-162 | after a successful attach every input has the callback with the combined promise as context, and the combined promise is untouched |
| PromiseDomain.AllOutcome | Inc/HALAL/Utils/Promise.hpp:140-163 | all() gives a promise exactly when the arena has a free slot and every input has no callback or chained callback and occurs once |
| PromiseDomain.AllSetsUp | Inc/HALAL/Utils/Promise.hpp:140-163 | the promise all() gives is unresolved, counts from the number of inputs, and every input counts it down |
| PromiseDomain.AnyOutcome | Inc/HALAL/Utils/Promise.hpp:172-191 | any() gives a promise under the same conditions as all() |
| PromiseDomain.AnyResolvesOnFirst | Inc/HALAL/Utils/Promise.hpp:172-191 | the promise any() gives is unresolved and the callback of any one of its inputs resolves it |
| PromiseDomain.Promises.constructor | Inc/HALAL/Utils/Promise.hpp:208-214 | a new system has every slot free, oldest first from slot 0, and nothing queued |
| PromiseDomain.Promises.Push | Inc/HALAL/Utils/Promise.hpp:63 | the push changes the state as Enqueued says |
| PromiseDomain.Promises.Inscribe | Inc/HALAL/Utils/Promise.hpp:32-41 | inscribe changes the state and answers as Inscribed says |
| PromiseDomain.Promises.Release | Inc/HALAL/Utils/Promise.hpp:49-51 | release changes the state and answers as Released says |
| PromiseDomain.Promises.Then | Inc/HALAL/Utils/Promise.hpp:59-65 | then(Callback) changes the state as WithCallback says |
| PromiseDomain.Promises.ThenChained | Inc/HALAL/Utils/Promise.hpp:85-103 | then(ChainedCallback) changes the state and answers as WithChain says |
| PromiseDomain.Promises.InstallChained | Inc/HALAL/Utils/Promise.hpp:89-99 | the installation changes the state as InstallChain says |
| PromiseDomain.Promises.Resolve | Inc/HALAL/Utils/Promise.hpp:110-118 | resolve changes the state as Resolved says |
| PromiseDomain.Promises.Update | Inc/HALAL/Utils/Promise.hpp:124-131 | update() pops, calls and releases promises until none is left, as Drain says |
| PromiseDomain.Promises.ReleaseInputs | Inc/HALAL/Utils/Promise.hpp:146-151 | the inputs before the failing one are released in order |
| PromiseDomain.Promises.Abandon | Inc/HALAL/Utils/Promise.hpp:145-152 | all() and any() giving up release their own promise, then the inputs before the failing one |
| PromiseDomain.Promises.AttachInputs | Inc/HALAL/Utils/Promise.hpp:143-162 | the attach loop changes the state and answers as Attach says |
| PromiseDomain.Promises.All | Inc/HALAL/Utils/Promise.hpp:140-163 | all() changes the state and answers as AllOf says |
| PromiseDomain.Promises.Any | Inc/HALAL/Utils/Promise.hpp:172-191 | any() changes the state and answers as AnyOf says |

## Left out

- TimeScheduler.Scheduler.AllocateSlot: keeps activeTaskCount equal to the queue length. It counts a task when it is queued, not when its slot is allocated. The source's own counting drifts: allocate_slot adds one, and pop_front and release_slot each take one off. That counting is modelled as written in SchedulerFindings (see Findings); the scheduler model uses the corrected counting.
- TimeScheduler.Scheduler.ReleaseSlot: does not take one off activeTaskCount; the queue removal does. This is the same corrected counting as AllocateSlot.
- TimeScheduler.Scheduler.InsertSorted: adds one to activeTaskCount, where insert_sorted leaves the count alone. This is the same corrected counting.
- TimeScheduler.Scheduler.RemoveSorted: takes one off activeTaskCount when it removes an id, where remove_sorted leaves the count alone. This is the same corrected counting.
- TimeScheduler.Scheduler.FrontId: reads the front nibble of the queue word. Scheduler.cpp:40-53 casts the word's value to a pointer and reads through it; the intended nibble read is modelled instead.
- TimeScheduler.Scheduler.GetAt: reads nibble i of the queue word. The source reads it through the same pointer cast as FrontId.
- TimeScheduler.Scheduler: the task count and the current interval have the widths their definitions give them in Scheduler.cpp:33 and :38 (size_t, taken as 64 bits, and uint64_t). Scheduler.hpp:90 and :95 declare them uint32_t.
- TimeScheduler.Scheduler.Update: callbacks are named by ids and assumed not to call back into the scheduler. A callback that registers or cancels a task while update runs is not modelled.
- TimeScheduler.Scheduler.RunReady: the same assumption as Update, that callbacks do not re-enter the scheduler.
- TimeScheduler.Scheduler.CancelTimeout: requires id < 16. Scheduler.hpp:61 reads tasks_[id] for any uint8_t id, which is out of bounds for 16..255.
- Scheduler start() (Scheduler.cpp:72-101) is left out because it programs the timer hardware. get_global_tick and set_at are also not modelled.
- Arenas.Arena.Acquire: Arena.hpp calls empty(), front(), begin() and end() on its RingBuffer, which that class does not define. The model reads front() as the oldest stored item (RingBuffers.RingBuffer.Last).
- Arenas.Arena.constructor: reads the std::iota fill as S pushes of 0..S-1.
- PromiseDomain.Promises: the promise arena's free list uses the same reading as Arenas.Arena.Acquire.
- Pools.Pool.Acquire: calls a top() that Stack.hpp does not define; it is read as Stacks.Stack.Pop.
- Stacks.Stack.Pop: requires a non-empty stack. On an empty stack the source's --top wraps to 255 (Stack.hpp:28-30), and that case is not modelled.
- IndependentWatchdog.Reload: gives 0 for a period of 0 ms, where the source converts -1.0 to uint32_t, which is undefined.
- EXTIDomain.Build: keeps the used EXTI lines as a set of line numbers rather than the used_lines_mask bit word. The two agree: a line is in the set exactly when its bit is set.
- PromiseDomain.RunChain: a chained callback that hands on a promise moves the next callback onto it (modelled). The chained callback's returned promise is a parameter (`handed`), and beyond that list nothing is handed on.
- PromiseDomain.AllOf: with the arena exhausted it gives no promise and changes nothing. The source dereferences the nullptr that inscribe returned (Promise.hpp:141-142).
- PromiseDomain.AnyOf: with the arena exhausted it gives no promise and changes nothing. The source attaches callbacks with a null context to every input and later crashes in update (Promise.hpp:173-190).
- PromiseDomain.RunCallback: running a promise queued without a callback is a no-op. The source calls the null function pointer (Promise.hpp:62-63, 128).
- StateMachineDomain.StateMachine.Enter: a `Failed` event is logged and the run carries on. ErrorHandler (ErrorHandler.cpp:21-29) never returns, so in the source the first `Failed` event ends the run. Events logged after the first `Failed` have no counterpart in the source.
- StateMachineDomain.StateMachine.CheckTransitions: the same reading of `Failed` as Enter. For example, after an Enter that logged a failure, the nested-machine check still runs in the model.
- StateMachineDomain.StateMachine.ForceChangeState: the same reading of `Failed` as Enter.
- StateMachineDomain.Make: requires the initial state and every transition target to be below the number of states. The constructor (StateMachine.hpp:343-378) checks neither, so an out-of-range state would index past the states array.
- SdLoggerDomain.SdLogger.Log: requires a registered packet index. log() (SdLogger.hpp:37-39) sets bit packet_index for any uint16_t, and update() would then read uninitialised packet_sizes and packets entries.
- SdLoggerDomain.SdLogger: building a packet's bytes and writing blocks to the SD card are not modelled as code. Their outcomes are parameters.
- SPIDomain.MakeDevice: does not model validate_nss_pin and validate_spi_pins (SPI2.hpp:340-420), so it accepts pins those tables would reject. Its acceptance condition is complete except for those tables.
- SPIConfigTypes: the HAL constants are the values of the library's mock HAL header, not the vendor's register encodings.
- SPI Init and the SPI wrapper's DMA transfers are left out because they are HAL calls.
- DFSDM build (DFSDM.hpp:259-291) is not modelled: its refusal of two entries on one channel, its filter assignment (filter i while there are at most four entries, otherwise channel / 4) and its check that entries sharing a filter have the same filter registers are left out; MakeFilter models one entry's filter registers.
- DFSDM Init, the plain register readers and the flag clearers (check_latency_cycles, the extreme detectors, clear_watchdog_*) are left out because they are HAL register reads and writes.
- EXTI Init::init and the callback dispatch are left out because they are HAL calls.
- The ADC Instance read, adc_raw_to_voltage and Init are left out: they are floating point and HAL calls.
- Watchdog refresh and check_reset_flag are left out because they are HAL calls.
- TimerWrapper get_pwm (a compile-time pin check), get_hal_handle and get_cmsis_handle are left out because they return hardware handles.
- DMA Instance::start is left out because it is a HAL call, and so are get_MemBurst and get_PeriphBurst.
- DMADomain: interrupt numbers are the library's mock HAL values.
- MPU Init and configure_region are left out because they program the hardware.
- MPUManager's RAMBuffer is left out because it is empty.
- BuildContext: domain_index is left out, because a domain is named by its position.
- The state machine's Ethernet state orders (STLIB_ETH) are left out because they are Ethernet I/O.
- Generator.py's BoardDescription file reading and its module-level script are left out: they read JSON files and write C++ files. The model works on already-parsed lists.

## Findings

| source | as written | input that shows it | evidently intended | confidence | as-written member | corrected member |
|---|---|---|---|---|---|---|
| Src/HALAL/Services/Time/Scheduler.cpp:124-135 | allocate_slot runs ffs on ~free_bitmap_, so it finds a taken slot, not a free one | power-on bitmap 0xFFFFFFFF: no slot is found; with slot 0 taken, slot 0 is answered again | take the lowest free slot, leaving 0xFFFFFFFE after the first registration | likely (not executed) | SchedulerFindings.AllocateSlotAsWritten, SchedulerFindings.PowerOnAllocation, SchedulerFindings.TakenSlotFound | TimeScheduler.Scheduler.AllocateSlot |
| Src/HALAL/Services/Time/Scheduler.cpp:130 | the bound refuses only `idx > kMaxTasks`, so index 16 passes | with the scan corrected, all sixteen slots taken (bitmap 0xFFFF0000): ffs gives 17, idx is 16 and slot 16 is handed out | refuse every idx from 16 up | likely (not executed) | SchedulerFindings.AllocateSlotScanOnly, SchedulerFindings.SixteenTakenBitmap | TimeScheduler.Scheduler.AllocateSlot |
| Src/HALAL/Services/Time/Scheduler.cpp:229-243 | a task counts as not yet due when its time is after tick - 1 | next fire 5 at tick 5 gives interval 0, so the timer wraps and fires about 71 minutes late; at tick 0 every task gets interval 1 | a due task gets interval 1, and a later task gets its distance from the tick | likely (not executed) | SchedulerFindings.NextIntervalAsWritten, SchedulerFindings.DueNowFiresLate, SchedulerFindings.TickZeroFiresEarly | TimeScheduler.NextIntervalUs, TimeScheduler.NextIntervalUsNotLate |
| Src/HALAL/Services/Time/Scheduler.cpp:54-225 | active_task_count_ goes up in allocate_slot and down in both pop_front and release_slot, while insert_sorted leaves it alone | one repeating task registered and fired once: still queued, count 0, timer stopped, never fires again | the count equals the number of queued tasks | likely (not executed) | SchedulerFindings.CountAsWritten, SchedulerFindings.RegisterAsWritten, SchedulerFindings.FireAsWritten, SchedulerFindings.CountDrifts, SchedulerFindings.FiringDrifts, SchedulerFindings.RepeatingTaskStalls | TimeScheduler.Scheduler.Register, TimeScheduler.Scheduler.OnTimerUpdate |
| Inc/HALAL/Models/MPUManager/MPUManager.hpp:10-19 | the occupied count is a uint32_t and wraps before the comparison with the pool size | 100 bytes taken, then 0xFFFFFFF0 bytes: granted, count 84; the next 32 bytes are granted at 84, overlapping | refuse a request that does not fit | plausible (not executed) | NonCachedMemory.AllocateAsWritten, NonCachedMemory.WrapGrantsOverlap | NonCachedMemory.MPUManager.Allocate, NonCachedMemory.GrantedBlocksDisjoint |
| Inc/HALAL/Services/DFSDM/DFSDM.hpp:166-191 | the filter constructor's initialiser list omits the offset | a filter on PC1 with offset 5 records offset 0 | keep the requested offset | plausible (not executed) | DFSDMDomain.MakeFilterAsWritten, DFSDMDomain.OffsetDropped | DFSDMDomain.MakeFilter |
| Inc/HALAL/Services/DFSDM/DFSDM.hpp:366-371 | modify_filter_order compares the FOSR field (ratio - 1) with the ratio limits | Sinc3 at ratio 216 may switch to Sinc4 (limit 215); ratio 74 may switch to Sinc5 (limit 73) | compare the ratio itself | likely (not executed) | DFSDMDomain.FilterOrderFitsAsWritten, DFSDMDomain.FilterOrderOffByOne | DFSDMDomain.Filter.ModifyFilterOrder |
| Inc/HALAL/Services/DFSDM/DFSDM.hpp:422-436 | modify_analog_watchdog_hth also rewrites the low-threshold register | low threshold 0x1234 in 24-bit mode, then any high threshold: the low register is 0 | write only the high register | plausible (not executed) | DFSDMDomain.HighThresholdAsWritten, DFSDMDomain.HighThresholdClearsLow | DFSDMDomain.Filter.ModifyWatchdogHigh |
| Inc/HALAL/Services/DFSDM/DFSDM.hpp:545-551 | the clock-pin table holds pin numbers where pin masks are compared | PC2 (mask 0x0004) is refused and PC1 (mask 0x0002) accepted | accept exactly PC2, PB0, PE9, PD3 and PD10 | likely (not executed) | DFSDMClockDomain.ClkPinsAsWrittenMissPins | DFSDMClockDomain.ClkPinsAreTheNamedPins |
| Inc/HALAL/Services/DFSDM/DFSDM.hpp:565-569 | dfsdm_clk_af tests port C with pin value 2 | PC2 gets AF6 and PC1 gets AF4 | PC2 gets AF4, the other clock pins AF6 | plausible (not executed) | DFSDMClockDomain.ClkAfAsWritten, DFSDMClockDomain.ClkAfAsWrittenSwapped | DFSDMClockDomain.ClkAf |
| Inc/HALAL/Services/Time/TimerWrapper.hpp:71-117 | is_on_APB1 leaves out TIM23 and TIM24 | TIM23 with APB1 at 100 MHz and APB2 at 120 MHz reports 120 MHz | TIM23 and TIM24 use the APB1 clock | likely (not executed) | TimerWrapper.ClockFrequencyAsWritten, TimerWrapper.ClockFrequencyAsWrittenMisreadsTim23 | TimerWrapper.ClockFrequency, TimerWrapper.OnApb1MatchesRcc |
| Inc/HALAL/Services/Time/TimerWrapper.hpp:291-340 | for channels 4 and 6 the output-compare mode is written into the odd channel's CCMR field | channel 3 in mode 0x60, then channel 4 in mode 0x70: CCMR2 is 0x70, not 0x7060 | each channel writes its own field | likely (not executed) | TimerWrapper.OcCcmrAsWrittenMissesChannel4, TimerWrapper.OcCcmrAsWrittenMissesChannel6 | TimerWrapper.Wrapper.ConfigOutputCompareChannel |
| Inc/HALAL/Models/TimerDomain/TimerDomain.hpp:906-923 | get_gpio_af matches table rows on the pin's use only, ignoring the pin | PC12 as TIM15 channel 1 gets AF4; PA12 as TIM1 break gets AF1; PC0 is accepted for TIM1 channel 1 | match the row for the pin and use | likely (not executed) | TimerDomain.GpioAfAsWrittenIgnoresPin, TimerDomain.GpioAfAsWrittenMisplacesBreak, TimerDomain.GpioAfAsWrittenAcceptsUnlisted | TimerDomain.GpioAf |
| Inc/HALAL/Models/TimerDomain/TimerDomain.hpp:433-439 | the request check refuses Any32bit (0xFF) and accepts 9 to 11 | Any32bit is refused; request 9 passes and gets idxmap's 0xFF | accept exactly the timer numbers and the two wildcards | likely (not executed) | TimerDomain.ValidRequestAsWrittenMisjudges | TimerDomain.Build |
| Inc/HALAL/Models/TimerDomain/TimerDomain.hpp:466-470 | the named-timer loop removes a request by copying the last remaining entry over position i, which is only right while no earlier request was removed | TIM2, any timer, TIM3: the wildcard is lost and build stops with an error | remove the named request and keep every other | likely (not executed) | TimerDomain.RemainingAsWrittenLosesWildcard | TimerDomain.Build, TimerDomain.TwoNamedOneWildcardBuilds |
| Inc/HALAL/Models/TimerDomain/TimerDomain.hpp:462-465 | configurations are emitted named timers first, then Any32bit, then AnyGeneralPurpose, while instances are looked up by the request's own position | any timer, then TIM1: position 1 is given TIM15 | each request's configuration at its position | likely (not executed) | TimerDomain.ConfigsAsWrittenMisplaceNamed | TimerDomain.Build, TimerDomain.WildcardThenTim1Builds |
| Inc/HALAL/Models/TimerDomain/TimerDomain.hpp:509-529 | the general pool is built from used_timers, which the Any32bit loop never updates, so the 32-bit timers it hands out stay in the pool | with the request check corrected, one Any32bit request and six AnyGeneralPurpose ones: TIM2 goes to the Any32bit request and to the sixth AnyGeneralPurpose request | leave the timers given to Any32bit requests out of the general pool | likely (not executed) | TimerDomain.PoolGeneralAsWritten, TimerDomain.GeneralPoolAsWrittenReusesTim2 | TimerDomain.PoolsSpec, TimerDomain.AssignmentDistinct, TimerDomain.Any32ThenSixAnyBuilds |
| Inc/HALAL/Models/TimerDomain/TimerDomain.hpp:477-497 | count_32bit_requests is never incremented, so every Any32bit request reads remaining_32bit_timers[0] | with the request check corrected, two Any32bit requests: both get TIM2 | the k-th Any32bit request gets the k-th unused 32-bit timer, and build fails when they outnumber the unused ones | likely (not executed) | TimerDomain.Timer32AsWritten, TimerDomain.TwoAny32AsWrittenShareTim2 | TimerDomain.Any32Taken, TimerDomain.SameKindApart, TimerDomain.Build |
