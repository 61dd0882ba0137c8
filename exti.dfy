// EXTIDomain: external-interrupt requests.  Each pin number owns one EXTI
// line, so build refuses two requests on pins with the same number.
module EXTIDomain {
  import opened Wrappers
  import GPIODomain

  /** Bit b of a 16-bit mask. */
  predicate Bit(mask: bv16, b: bv16)
    requires b < 16
  {
    mask & (1 << b) != 0
  }

  /** The first set bit at or above position i, or 0xFF when there is none. */
  function FirstSetFrom(mask: bv16, i: bv16): (r: bv16)
    requires i <= 16
    ensures r == 0xFF || (i <= r < 16 && Bit(mask, r))
    decreases 16 - i
  {
    if i == 16 then 0xFF
    else if Bit(mask, i) then i
    else FirstSetFrom(mask, i + 1)
  }
  /** No bit between i and FirstSetFrom(mask, i) is set. */
  lemma {:induction false} ClearBelowFirst(mask: bv16, i: bv16, b: bv16)
    requires i <= b < 16 && b < FirstSetFrom(mask, i)
    ensures !Bit(mask, b)
    decreases 16 - i
  {
    if b != i {
      ClearBelowFirst(mask, i + 1, b);
    }
  }

  /** The pin number of a GPIO_PIN_x mask: its lowest set bit, 0xFF for 0. */
  function PinIndex(mask: bv16): bv16
  {
    FirstSetFrom(mask, 0)
  }

  /** PinIndex is the lowest set bit, and 0xFF exactly for the empty mask. */
  lemma PinIndexIsLowest(mask: bv16)
    ensures mask == 0 <==> PinIndex(mask) == 0xFF
    ensures mask != 0 ==> PinIndex(mask) < 16 && Bit(mask, PinIndex(mask))
    ensures forall b: bv16 :: b < PinIndex(mask) && b < 16 ==> !Bit(mask, b)
  {
    forall b: bv16 | b < PinIndex(mask) && b < 16 ensures !Bit(mask, b) {
      ClearBelowFirst(mask, 0, b);
    }
    if PinIndex(mask) == 0xFF {
      AllClearIsZero(mask);
    }
  }

  lemma AllClearIsZero(mask: bv16)
    requires forall b: bv16 :: b < 16 ==> !Bit(mask, b)
    ensures mask == 0
  {
    assert !Bit(mask, 0) && !Bit(mask, 1) && !Bit(mask, 2) && !Bit(mask, 3);
    assert !Bit(mask, 4) && !Bit(mask, 5) && !Bit(mask, 6) && !Bit(mask, 7);
    assert !Bit(mask, 8) && !Bit(mask, 9) && !Bit(mask, 10) && !Bit(mask, 11);
    assert !Bit(mask, 12) && !Bit(mask, 13) && !Bit(mask, 14) && !Bit(mask, 15);
  }

  /** get_pin_index: scans bits 0 to 15. */
  method GetPinIndex(mask: bv16) returns (r: bv16)
    ensures r == PinIndex(mask)
  {
    var i: bv16 := 0;
    while i < 16
      invariant i <= 16 && FirstSetFrom(mask, i) == FirstSetFrom(mask, 0)
      decreases 16 - i
    {
      if mask & (1 << i) != 0 {
        return i;
      }
      assert !Bit(mask, i);
      i := i + 1;
    }
    return 0xFF;
  }

  /** The edge that triggers the interrupt; its value is cast to the GPIO
      operation mode. */
  datatype Trigger = RisingEdge | FallingEdge | BothEdges

  function TriggerMode(t: Trigger): (m: GPIODomain.OperationMode)
    ensures m.ExtiRising? || m.ExtiFalling? || m.ExtiRisingFalling?
  {
    match t
    case RisingEdge => GPIODomain.ExtiRising
    case FallingEdge => GPIODomain.ExtiFalling
    case BothEdges => GPIODomain.ExtiRisingFalling
  }

  /** The request's GPIO (no pull, low speed, no alternate function) is
      accepted for every pin and trigger, and each trigger has its own mode. */
  lemma DeviceGpioAccepted(p: GPIODomain.Pin, t: Trigger, u: Trigger)
    ensures GPIODomain.MakeGpio(p, TriggerMode(t), GPIODomain.NoPull, GPIODomain.Low, GPIODomain.NoAF).Success?
    ensures TriggerMode(t) == TriggerMode(u) ==> t == u
  {
  }

  /** An inscribed request: the GPIO's index, its pin mask (the low 16 bits
      of the GPIO pin) and the callback, as an opaque number. */
  datatype Entry = Entry(pinIdx: nat, pinMask: bv16, action: nat)

  function EntryFor(pinIdx: nat, gpioPin: bv32, action: nat): Entry
  {
    Entry(pinIdx, (gpioPin & 0xFFFF) as bv16, action)
  }

  datatype Config = Config(pinIdx: nat, interruptNum: bv8, action: nat)

  /** The configuration build gives an entry: its line is its pin number. */
  function ConfigFor(e: Entry): Config
  {
    Config(e.pinIdx, PinIndex(e.pinMask) as bv8, e.action)
  }

  /** The pin numbers of a list of entries, in order. */
  function PinNumbers(entries: seq<Entry>): (r: seq<bv16>)
    ensures |r| == |entries|
  {
    if entries == [] then []
    else PinNumbers(entries[..|entries| - 1]) + [PinIndex(entries[|entries| - 1].pinMask)]
  }

  lemma {:induction false} PinNumbersAt(entries: seq<Entry>, k: nat)
    requires k < |entries|
    ensures PinNumbers(entries)[k] == PinIndex(entries[k].pinMask)
    decreases |entries|
  {
    var n := |entries| - 1;
    if k < n {
      PinNumbersAt(entries[..n], k);
    }
  }

  /** Every pin number is a line (below 16), and no two are equal. */
  predicate Distinct(pins: seq<bv16>)
  {
    (forall k :: 0 <= k < |pins| ==> pins[k] < 16) &&
    forall j, k :: 0 <= j < k < |pins| ==> pins[j] != pins[k]
  }

  lemma DistinctSnoc(pins: seq<bv16>, p: bv16)
    ensures Distinct(pins + [p]) <==> Distinct(pins) && p < 16 && p !in pins
  {
    var ps := pins + [p];
    assert forall k :: 0 <= k < |pins| ==> ps[k] == pins[k];
    assert ps[|pins|] == p;
    if Distinct(pins) && p < 16 && p !in pins {
      forall j, k | 0 <= j < k < |ps| ensures ps[j] != ps[k] {
        if k == |pins| {
          assert ps[j] == pins[j];
        } else {
          assert ps[j] == pins[j] && ps[k] == pins[k];
        }
      }
    }
  }

  /** Every entry has a pin, and no two share a pin number. */
  predicate DistinctLines(entries: seq<Entry>)
  {
    Distinct(PinNumbers(entries))
  }

  /** DistinctLines in terms of the entries themselves: every mask has a
      pin, and two entries never have the same pin number. */
  lemma DistinctLinesMeans(entries: seq<Entry>)
    ensures DistinctLines(entries) <==>
      (forall k :: 0 <= k < |entries| ==> PinIndex(entries[k].pinMask) < 16) &&
      (forall j, k :: 0 <= j < k < |entries| ==> PinIndex(entries[j].pinMask) != PinIndex(entries[k].pinMask))
  {
    forall k | 0 <= k < |entries| {
      PinNumbersAt(entries, k);
    }
  }

  /** build: each entry's line is its pin number; an entry without a pin,
      or one whose line is already claimed, is a build error.  The 16-bit
      used-lines mask is kept as the set of its set bits. */
  method Build(entries: seq<Entry>) returns (r: Result<seq<Config>>)
    ensures r.Success? <==> DistinctLines(entries)
    ensures r.Success? ==> |r.value| == |entries| && forall i :: 0 <= i < |entries| ==> r.value[i] == ConfigFor(entries[i])
  {
    var cfgs: seq<Config> := [];
    var usedLines: set<bv16> := {};
    ghost var pins: seq<bv16> := [];
    var i := 0;
    while i < |entries|
      invariant i <= |entries| && |cfgs| == i
      invariant pins == PinNumbers(entries[..i]) && Distinct(pins)
      invariant forall p :: p in usedLines <==> p in pins
      invariant forall k :: 0 <= k < i ==> cfgs[k] == ConfigFor(entries[k])
    {
      var e := entries[i];
      var pinNum := GetPinIndex(e.pinMask);
      assert entries[..i + 1][..i] == entries[..i];
      assert PinNumbers(entries[..i + 1]) == pins + [pinNum];
      DistinctSnoc(pins, pinNum);
      if pinNum >= 16 {
        NotDistinctAfter(entries, i + 1);
        return Failure("Invalid Pin for EXTI");
      }
      if pinNum in usedLines {
        NotDistinctAfter(entries, i + 1);
        return Failure("EXTI line already used");
      }
      usedLines := usedLines + {pinNum};
      pins := pins + [pinNum];
      cfgs := cfgs + [Config(e.pinIdx, pinNum as bv8, e.action)];
      i := i + 1;
    }
    assert entries[..i] == entries;
    return Success(cfgs);
  }

  /** A prefix whose lines clash makes the whole list clash. */
  lemma NotDistinctAfter(entries: seq<Entry>, n: nat)
    requires n <= |entries| && !DistinctLines(entries[..n])
    ensures !DistinctLines(entries)
  {
    var ps := PinNumbers(entries);
    var qs := PinNumbers(entries[..n]);
    forall k | 0 <= k < n ensures qs[k] == ps[k] {
      PinNumbersAt(entries[..n], k);
      PinNumbersAt(entries, k);
    }
    assert qs == ps[..n];
  }

  /** The interrupt vector that serves a line. */
  datatype Irq = Exti(line: bv8) | Exti9To5 | Exti15To10

  function IrqFor(id: bv8): (irq: Irq)
    ensures irq.Exti? ==> irq.line == id
  {
    if id <= 4 then Exti(id)
    else if id <= 9 then Exti9To5
    else Exti15To10
  }

  /** Lines 0 to 4 have a vector each; 5 to 9 share one and 10 to 15
      share another. */
  lemma IrqShared(a: bv8, b: bv8)
    requires a < 16 && b < 16
    ensures IrqFor(a) == IrqFor(b) <==> a == b || (5 <= a <= 9 && 5 <= b <= 9) || (10 <= a && 10 <= b)
  {
  }

  /** A runtime interrupt instance; it starts off and init turns it on. */
  class Instance {
    var isOn: bool
    const action: nat

    constructor (action: nat)
      ensures !isOn && this.action == action
    {
      isOn := false;
      this.action := action;
    }

    method TurnOn()
      modifies this`isOn
      ensures isOn
    {
      isOn := true;
    }

    method TurnOff()
      modifies this`isOn
      ensures !isOn
    {
      isOn := false;
    }
  }
}
