// GPIODomain: pins, the GPIO request with its alternate-function checks,
// and the build step that turns the inscribed entries into init structures.
module GPIODomain {
  import opened Wrappers

  datatype Port = A | B | C | D | E | F | G | H

  datatype OperationMode =
    | Input | OutputPushPull | OutputOpenDrain | Analog
    | AltPushPull | AltOpenDrain
    | ExtiRising | ExtiFalling | ExtiRisingFalling

  datatype Pull = NoPull | Up | Down

  datatype Speed = Low | Medium | High | VeryHigh

  /** AF0 .. AF15. */
  newtype AfNumber = n: int | 0 <= n < 16

  datatype AlternateFunction = NoAF | AF(number: AfNumber)

  /** The enum's stored value: NO_AF is 20 and AFk is 15 - k, the inverse
      of the AF number. */
  function AfCode(af: AlternateFunction): (code: bv8)
    ensures af.NoAF? <==> code == 20
    ensures af.AF? ==> code < 16 && code as int + af.number as int == 15
  {
    match af
    case NoAF => 20
    case AF(k) => (15 - k) as bv8
  }

  predicate IsAlternate(mode: OperationMode)
  {
    mode == AltPushPull || mode == AltOpenDrain
  }

  /** A pin: its port, its GPIO_PIN_x mask, and the alternate functions it
      offers as a 16-bit mask over the stored codes. */
  datatype Pin = Pin(port: Port, pin: bv32, afs: bv16)

  /** Bit b of a 16-bit mask. */
  predicate Bit16(mask: bv16, b: bv8)
    requires b < 16
  {
    (mask >> b) & 1 == 1
  }

  /** valid_af: NO_AF always; otherwise the bit at the AF's stored code. */
  function ValidAf(p: Pin, af: AlternateFunction): (ok: bool)
    ensures af.NoAF? ==> ok
    ensures af.AF? ==> (ok <==> Bit16(p.afs, AfCode(af)))
  {
    if af.NoAF? then true
    else
      var code := AfCode(af);
      ShiftIsBit(p.afs, code);
      (1 << code) & p.afs != 0
  }

  /** Testing a mask against a one-bit shift reads that bit. */
  lemma ShiftIsBit(mask: bv16, code: bv8)
    requires code < 16
    ensures ((1 << code) & mask != 0) <==> Bit16(mask, code)
  {
  }

  /** Pin equality compares the port and the pin mask only. */
  predicate SamePin(p: Pin, q: Pin)
  {
    p.port == q.port && p.pin == q.pin
  }

  /** Two descriptions of one physical pin that list different alternate
      functions are the same pin, and sameness is an equivalence. */
  lemma SamePinIgnoresAfs(p: Pin, afs: bv16)
    ensures SamePin(p, p.(afs := afs))
    ensures SamePin(p.(afs := afs), p)
  {
  }

  /** An inscribed GPIO request. */
  datatype Entry = Entry(port: Port, pin: bv32, mode: OperationMode, pull: Pull, speed: Speed, af: AlternateFunction)

  /** The GPIO request's constructor: the alternate function must be one the
      pin offers, and an alternate mode needs one. */
  function MakeGpio(p: Pin, mode: OperationMode, pull: Pull, speed: Speed, af: AlternateFunction): (r: Result<Entry>)
    ensures r.Success? <==> ValidAf(p, af) && !(IsAlternate(mode) && af.NoAF?)
    ensures r.Success? ==> r.value == Entry(p.port, p.pin, mode, pull, speed, af)
  {
    if !ValidAf(p, af) then Failure("Alternate function not valid for this pin")
    else if IsAlternate(mode) && af.NoAF? then Failure("Alternate function must be specified for alternate modes")
    else Success(Entry(p.port, p.pin, mode, pull, speed, af))
  }

  /** The HAL init structure, with its mode, pull and speed as the model's
      enumerations. */
  datatype InitData = InitData(pin: bv32, mode: OperationMode, pull: Pull, speed: Speed, alternate: bv32)

  datatype Config = Config(port: Port, init: InitData)

  /** One entry's configuration: Alternate is 15 - code for the alternate
      modes (a uint32 subtraction) and stays 0 otherwise. */
  function ConfigFor(e: Entry): (c: Config)
    ensures c.port == e.port && c.init.pin == e.pin && c.init.mode == e.mode
    ensures IsAlternate(e.mode) && e.af.AF? ==> c.init.alternate as int == e.af.number as int
    ensures !IsAlternate(e.mode) ==> c.init.alternate == 0
  {
    var alternate: bv32 := if IsAlternate(e.mode) then 15 - (AfCode(e.af) as bv32) else 0;
    Config(e.port, InitData(e.pin, e.mode, e.pull, e.speed, alternate))
  }

  /** No two entries name the same port and pin. */
  predicate NoDuplicatePins(pins: seq<Entry>)
  {
    forall i, j :: 0 <= j < i < |pins| ==> !(pins[j].pin == pins[i].pin && pins[j].port == pins[i].port)
  }

  /** build: a pairwise scan for a repeated (port, pin), then one
      configuration per entry, in order. */
  method Build(pins: seq<Entry>) returns (r: Result<seq<Config>>)
    ensures r.Success? <==> NoDuplicatePins(pins)
    ensures r.Success? ==> |r.value| == |pins| && forall i :: 0 <= i < |pins| ==> r.value[i] == ConfigFor(pins[i])
  {
    var cfgs: seq<Config> := [];
    var i := 0;
    while i < |pins|
      invariant i <= |pins| && |cfgs| == i
      invariant NoDuplicatePins(pins[..i])
      invariant forall k :: 0 <= k < i ==> cfgs[k] == ConfigFor(pins[k])
    {
      var e := pins[i];
      var j := 0;
      while j < i
        invariant j <= i
        invariant forall k :: 0 <= k < j ==> !(pins[k].pin == e.pin && pins[k].port == e.port)
      {
        var prev := pins[j];
        if prev.pin == e.pin && prev.port == e.port {
          return Failure("GPIO already inscribed");
        }
        j := j + 1;
      }
      cfgs := cfgs + [ConfigFor(e)];
      i := i + 1;
      assert pins[..i][..i - 1] == pins[..i - 1];
    }
    assert pins[..i] == pins;
    return Success(cfgs);
  }
}
