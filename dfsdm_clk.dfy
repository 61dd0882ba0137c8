// DFSDMClockDomain: the DFSDM clock-out request (its pin, alternate
// function and divider checks), the build step that takes exactly one, and
// the clock-out instance that programs CKOUTDIV in DFSDM channel 0.
module DFSDMClockDomain {
  import opened Wrappers
  import GPIODomain
  import Arith

  /** A row of valid_clk_pins: a port and a value compared with the pin's
      GPIO_PIN_x mask. */
  datatype ClkPin = ClkPin(port: GPIODomain.Port, pin: bv32)

  /** valid_clk_pins as written: {C, 2}, {B, 0}, {E, 9}, {D, 3}, {D, 10},
      pin NUMBERS where the pin field holds a mask. */
  const ClkPinsAsWritten: seq<ClkPin> := [
    ClkPin(GPIODomain.C, 2), ClkPin(GPIODomain.B, 0), ClkPin(GPIODomain.E, 9),
    ClkPin(GPIODomain.D, 3), ClkPin(GPIODomain.D, 10)]

  /** The pins the table names, PC2, PB0, PE9, PD3 and PD10, as masks. */
  const ClkPins: seq<ClkPin> := [
    ClkPin(GPIODomain.C, 0x0004), ClkPin(GPIODomain.B, 0x0001), ClkPin(GPIODomain.E, 0x0200),
    ClkPin(GPIODomain.D, 0x0008), ClkPin(GPIODomain.D, 0x0400)]

  predicate Listed(table: seq<ClkPin>, pin: GPIODomain.Pin)
  {
    exists k :: 0 <= k < |table| && table[k].port == pin.port && table[k].pin == pin.pin
  }

  /** is_valid_dfsdm_clk_pin's search: whether the table lists the pin. */
  method FindClkPin(table: seq<ClkPin>, pin: GPIODomain.Pin) returns (found: bool)
    ensures found <==> Listed(table, pin)
  {
    found := false;
    var i := 0;
    while i < |table|
      invariant i <= |table|
      invariant !found ==> forall k :: 0 <= k < i ==> !(table[k].port == pin.port && table[k].pin == pin.pin)
      invariant found ==> Listed(table, pin)
    {
      if table[i].port == pin.port && table[i].pin == pin.pin {
        found := true;
        break;
      }
      i := i + 1;
    }
  }

  /** With the table as written, PC2 (mask 0x0004) is refused and PC1
      (mask 0x0002) accepted; no other pin of any port matches, since
      masks 0, 9, 3 and 10 name no single pin. */
  lemma ClkPinsAsWrittenMissPins(afs: bv16)
    ensures !Listed(ClkPinsAsWritten, GPIODomain.Pin(GPIODomain.C, 0x0004, afs))
    ensures Listed(ClkPinsAsWritten, GPIODomain.Pin(GPIODomain.C, 0x0002, afs))
    ensures forall k :: 0 <= k < |ClkPinsAsWritten| && k != 0 ==>
      ClkPinsAsWritten[k].pin !in {0x0001, 0x0002, 0x0004, 0x0008, 0x0010, 0x0020, 0x0040, 0x0080,
                                   0x0100, 0x0200, 0x0400, 0x0800, 0x1000, 0x2000, 0x4000, 0x8000}
  {
    assert ClkPinsAsWritten[0].port == GPIODomain.C && ClkPinsAsWritten[0].pin == 0x0002;
  }

  /** The corrected table takes exactly PC2, PB0, PE9, PD3 and PD10. */
  lemma ClkPinsAreTheNamedPins(pin: GPIODomain.Pin)
    ensures Listed(ClkPins, pin) <==>
      (pin.port == GPIODomain.C && pin.pin == 0x0004) || (pin.port == GPIODomain.B && pin.pin == 0x0001) ||
      (pin.port == GPIODomain.E && pin.pin == 0x0200) || (pin.port == GPIODomain.D && pin.pin == 0x0008) ||
      (pin.port == GPIODomain.D && pin.pin == 0x0400)
  {
    if (pin.port == GPIODomain.C && pin.pin == 0x0004) {
      assert ClkPins[0].port == pin.port && ClkPins[0].pin == pin.pin;
    } else if (pin.port == GPIODomain.B && pin.pin == 0x0001) {
      assert ClkPins[1].port == pin.port && ClkPins[1].pin == pin.pin;
    } else if (pin.port == GPIODomain.E && pin.pin == 0x0200) {
      assert ClkPins[2].port == pin.port && ClkPins[2].pin == pin.pin;
    } else if (pin.port == GPIODomain.D && pin.pin == 0x0008) {
      assert ClkPins[3].port == pin.port && ClkPins[3].pin == pin.pin;
    } else if (pin.port == GPIODomain.D && pin.pin == 0x0400) {
      assert ClkPins[4].port == pin.port && ClkPins[4].pin == pin.pin;
    }
  }

  const AF4 := GPIODomain.AF(4)
  const AF6 := GPIODomain.AF(6)

  /** dfsdm_clk_af as written: AF4 for port C with pin value 2, else AF6. */
  function ClkAfAsWritten(pin: GPIODomain.Pin): (af: GPIODomain.AlternateFunction)
    ensures af == AF4 <==> pin.port == GPIODomain.C && pin.pin == 0x0002
    ensures af == AF4 || af == AF6
    ensures af != ClkAf(pin) <==> pin.port == GPIODomain.C && (pin.pin == 0x0002 || pin.pin == 0x0004)
  {
    if pin.port == GPIODomain.C && pin.pin == 2 then AF4 else AF6
  }

  /** dfsdm_clk_af on masks: AF4 for PC2, AF6 for every other pin. */
  function ClkAf(pin: GPIODomain.Pin): (af: GPIODomain.AlternateFunction)
    ensures af == AF4 <==> pin.port == GPIODomain.C && pin.pin == 0x0004
    ensures af == AF4 || af == AF6
  {
    if pin.port == GPIODomain.C && pin.pin == 0x0004 then AF4 else AF6
  }

  /** As written, PC2 gets AF6 and PC1 gets AF4. */
  lemma ClkAfAsWrittenSwapped(afs: bv16)
    ensures ClkAfAsWritten(GPIODomain.Pin(GPIODomain.C, 0x0004, afs)) == AF6
    ensures ClkAfAsWritten(GPIODomain.Pin(GPIODomain.C, 0x0002, afs)) == AF4
    ensures ClkAf(GPIODomain.Pin(GPIODomain.C, 0x0004, afs)) == AF4
  {
  }

  const MinDivider: nat := 4

  /** A uint8_t. */
  type U8 = n: nat | n < 0x100

  /** The inscribed clock-out: its GPIO request and divider. */
  datatype Request = Request(gpio: GPIODomain.Entry, divider: U8)

  /** The DFSDM_CLK constructor: the GPIO request (an alternate push-pull,
      very-high-speed pin without pull on dfsdm_clk_af's function) is made
      first, then the pin is checked against the table, then the divider
      must be at least 4. */
  function MakeClockOut(pin: GPIODomain.Pin, divider: U8): (r: Result<Request>)
    ensures r.Success? <==>
      (GPIODomain.MakeGpio(pin, GPIODomain.AltPushPull, GPIODomain.NoPull, GPIODomain.VeryHigh, ClkAf(pin)).Success? &&
       Listed(ClkPins, pin) && divider >= MinDivider)
    ensures r.Success? ==>
      r.value.divider == divider && r.value.gpio.af == ClkAf(pin) &&
      r.value.gpio.port == pin.port && r.value.gpio.pin == pin.pin
  {
    var gpio := GPIODomain.MakeGpio(pin, GPIODomain.AltPushPull, GPIODomain.NoPull, GPIODomain.VeryHigh, ClkAf(pin));
    if gpio.Failure? then Failure(gpio.error)
    else if !Listed(ClkPins, pin) then Failure("This pin cannot be used as DFSDM CLK OUT")
    else if divider < MinDivider then Failure("The divider must be at least frequency/4")
    else Success(Request(gpio.value, divider))
  }

  /** The configuration of the clock-out: its GPIO index and divider. */
  datatype Config = Config(gpioIdx: nat, divider: U8)

  /** build: exactly one clock-out, copied. */
  function Build(entries: seq<Config>): (r: Result<seq<Config>>)
    ensures r.Success? <==> |entries| == 1
    ensures r.Success? ==> r.value == entries
  {
    if |entries| != 1 then Failure("You can't have more than one clock_out") else Success(entries)
  }

  /** The clock-out instance: the divider it was given and the fields of
      DFSDM channel 0's CHCFGR1 that init writes. */
  class ClockOut {
    var divider: U8
    /** The DFSDM1 clock enable in RCC APB2ENR. */
    var rccEnabled: bool
    /** CKOUTSRC: false selects the kernel clock. */
    var audioSource: bool
    /** CKOUTDIV: the output is the source divided by CKOUTDIV + 1. */
    var ckoutdiv: nat
    /** DFSDMEN. */
    var enabled: bool

    /** The divider is at least 4, and an enabled output divides by it. */
    ghost predicate Valid()
      reads this
    {
      divider >= MinDivider && (enabled ==> ckoutdiv + 1 == divider && rccEnabled && !audioSource)
    }

    /** Init::init: the instance takes the configured divider and runs
        init. */
    constructor (cfg: Config)
      requires cfg.divider >= MinDivider
      ensures Valid() && divider == cfg.divider && enabled && ckoutdiv + 1 == cfg.divider
    {
      divider := cfg.divider;
      rccEnabled, audioSource, ckoutdiv, enabled := false, false, 0, false;
      new;
      Init();
    }

    /** init: clocks DFSDM1, selects the kernel clock, writes the divider
        minus one into CKOUTDIV and enables the output. */
    method Init()
      requires divider >= 1
      modifies this`rccEnabled, this`audioSource, this`ckoutdiv, this`enabled
      ensures rccEnabled && !audioSource && ckoutdiv + 1 == divider && enabled
    {
      rccEnabled := true;
      audioSource := false;
      ckoutdiv := 0;
      ckoutdiv := divider - 1;
      enabled := true;
    }

    /** disable: clears DFSDMEN and reports it clear. */
    method Disable() returns (ok: bool)
      modifies this`enabled
      ensures ok && !enabled
    {
      enabled := false;
      ok := !enabled;
    }

    /** enable: sets DFSDMEN and reports it set. */
    method Enable() returns (ok: bool)
      modifies this`enabled
      ensures ok && enabled
    {
      enabled := true;
      ok := enabled;
    }

    /** change_divider: a divider below 4 is refused and changes nothing;
        otherwise the output is stopped and re-initialised with it. */
    method ChangeDivider(div: U8) returns (ok: bool)
      requires Valid()
      modifies this
      ensures Valid()
      ensures ok <==> div >= MinDivider
      ensures ok ==> divider == div && enabled && ckoutdiv + 1 == div
      ensures !ok ==> unchanged(this)
    {
      if div < MinDivider {
        return false;
      }
      divider := div;
      var off := Disable();
      if off {
        Init();
        return true;
      }
      return false;
    }

    /** The output frequency for a kernel clock. */
    function OutputHz(kernelHz: nat): nat
      reads this
      requires Valid() && enabled
    {
      kernelHz / (ckoutdiv + 1)
    }
  }

  /** A running clock-out never exceeds a quarter of the kernel clock. */
  lemma OutputAtMostQuarter(c: ClockOut, kernelHz: nat)
    requires c.Valid() && c.enabled
    ensures c.OutputHz(kernelHz) <= kernelHz / MinDivider
  {
    Arith.DivAntiMonotone(kernelHz, MinDivider, c.ckoutdiv + 1);
  }
}
