// SPIDomain: the SPI request (Device) with its pin and NSS checks, the
// alternate function of each SPI pin, the baud-rate prescaler search, and
// the build step that refuses a peripheral requested twice.
module SPIDomain {
  import opened Wrappers
  import GPIODomain
  import SPIConfigTypes
  import Arith

  datatype SpiPeripheral = Spi1 | Spi2 | Spi3 | Spi4 | Spi5 | Spi6

  datatype SpiMode = Master | Slave

  /** The peripheral's slot in build's used_peripherals. */
  function PeripheralIndex(p: SpiPeripheral): (i: nat)
    ensures i < 6
  {
    match p
    case Spi1 => 0
    case Spi2 => 1
    case Spi3 => 2
    case Spi4 => 3
    case Spi5 => 4
    case Spi6 => 5
  }

  lemma PeripheralIndexInjective(p: SpiPeripheral, q: SpiPeripheral)
    ensures PeripheralIndex(p) == PeripheralIndex(q) ==> p == q
  {
  }

  function Name(p: SpiPeripheral): string
  {
    match p
    case Spi1 => "SPI1"
    case Spi2 => "SPI2"
    case Spi3 => "SPI3"
    case Spi4 => "SPI4"
    case Spi5 => "SPI5"
    case Spi6 => "SPI6"
  }

  // ------------------------------------------------------------ alternate functions

  /** The pin is port `port`, GPIO_PIN_n for the mask 1 << n. */
  predicate Is(pin: GPIODomain.Pin, port: GPIODomain.Port, mask: bv32)
  {
    pin.port == port && pin.pin == mask
  }

  const AF5 := GPIODomain.AF(5)
  const AF6 := GPIODomain.AF(6)
  const AF7 := GPIODomain.AF(7)
  const AF8 := GPIODomain.AF(8)

  /** get_af: AF5, except for the listed SPI2, SPI3 and SPI6 pins. */
  function GetAf(pin: GPIODomain.Pin, p: SpiPeripheral): (af: GPIODomain.AlternateFunction)
    ensures af == AF5 || af == AF6 || af == AF7 || af == AF8
    ensures p != Spi2 && p != Spi3 && p != Spi6 ==> af == AF5
  {
    if p == Spi2 && Is(pin, GPIODomain.B, 0x0010) then AF7
    else if p == Spi3 then
      if Is(pin, GPIODomain.A, 0x0010) then AF6
      else if Is(pin, GPIODomain.A, 0x8000) then AF6
      else if Is(pin, GPIODomain.B, 0x0004) then AF7
      else if Is(pin, GPIODomain.B, 0x0008) then AF6
      else if Is(pin, GPIODomain.B, 0x0010) then AF6
      else if Is(pin, GPIODomain.B, 0x0020) then AF7
      else if Is(pin, GPIODomain.C, 0x0400) then AF6
      else if Is(pin, GPIODomain.C, 0x0800) then AF6
      else if Is(pin, GPIODomain.C, 0x1000) then AF6
      else AF5
    else if p == Spi6 then
      if Is(pin, GPIODomain.A, 0x0010) then AF8
      else if Is(pin, GPIODomain.A, 0x0020) then AF8
      else if Is(pin, GPIODomain.A, 0x0040) then AF8
      else if Is(pin, GPIODomain.A, 0x0080) then AF8
      else if Is(pin, GPIODomain.A, 0x8000) then AF7
      else if Is(pin, GPIODomain.B, 0x0008) then AF8
      else if Is(pin, GPIODomain.B, 0x0010) then AF8
      else if Is(pin, GPIODomain.B, 0x0020) then AF8
      else AF5
    else AF5
  }

  /** get_af compares pins the way pin equality does: by port and pin. */
  lemma GetAfBySamePin(a: GPIODomain.Pin, b: GPIODomain.Pin, p: SpiPeripheral)
    requires GPIODomain.SamePin(a, b)
    ensures GetAf(a, p) == GetAf(b, p)
  {
  }

  /** PB4 takes AF7 on SPI2, AF6 on SPI3, AF8 on SPI6 and AF5 elsewhere;
      a pin on port D is AF5 on every peripheral. */
  lemma GetAfExamples(pin: GPIODomain.Pin, p: SpiPeripheral)
    ensures Is(pin, GPIODomain.B, 0x0010) ==>
      GetAf(pin, p) == (if p == Spi2 then AF7 else if p == Spi3 then AF6 else if p == Spi6 then AF8 else AF5)
    ensures pin.port == GPIODomain.D ==> GetAf(pin, p) == AF5
  {
  }

  // ------------------------------------------------------------ prescaler

  function Pow2(k: nat): (r: nat)
    ensures r >= 1
  {
    if k == 0 then 1 else 2 * Pow2(k - 1)
  }

  /** get_prescaler_flag: 2, 4, ..., 256 give the codes 0 .. 7 of
      SPI_BAUDRATEPRESCALER_2 .. _256; anything else is an error. */
  function PrescalerFlag(prescaler: nat): (r: Result<nat>)
    ensures r.Success? ==> r.value < 8 && prescaler == Pow2(r.value + 1)
  {
    assert Pow2(8) == 256 && Pow2(4) == 16;
    if prescaler == 2 then Success(0)
    else if prescaler == 4 then Success(1)
    else if prescaler == 8 then Success(2)
    else if prescaler == 16 then Success(3)
    else if prescaler == 32 then Success(4)
    else if prescaler == 64 then Success(5)
    else if prescaler == 128 then Success(6)
    else if prescaler == 256 then Success(7)
    else Failure("Invalid prescaler value")
  }

  /** Every power of two from 2 to 256 has a flag, the exponent minus one. */
  lemma PrescalerFlagOfPow2(k: nat)
    requires 1 <= k <= 8
    ensures PrescalerFlag(Pow2(k)) == Success(k - 1)
  {
    assert Pow2(8) == 256 && Pow2(4) == 16;
  }

  /** Dividing by 2^k brings the source clock within the maximum baud rate. */
  predicate Fits(srcFreq: nat, maxBaud: nat, k: nat)
  {
    srcFreq / Pow2(k) <= maxBaud
  }

  /** The first exponent from k up to 8 that fits, or 9 when none does. */
  function LeastFitFrom(srcFreq: nat, maxBaud: nat, k: nat): nat
    requires 1 <= k <= 9
    decreases 9 - k
  {
    if k == 9 || Fits(srcFreq, maxBaud, k) then k else LeastFitFrom(srcFreq, maxBaud, k + 1)
  }

  /** calculate_prescaler as a value: the flag of the smallest power of two
      from 2 to 256 that brings the clock within the maximum baud rate. */
  function Prescaler(srcFreq: nat, maxBaud: nat): Result<nat>
  {
    var k := LeastFitFrom(srcFreq, maxBaud, 1);
    if k <= 8 then PrescalerFlag(Pow2(k)) else Failure("Cannot achieve desired baudrate, speed is too low")
  }

  lemma {:induction false} LeastFitFromIsLeast(srcFreq: nat, maxBaud: nat, k: nat)
    requires 1 <= k <= 9
    ensures var r := LeastFitFrom(srcFreq, maxBaud, k);
      k <= r <= 9 && (r <= 8 ==> Fits(srcFreq, maxBaud, r)) &&
      forall j :: k <= j < r ==> !Fits(srcFreq, maxBaud, j)
    decreases 9 - k
  {
    if k < 9 && !Fits(srcFreq, maxBaud, k) {
      LeastFitFromIsLeast(srcFreq, maxBaud, k + 1);
    }
  }

  lemma {:induction false} Pow2Monotone(j: nat, k: nat)
    requires j <= k
    ensures Pow2(j) <= Pow2(k)
    decreases k
  {
    if j < k {
      Pow2Monotone(j, k - 1);
    }
  }

  /** Once a power fits, every larger one does. */
  lemma FitsMonotone(srcFreq: nat, maxBaud: nat, j: nat, k: nat)
    requires j <= k && Fits(srcFreq, maxBaud, j)
    ensures Fits(srcFreq, maxBaud, k)
  {
    Pow2Monotone(j, k);
    Arith.DivAntiMonotone(srcFreq, Pow2(j), Pow2(k));
  }

  /** The prescaler is the smallest power of two p with 2 <= p <= 256 and
      src / p <= max_baud; there is one exactly when 256 fits. */
  lemma PrescalerIsSmallestFit(srcFreq: nat, maxBaud: nat)
    ensures Prescaler(srcFreq, maxBaud).Success? <==> Fits(srcFreq, maxBaud, 8)
    ensures Prescaler(srcFreq, maxBaud).Success? ==>
      var k := Prescaler(srcFreq, maxBaud).value + 1;
      1 <= k <= 8 && Fits(srcFreq, maxBaud, k) && forall j :: 1 <= j < k ==> !Fits(srcFreq, maxBaud, j)
  {
    var k := LeastFitFrom(srcFreq, maxBaud, 1);
    LeastFitFromIsLeast(srcFreq, maxBaud, 1);
    if k <= 8 {
      PrescalerFlagOfPow2(k);
      assert Prescaler(srcFreq, maxBaud) == Success(k - 1);
      FitsMonotone(srcFreq, maxBaud, k, 8);
    } else {
      assert !Fits(srcFreq, maxBaud, 8);
    }
  }

  /** A 64 MHz kernel clock gives PRESCALER_4 for a 20 MHz maximum and
      PRESCALER_8 for an 8 MHz maximum. */
  lemma PrescalerExamples()
    ensures Prescaler(64000000, 20000000) == Success(1)
    ensures Prescaler(64000000, 8000000) == Success(2)
  {
    assert Pow2(2) == 4 && Pow2(3) == 8;
    assert LeastFitFrom(64000000, 20000000, 1) == 2;
    assert LeastFitFrom(64000000, 8000000, 1) == 3;
  }

  /** calculate_prescaler: doubles the prescaler from 2 while the divided
      clock is above the maximum; past 256 the error is reported. */
  method CalculatePrescaler(srcFreq: nat, maxBaud: nat) returns (r: Result<nat>)
    ensures r == Prescaler(srcFreq, maxBaud)
  {
    var prescaler := 2;
    ghost var k := 1;
    while srcFreq / prescaler > maxBaud
      invariant 1 <= k <= 8 && prescaler == Pow2(k)
      invariant LeastFitFrom(srcFreq, maxBaud, k) == LeastFitFrom(srcFreq, maxBaud, 1)
      decreases 8 - k
    {
      prescaler := prescaler * 2;
      k := k + 1;
      if prescaler > 256 {
        if k <= 8 {
          Pow2Monotone(k, 8);
          assert false;
        }
        return Failure("Cannot achieve desired baudrate, speed is too low");
      }
    }
    r := PrescalerFlag(prescaler);
  }

  // ------------------------------------------------------------ device

  /** The request the application declares: the peripheral, its mode, the
      maximum baud rate, the configuration and the GPIO requests for SCK,
      MISO, MOSI and, with hardware NSS, the NSS pin. */
  datatype Device = Device(
    peripheral: SpiPeripheral, mode: SpiMode, maxBaudrate: nat, config: SPIConfigTypes.SpiConfig,
    pins: SpiPins)

  /** Each SPI pin is a very-high-speed alternate push-pull GPIO without
      pull, on the alternate function get_af gives it. */
  function SpiGpio(pin: GPIODomain.Pin, p: SpiPeripheral): Result<GPIODomain.Entry>
  {
    GPIODomain.MakeGpio(pin, GPIODomain.AltPushPull, GPIODomain.NoPull, GPIODomain.VeryHigh, GetAf(pin, p))
  }

  /** The GPIO requests of a device. */
  datatype SpiPins = SpiPins(sck: GPIODomain.Entry, miso: GPIODomain.Entry, mosi: GPIODomain.Entry,
                             nss: Option<GPIODomain.Entry>)

  /** The device's GPIO requests, made in the order SCK, MISO, MOSI, NSS:
      the first refusal is the error. */
  function SpiGpios(sck: GPIODomain.Pin, miso: GPIODomain.Pin, mosi: GPIODomain.Pin,
                    nssPin: Option<GPIODomain.Pin>, p: SpiPeripheral): (r: Result<SpiPins>)
    ensures r.Success? <==>
      (SpiGpio(sck, p).Success? && SpiGpio(miso, p).Success? && SpiGpio(mosi, p).Success? &&
       (nssPin.Some? ==> SpiGpio(nssPin.value, p).Success?))
    ensures r.Success? ==>
      r.value.sck == SpiGpio(sck, p).value && r.value.miso == SpiGpio(miso, p).value &&
      r.value.mosi == SpiGpio(mosi, p).value && r.value.nss.Some? == nssPin.Some? &&
      (nssPin.Some? ==> r.value.nss.value == SpiGpio(nssPin.value, p).value)
    ensures SpiGpio(sck, p).Failure? ==> r == Failure(SpiGpio(sck, p).error)
  {
    if SpiGpio(sck, p).Failure? then Failure(SpiGpio(sck, p).error)
    else if SpiGpio(miso, p).Failure? then Failure(SpiGpio(miso, p).error)
    else if SpiGpio(mosi, p).Failure? then Failure(SpiGpio(mosi, p).error)
    else if nssPin.Some? && SpiGpio(nssPin.value, p).Failure? then Failure(SpiGpio(nssPin.value, p).error)
    else Success(SpiPins(SpiGpio(sck, p).value, SpiGpio(miso, p).value, SpiGpio(mosi, p).value,
                         if nssPin.Some? then Some(SpiGpio(nssPin.value, p).value) else None))
  }

  // The compile-time errors of the Device constructors.
  const NoDmaInstance := "Invalid SPI peripheral specified in SPIDomain::Device"
  const NssPinWithSoftware :=
    "Use NSSMode::SOFTWARE, and omit NSS pin for software NSS management, it is handled externally"
  const HardwareWithoutNssPin := "NSS pin must be provided for hardware NSS mode, or use NSSMode::SOFTWARE"

  /** The two Device constructors, told apart by the NSS pin: the GPIO
      requests come first, then the DMA instance (SPI6 has none), then the
      configuration check, then the NSS mode, which must be HARDWARE with a
      pin and SOFTWARE without one.  The board's pin-to-peripheral tables
      are not part of this model. */
  function MakeDevice(mode: SpiMode, p: SpiPeripheral, maxBaudrate: nat,
                      sck: GPIODomain.Pin, miso: GPIODomain.Pin, mosi: GPIODomain.Pin,
                      nssPin: Option<GPIODomain.Pin>, config: SPIConfigTypes.SpiConfig): (r: Result<Device>)
    ensures r.Success? <==>
      (SpiGpios(sck, miso, mosi, nssPin, p).Success? && p != Spi6 && SPIConfigTypes.Validate(config).None? &&
       (nssPin.Some? <==> config.nssMode.Hardware?))
    ensures r.Success? ==>
      r.value.peripheral == p && r.value.mode == mode && r.value.config == config &&
      r.value.pins == SpiGpios(sck, miso, mosi, nssPin, p).value
  {
    var pins := SpiGpios(sck, miso, mosi, nssPin, p);
    var invalid := SPIConfigTypes.Validate(config);
    if pins.Failure? then Failure(pins.error)
    else if p == Spi6 then Failure(NoDmaInstance)
    else if invalid.Some? then Failure(invalid.value)
    else if nssPin.Some? && config.nssMode.Software? then
      Failure(NssPinWithSoftware)
    else if nssPin.None? && config.nssMode.Hardware? then
      Failure(HardwareWithoutNssPin)
    else Success(Device(p, mode, maxBaudrate, config, pins.value))
  }

  /** Every SPI pin request is an alternate push-pull GPIO on the pin's
      own port and pin. */
  lemma SpiGpioShape(pin: GPIODomain.Pin, p: SpiPeripheral)
    requires SpiGpio(pin, p).Success?
    ensures SpiGpio(pin, p).value.mode == GPIODomain.AltPushPull && SpiGpio(pin, p).value.af == GetAf(pin, p)
    ensures SpiGpio(pin, p).value.port == pin.port && SpiGpio(pin, p).value.pin == pin.pin
  {
  }

  /** A device built with an NSS pin drives it in hardware, as an output on
      a master and an input on a slave; one built without is managed in
      software. */
  lemma DeviceNssTranslation(mode: SpiMode, p: SpiPeripheral, maxBaudrate: nat,
                             sck: GPIODomain.Pin, miso: GPIODomain.Pin, mosi: GPIODomain.Pin,
                             nssPin: Option<GPIODomain.Pin>, config: SPIConfigTypes.SpiConfig)
    requires MakeDevice(mode, p, maxBaudrate, sck, miso, mosi, nssPin, config).Success?
    ensures var nss := SPIConfigTypes.TranslateNssMode(config.nssMode, mode == Master);
      (nssPin.None? <==> nss == SPIConfigTypes.SpiNssSoft) &&
      (nssPin.Some? && mode == Master <==> nss == SPIConfigTypes.SpiNssHardOutput) &&
      (nssPin.Some? && mode == Slave <==> nss == SPIConfigTypes.SpiNssHardInput)
  {
  }

  // ------------------------------------------------------------ build

  /** An inscribed request (and, field for field, its configuration). */
  datatype Entry = Entry(
    peripheral: SpiPeripheral, mode: SpiMode,
    sckGpioIdx: nat, misoGpioIdx: nat, mosiGpioIdx: nat, nssGpioIdx: Option<nat>,
    dmaRxIdx: nat, dmaTxIdx: nat, maxBaudrate: nat, config: SPIConfigTypes.SpiConfig)

  predicate DistinctPeripherals(entries: seq<Entry>)
  {
    forall j, k :: 0 <= j < k < |entries| ==> entries[j].peripheral != entries[k].peripheral
  }

  /** build: each configuration copies its entry; a peripheral seen before
      is an error. */
  method Build(entries: seq<Entry>) returns (r: Result<seq<Entry>>)
    ensures r.Success? <==> DistinctPeripherals(entries)
    ensures r.Success? ==> r.value == entries
  {
    if |entries| == 0 {
      return Success([]);
    }
    var cfgs: seq<Entry> := [];
    var used := [false, false, false, false, false, false];
    var i := 0;
    while i < |entries|
      invariant i <= |entries| && cfgs == entries[..i] && |used| == 6
      invariant DistinctPeripherals(entries[..i])
      invariant forall k :: 0 <= k < i ==> used[PeripheralIndex(entries[k].peripheral)]
      invariant forall q :: 0 <= q < 6 && used[q] ==> exists k :: 0 <= k < i && PeripheralIndex(entries[k].peripheral) == q
    {
      var p := entries[i].peripheral;
      var q := PeripheralIndex(p);
      if used[q] {
        var k :| 0 <= k < i && PeripheralIndex(entries[k].peripheral) == q;
        PeripheralIndexInjective(entries[k].peripheral, p);
        return Failure(Name(p) + " peripheral already used");
      }
      used := used[q := true];
      cfgs := cfgs + [entries[i]];
      i := i + 1;
    }
    assert entries[..i] == entries;
    return Success(cfgs);
  }

  /** The peripherals of a list. */
  function PeripheralsOf(entries: seq<Entry>): set<SpiPeripheral>
  {
    set k | 0 <= k < |entries| :: entries[k].peripheral
  }

  lemma {:induction false} DistinctCount(entries: seq<Entry>)
    requires DistinctPeripherals(entries)
    ensures |PeripheralsOf(entries)| == |entries|
    decreases |entries|
  {
    if entries != [] {
      var init := entries[..|entries| - 1];
      var last := entries[|entries| - 1];
      assert DistinctPeripherals(init);
      DistinctCount(init);
      assert PeripheralsOf(entries) == PeripheralsOf(init) + {last.peripheral};
      assert last.peripheral !in PeripheralsOf(init);
    }
  }

  /** A list build accepts has at most six entries, one per peripheral. */
  lemma AtMostSix(entries: seq<Entry>)
    requires DistinctPeripherals(entries)
    ensures |entries| <= 6
  {
    DistinctCount(entries);
    var all := {Spi1, Spi2, Spi3, Spi4, Spi5, Spi6};
    assert PeripheralsOf(entries) <= all;
    assert |all| == 6;
    SubsetCard(PeripheralsOf(entries), all);
  }

  lemma {:induction false} SubsetCard(s: set<SpiPeripheral>, t: set<SpiPeripheral>)
    requires s <= t
    ensures |s| <= |t|
    decreases |t|
  {
    if s != {} {
      var x :| x in s;
      SubsetCard(s - {x}, t - {x});
    }
  }
}
