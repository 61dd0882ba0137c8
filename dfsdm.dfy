// DFSDMDomain: the DFSDM filter request (its channel lookup, oversampling
// and integrator checks), the conversion latency, the packed FLTFCR value,
// and a filter instance whose methods rewrite its register fields in place.
// Field positions follow the STM32H7 reference manual: FORD in bits 31:29,
// FOSR in bits 25:16 and IOSR in bits 7:0 of DFSDM_FLTxFCR.
module DFSDMDomain {
  import opened Wrappers
  import GPIODomain
  import Arith

  const OversamplingMax: nat := 1024
  const OversamplingMaxSinc4: nat := 215
  const OversamplingMaxSinc5: nat := 73
  const TwoTo32: nat := 0x1_0000_0000

  /** A uint16_t and a uint8_t. */
  type U16 = n: nat | n < 0x1_0000
  type U8 = n: nat | n < 0x100

  datatype FilterType = FastSinc | Sinc1 | Sinc2 | Sinc3 | Sinc4 | Sinc5

  /** The filter order code, FORD. */
  function Order(f: FilterType): (ford: nat)
    ensures ford <= 5
    ensures ford == 0 <==> f == FastSinc
  {
    match f
    case FastSinc => 0
    case Sinc1 => 1
    case Sinc2 => 2
    case Sinc3 => 3
    case Sinc4 => 4
    case Sinc5 => 5
  }

  /** The filter type a FORD code in 0 .. 5 stands for. */
  function TypeOfOrder(ford: nat): (f: FilterType)
    requires ford <= 5
    ensures Order(f) == ford
  {
    if ford == 0 then FastSinc
    else if ford == 1 then Sinc1
    else if ford == 2 then Sinc2
    else if ford == 3 then Sinc3
    else if ford == 4 then Sinc4
    else Sinc5
  }

  /** The order code identifies the filter type. */
  lemma OrderRoundTrip(f: FilterType)
    ensures TypeOfOrder(Order(f)) == f
  {
  }

  /** is_correct_oversampling: 1 .. 1024 for orders up to Sinc3, 1 .. 215
      for Sinc4 and 1 .. 73 for Sinc5. */
  predicate IsCorrectOversampling(f: FilterType, osr: nat)
  {
    match f
    case Sinc4 => 1 <= osr <= OversamplingMaxSinc4
    case Sinc5 => 1 <= osr <= OversamplingMaxSinc5
    case _ => 1 <= osr <= OversamplingMax
  }

  /** A higher filter order never admits a ratio a lower one refuses. */
  lemma HigherOrderStricter(f: FilterType, g: FilterType, osr: nat)
    requires Order(f) <= Order(g) && IsCorrectOversampling(g, osr)
    ensures IsCorrectOversampling(f, osr)
  {
  }

  datatype SpiClockSel = ClkIn | NormalClkOut | ClkDivided2Rising | ClkDivided2Falling
  datatype SpiType = SpiRising | SpiFalling
  datatype DataWrite = Cpu | Dma
  datatype SyncConversion = Independent | SyncWithFlt0
  datatype RegularMode = Single | Continuous

  /** The constructor's arguments after the pin: the offset and right
      shift, the SPI clock and edge, the filter, and the interrupt, DMA and
      conversion options. */
  datatype Settings = Settings(
    offset: nat, rightShift: nat, spiClockSel: SpiClockSel, spiType: SpiType,
    filterType: FilterType, oversampling: U16, integrator: U8, shortCircuitCount: U8,
    rdma: DataWrite, fast: bool, rsync: SyncConversion, rcont: RegularMode,
    clockAbsence: bool, overrunEnable: bool, shortCircuit: bool, extremeDetector: bool, pulseSkip: U8)

  /** The constructor's defaults: FastSinc with ratios 1, DMA, fast
      continuous conversion synchronised with filter 0, every detector on. */
  function DefaultSettings(offset: nat, rightShift: nat, clockSel: SpiClockSel, spiType: SpiType): Settings
  {
    Settings(offset, rightShift, clockSel, spiType, FastSinc, 1, 1, 0xFF,
             Dma, true, SyncWithFlt0, Continuous, true, true, true, true, 0)
  }

  /** An inscribed filter: the channel its pin feeds and its settings. */
  datatype Entry = Entry(channel: nat, settings: Settings)

  // ------------------------------------------------------------ channel lookup

  /** A row of pin_to_channel: a pin, by port and GPIO_PIN_x mask, and the
      DFSDM channel it feeds. */
  datatype ChannelPin = ChannelPin(port: GPIODomain.Port, mask: bv32, channel: nat)

  const PinToChannel: seq<ChannelPin> := [
    ChannelPin(GPIODomain.E, 0x0010, 3), ChannelPin(GPIODomain.C, 0x0001, 4),
    ChannelPin(GPIODomain.C, 0x0002, 0), ChannelPin(GPIODomain.C, 0x0008, 1),
    ChannelPin(GPIODomain.C, 0x0020, 2), ChannelPin(GPIODomain.B, 0x0002, 1),
    ChannelPin(GPIODomain.F, 0x2000, 6), ChannelPin(GPIODomain.E, 0x0080, 2),
    ChannelPin(GPIODomain.E, 0x0400, 4), ChannelPin(GPIODomain.E, 0x1000, 5),
    ChannelPin(GPIODomain.B, 0x0400, 7), ChannelPin(GPIODomain.B, 0x1000, 1),
    ChannelPin(GPIODomain.B, 0x4000, 2), ChannelPin(GPIODomain.D, 0x0200, 3),
    ChannelPin(GPIODomain.C, 0x0080, 3), ChannelPin(GPIODomain.C, 0x0800, 5),
    ChannelPin(GPIODomain.D, 0x0002, 6), ChannelPin(GPIODomain.D, 0x0040, 1),
    ChannelPin(GPIODomain.D, 0x0080, 4), ChannelPin(GPIODomain.B, 0x0040, 5)]

  /** Pin equality: port and pin, whatever the alternate functions. */
  predicate RowIs(row: ChannelPin, pin: GPIODomain.Pin)
  {
    row.port == pin.port && row.mask == pin.pin
  }

  /** The channel of the first row from k on that is the pin. */
  function ChannelFrom(pin: GPIODomain.Pin, k: nat): Option<nat>
    requires k <= |PinToChannel|
    decreases |PinToChannel| - k
  {
    if k == |PinToChannel| then None
    else if RowIs(PinToChannel[k], pin) then Some(PinToChannel[k].channel)
    else ChannelFrom(pin, k + 1)
  }

  /** get_channel as a value: the channel of the pin's row, if it has one. */
  function ChannelOf(pin: GPIODomain.Pin): Option<nat>
  {
    ChannelFrom(pin, 0)
  }

  lemma {:induction false} ChannelFromMeans(pin: GPIODomain.Pin, k: nat)
    requires k <= |PinToChannel|
    ensures ChannelFrom(pin, k).Some? <==> exists j :: k <= j < |PinToChannel| && RowIs(PinToChannel[j], pin)
    ensures ChannelFrom(pin, k).Some? ==>
      exists j :: k <= j < |PinToChannel| && RowIs(PinToChannel[j], pin) && ChannelFrom(pin, k).value == PinToChannel[j].channel
    decreases |PinToChannel| - k
  {
    if k < |PinToChannel| && !RowIs(PinToChannel[k], pin) {
      ChannelFromMeans(pin, k + 1);
    }
  }

  /** Every channel in the table is one of the eight DFSDM channels. */
  lemma TableChannels()
    ensures forall j :: 0 <= j < |PinToChannel| ==> PinToChannel[j].channel < 8
  {
  }

  /** A pin has a channel exactly when the table lists it, and then the
      channel is the table's and below 8. */
  lemma ChannelOfMeans(pin: GPIODomain.Pin)
    ensures ChannelOf(pin).Some? <==> exists j :: 0 <= j < |PinToChannel| && RowIs(PinToChannel[j], pin)
    ensures ChannelOf(pin).Some? ==> ChannelOf(pin).value < 8
    ensures ChannelOf(pin).Some? ==>
      exists j :: 0 <= j < |PinToChannel| && RowIs(PinToChannel[j], pin) && ChannelOf(pin).value == PinToChannel[j].channel
  {
    ChannelFromMeans(pin, 0);
    TableChannels();
  }

  /** get_channel: scans the table for the pin. */
  method GetChannel(pin: GPIODomain.Pin) returns (r: Result<nat>)
    ensures r.Success? <==> ChannelOf(pin).Some?
    ensures r.Success? ==> r.value == ChannelOf(pin).value
  {
    var i := 0;
    while i < |PinToChannel|
      invariant i <= |PinToChannel|
      invariant ChannelFrom(pin, i) == ChannelOf(pin)
    {
      if PinToChannel[i].port == pin.port && PinToChannel[i].mask == pin.pin {
        return Success(PinToChannel[i].channel);
      }
      i := i + 1;
    }
    return Failure("This pin cannot be used as a DFSDM_Channel");
  }

  // ------------------------------------------------------------ the request

  /** The DFSDM constructor: the pin's channel, then a zero integrator, then
      the oversampling for the filter type, each an error. */
  function MakeFilter(pin: GPIODomain.Pin, s: Settings): (r: Result<Entry>)
    ensures r.Success? <==>
      (ChannelOf(pin).Some? && s.integrator != 0 && IsCorrectOversampling(s.filterType, s.oversampling))
    ensures r.Success? ==> r.value.channel == ChannelOf(pin).value && r.value.settings == s
  {
    if ChannelOf(pin).None? then Failure("This pin cannot be used as a DFSDM_Channel")
    else if s.integrator == 0 then Failure("DFSDM_FILTER: Integrator out of range")
    else if !IsCorrectOversampling(s.filterType, s.oversampling) then
      Failure("DFSDM_FILTER: invalid oversampling for selected filter type")
    else Success(Entry(ChannelOf(pin).value, s))
  }

  /** The constructor as written: its member initialiser names every field
      but the offset, so the entry's offset is always 0. */
  function MakeFilterAsWritten(pin: GPIODomain.Pin, s: Settings): (r: Result<Entry>)
    ensures r.Success? <==> MakeFilter(pin, s).Success?
    ensures r.Success? ==> r.value.settings.offset == 0
    ensures r.Success? ==> r.value == MakeFilter(pin, s).value.(settings := s.(offset := 0))
  {
    match MakeFilter(pin, s)
    case Success(e) => Success(e.(settings := s.(offset := 0)))
    case Failure(msg) => Failure(msg)
  }

  /** A filter on PC1 (channel 0) asked for an offset of 5 records 0. */
  lemma OffsetDropped(s: Settings)
    requires s == DefaultSettings(5, 0, ClkIn, SpiRising)
    ensures MakeFilter(GPIODomain.Pin(GPIODomain.C, 0x0002, 0), s) == Success(Entry(0, s))
    ensures MakeFilterAsWritten(GPIODomain.Pin(GPIODomain.C, 0x0002, 0), s).value.settings.offset == 0
  {
    assert ChannelOf(GPIODomain.Pin(GPIODomain.C, 0x0002, 0)) == Some(0);
  }

  /** The settings an accepted request has. */
  predicate Accepted(s: Settings)
  {
    s.integrator != 0 && IsCorrectOversampling(s.filterType, s.oversampling)
  }

  // ------------------------------------------------------------ latency and FLTFCR

  /** What compute_latency multiplies the oversampling ratio by: iosr for
      fast continuous conversion, iosr + 3 for FastSinc, iosr - 1 + ford
      otherwise (ford is at least 1 there, so nothing wraps). */
  function Factor(s: Settings): nat
  {
    if s.fast && s.rcont == Continuous then s.integrator
    else if s.filterType == FastSinc then s.integrator + 3
    else s.integrator - 1 + Order(s.filterType)
  }

  /** What compute_latency adds: 0, 2 for FastSinc, ford otherwise. */
  function Extra(s: Settings): nat
  {
    if s.fast && s.rcont == Continuous then 0
    else if s.filterType == FastSinc then 2
    else Order(s.filterType)
  }

  /** compute_latency, in uint32_t arithmetic: fosr * iosr for fast
      continuous conversion, fosr * (iosr + 3) + 2 for FastSinc, and
      fosr * (iosr - 1 + ford) + ford otherwise. */
  function Latency(s: Settings): (r: nat)
    ensures r < TwoTo32
  {
    (s.oversampling * Factor(s) + Extra(s)) % TwoTo32
  }

  /** A ratio of at most 1024 times a factor of at most 259 stays far
      below 2^32. */
  lemma SmallProduct(fosr: nat, m: nat)
    requires fosr <= 1024 && m <= 259
    ensures fosr * m <= 1024 * 259
  {
    Arith.MulMonotone(fosr, m, 259);
    Arith.MulMonotoneIf(fosr, 1024, 259);
  }

  /** For an accepted request nothing wraps: the latency is fosr times its
      factor plus its extra, which is at least the fast continuous figure
      fosr * iosr and at most fosr * (iosr + 4) + 5. */
  lemma LatencyBounds(s: Settings)
    requires Accepted(s)
    ensures Latency(s) == s.oversampling * Factor(s) + Extra(s)
    ensures s.oversampling * s.integrator <= Latency(s) <= s.oversampling * (s.integrator + 4) + 5
    ensures s.fast && s.rcont == Continuous ==> Latency(s) == s.oversampling * s.integrator
  {
    var fosr: nat := s.oversampling;
    var iosr: nat := s.integrator;
    var m := Factor(s);
    assert iosr <= m <= iosr + 4 && Extra(s) <= 5;
    SmallProduct(fosr, m);
    Arith.MulMonotone(fosr, iosr, m);
    Arith.MulMonotone(fosr, m, iosr + 4);
  }

  /** A larger oversampling ratio never shortens the conversion. */
  lemma LatencyGrowsWithOversampling(s: Settings, osr: U16)
    requires Accepted(s) && Accepted(s.(oversampling := osr)) && s.oversampling <= osr
    ensures Latency(s) <= Latency(s.(oversampling := osr))
  {
    var t := s.(oversampling := osr);
    LatencyBounds(s);
    LatencyBounds(t);
    var m := Factor(s);
    assert Factor(t) == m && Extra(t) == Extra(s);
    Arith.MulMonotoneIf(s.oversampling, osr, m);
  }

  const FordShift: nat := 0x2000_0000
  const FosrShift: nat := 0x1_0000

  /** FORD, FOSR and IOSR side by side; fields that fit their widths do
      not overlap, so the register's bitwise or is their sum. */
  function Pack(ford: nat, fosr: nat, iosr: nat): nat
  {
    ford * FordShift + fosr * FosrShift + iosr
  }

  /** make_fltfcr: the filter order, oversampling - 1 and integrator - 1 in
      their fields. */
  function MakeFltfcr(s: Settings): nat
    requires Accepted(s)
  {
    Pack(Order(s.filterType), s.oversampling - 1, s.integrator - 1)
  }

  /** FLTFCR's fields, read back. */
  function FordField(r: nat): nat { r / FordShift }
  function FosrField(r: nat): nat { (r / FosrShift) % 0x400 }
  function IosrField(r: nat): nat { r % 0x100 }

  /** Fields within their widths pack into 32 bits and read back unchanged. */
  lemma PackFields(ford: nat, fosr: nat, iosr: nat)
    requires ford < 8 && fosr < 0x400 && iosr < 0x100
    ensures Pack(ford, fosr, iosr) < TwoTo32
    ensures FordField(Pack(ford, fosr, iosr)) == ford
    ensures FosrField(Pack(ford, fosr, iosr)) == fosr
    ensures IosrField(Pack(ford, fosr, iosr)) == iosr
  {
    var r := Pack(ford, fosr, iosr);
    Arith.QuotientOf(ford, fosr * 0x1_0000 + iosr, 0x2000_0000);
    Arith.QuotientOf(ford * 0x2000 + fosr, iosr, 0x1_0000);
    Arith.RemainderOf(ford * 8, fosr, 0x400);
    Arith.RemainderOf(ford * 0x20_0000 + fosr * 0x100, iosr, 0x100);
  }

  /** make_fltfcr fits a 32-bit register and its fields read back as the
      filter order, oversampling - 1 and integrator - 1. */
  lemma MakeFltfcrFields(s: Settings)
    requires Accepted(s)
    ensures MakeFltfcr(s) < TwoTo32
    ensures FordField(MakeFltfcr(s)) == Order(s.filterType)
    ensures FosrField(MakeFltfcr(s)) == s.oversampling - 1
    ensures IosrField(MakeFltfcr(s)) == s.integrator - 1
  {
    PackFields(Order(s.filterType), s.oversampling - 1, s.integrator - 1);
  }

  // ------------------------------------------------------------ the instance

  /** The no-data answer of read_data_from_filter_register. */
  const NoData: nat := 0xFFFF_FFFF

  /** read_data_from_filter_register: the no-data value while FLTISR's
      end-of-conversion flag (bit 1) is clear, else the 24-bit result in
      FLTRDATAR's bits 31:8. */
  function ReadData(isr: nat, rdatar: nat): (r: nat)
    requires isr < TwoTo32 && rdatar < TwoTo32
  {
    if (isr / 2) % 2 == 0 then NoData else rdatar / 0x100
  }

  /** The no-data value is no 24-bit result, so the two never collide. */
  lemma ReadDataDistinguishes(isr: nat, rdatar: nat)
    requires isr < TwoTo32 && rdatar < TwoTo32
    ensures ReadData(isr, rdatar) == NoData <==> (isr / 2) % 2 == 0
    ensures ReadData(isr, rdatar) != NoData ==> ReadData(isr, rdatar) < 0x100_0000
  {
  }

  /** The analog watchdog threshold register for a value: its low 16 bits
      in bits 31:16 in fast mode (AWFSEL), else its low 24 bits in 31:8. */
  function ThresholdRegister(value: nat, fast: bool): (r: nat)
    ensures r < TwoTo32 && r % 0x100 == 0
    ensures fast ==> r / 0x1_0000 == value % 0x1_0000
    ensures !fast ==> r / 0x100 == value % 0x100_0000
  {
    if fast then (value % 0x1_0000) * 0x1_0000 else (value % 0x100_0000) * 0x100
  }

  /** Whether modify_oversampling takes a ratio for the FORD code in the
      register: never 0; up to 1024 for codes 0 .. 3, 215 for 4, 73 for 5. */
  predicate OversamplingFits(ford: nat, osr: nat)
  {
    osr != 0 && !(ford <= 3 && osr > OversamplingMax) &&
    !(ford == 4 && osr > OversamplingMaxSinc4) && !(ford == 5 && osr > OversamplingMaxSinc5)
  }

  /** modify_oversampling takes exactly the ratios the constructor takes
      for the filter type in the register. */
  lemma OversamplingFitsAgrees(f: FilterType, osr: nat)
    ensures OversamplingFits(Order(f), osr) <==> IsCorrectOversampling(f, osr)
  {
  }

  /** modify_filter_order's check as written: it compares the FOSR field,
      which holds the ratio minus one, with the ratio limits. */
  predicate FilterOrderFitsAsWritten(fosr: nat, f: FilterType): (ok: bool)
    ensures fosr <= OversamplingMax ==> (ok <==> fosr == 0 || IsCorrectOversampling(f, fosr))
    ensures IsCorrectOversampling(f, fosr + 1) ==> ok
  {
    !(f == Sinc4 && fosr > OversamplingMaxSinc4) && !(f == Sinc5 && fosr > OversamplingMaxSinc5)
  }

  /** A Sinc3 filter with ratio 216 (FOSR 215) may be switched to Sinc4,
      although 216 is above Sinc4's limit; so may a ratio of 74 to Sinc5. */
  lemma FilterOrderOffByOne()
    ensures IsCorrectOversampling(Sinc3, 216) && FilterOrderFitsAsWritten(215, Sinc4)
    ensures !IsCorrectOversampling(Sinc4, 216)
    ensures FilterOrderFitsAsWritten(73, Sinc5) && !IsCorrectOversampling(Sinc5, 74)
  {
  }

  /** A filter block: the fields of FLTCR1 and FLTFCR the methods touch
      and the two analog watchdog threshold registers. */
  class Filter {
    /** FLTCR1: DFEN, RSWSTART, RSYNC, RCONT, RDMAEN and AWFSEL. */
    var enabled: bool
    var swStart: bool
    var rsync: SyncConversion
    var rcont: RegularMode
    var dmaEnabled: bool
    var fastWatchdog: bool
    /** FLTFCR: FORD, FOSR and IOSR. */
    var ford: nat
    var fosr: nat
    var iosr: nat
    /** FLTAWLTR and FLTAWHTR. */
    var lowThreshold: nat
    var highThreshold: nat

    /** The filter order is one of the six types, the fields fit their
        widths, and the oversampling ratio suits the order. */
    ghost predicate Valid()
      reads this
    {
      ford <= 5 && fosr < 0x400 && iosr < 0x100 && IsCorrectOversampling(TypeOfOrder(ford), fosr + 1)
    }

    /** The filter Init would leave: FLTFCR from make_fltfcr, enabled. */
    constructor (s: Settings)
      requires Accepted(s)
      ensures Valid() && enabled && !swStart && dmaEnabled == (s.rdma == Dma)
      ensures ford == FordField(MakeFltfcr(s)) && fosr == FosrField(MakeFltfcr(s)) && iosr == IosrField(MakeFltfcr(s))
      ensures rsync == s.rsync && rcont == s.rcont && !fastWatchdog
      ensures lowThreshold == 0 && highThreshold == 0
    {
      MakeFltfcrFields(s);
      enabled := true;
      swStart := false;
      rsync := s.rsync;
      rcont := s.rcont;
      dmaEnabled := s.rdma == Dma;
      fastWatchdog := false;
      ford := Order(s.filterType);
      fosr := s.oversampling - 1;
      iosr := s.integrator - 1;
      lowThreshold := 0;
      highThreshold := 0;
      OrderRoundTrip(s.filterType);
    }

    /** is_enabled: DFEN. */
    function IsEnabled(): bool
      reads this
    {
      enabled
    }

    /** enable: sets DFEN and reports it set. */
    method Enable() returns (ok: bool)
      modifies this`enabled
      ensures enabled && ok
    {
      enabled := true;
      ok := IsEnabled();
    }

    /** disable: clears DFEN and reports it clear. */
    method Disable() returns (ok: bool)
      modifies this`enabled
      ensures !enabled && ok
    {
      enabled := false;
      ok := !IsEnabled();
    }

    /** start: enables the filter and starts a regular conversion. */
    method Start() returns (ok: bool)
      modifies this`enabled, this`swStart
      ensures ok && enabled && swStart
    {
      var on := Enable();
      if !on {
        return false;
      }
      swStart := true;
      return true;
    }

    /** modify_sync_conversion: RSYNC, with the filter disabled around the
        write and DFEN restored. */
    method ModifySyncConversion(t: SyncConversion)
      modifies this`enabled, this`rsync
      ensures rsync == t && enabled == old(enabled)
    {
      var wasEnabled := IsEnabled();
      if wasEnabled {
        var _ := Disable();
      }
      rsync := t;
      if wasEnabled {
        var _ := Enable();
      }
    }

    /** modify_mode: RCONT, written while the filter runs. */
    method ModifyMode(mode: RegularMode)
      modifies this`rcont
      ensures rcont == mode
    {
      rcont := mode;
    }

    /** modify_oversampling: refuses 0 and ratios beyond the limit of the
        order in FORD; otherwise FOSR becomes the ratio minus one.  DFEN
        ends as it began. */
    method ModifyOversampling(osr: U16) returns (ok: bool)
      requires Valid()
      modifies this`enabled, this`fosr
      ensures Valid()
      ensures ok <==> OversamplingFits(ford, osr)
      ensures ok <==> IsCorrectOversampling(TypeOfOrder(ford), osr)
      ensures ok ==> fosr + 1 == osr
      ensures !ok ==> fosr == old(fosr)
      ensures enabled == old(enabled)
    {
      OversamplingFitsAgrees(TypeOfOrder(ford), osr);
      if osr == 0 {
        return false;
      }
      if ford <= 3 && osr > OversamplingMax {
        return false;
      }
      if ford == 4 && osr > OversamplingMaxSinc4 {
        return false;
      }
      if ford == 5 && osr > OversamplingMaxSinc5 {
        return false;
      }
      var wasEnabled := IsEnabled();
      if wasEnabled {
        var _ := Disable();
      }
      fosr := osr - 1;
      if wasEnabled {
        var _ := Enable();
      }
      return true;
    }

    /** modify_integrator: refuses 0 (the argument is a uint8_t, so the
        bound 256 never bites); otherwise IOSR becomes the ratio minus one. */
    method ModifyIntegrator(integrator: U8) returns (ok: bool)
      requires Valid()
      modifies this`enabled, this`iosr
      ensures Valid()
      ensures ok <==> integrator != 0
      ensures ok ==> iosr + 1 == integrator
      ensures !ok ==> iosr == old(iosr)
      ensures enabled == old(enabled)
    {
      if integrator == 0 || integrator > 256 {
        return false;
      }
      var wasEnabled := IsEnabled();
      if wasEnabled {
        var _ := Disable();
      }
      iosr := integrator - 1;
      if wasEnabled {
        var _ := Enable();
      }
      return true;
    }

    /** modify_filter_order, with the ratio limit compared against the
        ratio FOSR + 1 (the code compares FOSR itself, see
        FilterOrderFitsAsWritten): a type whose limit the current ratio
        exceeds is refused, any other becomes FORD. */
    method ModifyFilterOrder(f: FilterType) returns (ok: bool)
      requires Valid()
      modifies this`enabled, this`ford
      ensures Valid()
      ensures ok <==> IsCorrectOversampling(f, fosr + 1)
      ensures ok ==> ford == Order(f)
      ensures !ok ==> ford == old(ford)
      ensures enabled == old(enabled)
    {
      if f == Sinc4 && fosr + 1 > OversamplingMaxSinc4 {
        return false;
      }
      if f == Sinc5 && fosr + 1 > OversamplingMaxSinc5 {
        return false;
      }
      var wasEnabled := IsEnabled();
      if wasEnabled {
        var _ := Disable();
      }
      ford := Order(f);
      if wasEnabled {
        var _ := Enable();
      }
      OrderRoundTrip(f);
      return true;
    }

    /** modify_analog_watchdog_lth: FLTAWLTR takes the value's low 16 bits
        (fast mode) or 24 bits at the threshold position. */
    method ModifyWatchdogLow(value: nat) returns (ok: bool)
      requires value < TwoTo32
      modifies this`enabled, this`lowThreshold
      ensures ok && lowThreshold == ThresholdRegister(value, fastWatchdog)
      ensures enabled == old(enabled)
    {
      var wasEnabled := IsEnabled();
      if wasEnabled {
        var _ := Disable();
      }
      lowThreshold := lowThreshold % 0x100;
      lowThreshold := ThresholdRegister(value, fastWatchdog);
      if wasEnabled {
        var _ := Enable();
      }
      return true;
    }

    /** modify_analog_watchdog_hth, clearing the high threshold's field
        before the write (the code clears the low threshold's, see
        HighThresholdAsWritten): the low threshold is kept. */
    method ModifyWatchdogHigh(value: nat) returns (ok: bool)
      requires value < TwoTo32
      modifies this`enabled, this`highThreshold
      ensures ok && highThreshold == ThresholdRegister(value, fastWatchdog)
      ensures enabled == old(enabled)
    {
      var wasEnabled := IsEnabled();
      if wasEnabled {
        var _ := Disable();
      }
      highThreshold := highThreshold % 0x100;
      highThreshold := ThresholdRegister(value, fastWatchdog);
      if wasEnabled {
        var _ := Enable();
      }
      return true;
    }

    /** activate_dma_reading: RDMAEN set, DFEN restored. */
    method ActivateDmaReading() returns (ok: bool)
      modifies this`enabled, this`dmaEnabled
      ensures ok && dmaEnabled && enabled == old(enabled)
    {
      var wasEnabled := IsEnabled();
      if wasEnabled {
        var _ := Disable();
      }
      dmaEnabled := true;
      if wasEnabled {
        var _ := Enable();
      }
      return true;
    }

    /** activate_cpu: RDMAEN cleared, DFEN restored. */
    method ActivateCpu() returns (ok: bool)
      modifies this`enabled, this`dmaEnabled
      ensures ok && !dmaEnabled && enabled == old(enabled)
    {
      var wasEnabled := IsEnabled();
      if wasEnabled {
        var _ := Disable();
      }
      dmaEnabled := false;
      if wasEnabled {
        var _ := Enable();
      }
      return true;
    }
  }

  /** modify_analog_watchdog_hth as written, on the two threshold
      registers: it clears the LOW register's threshold field, then writes
      the high register. */
  function HighThresholdAsWritten(low: nat, value: nat, fast: bool): (r: (nat, nat))
    requires low < TwoTo32
    ensures r.0 == low % 0x100 && r.1 == ThresholdRegister(value, fast)
  {
    (low % 0x100, ThresholdRegister(value, fast))
  }

  /** After setting the low threshold to 0x1234 (24-bit mode), setting the
      high one as written leaves the low register at 0. */
  lemma HighThresholdClearsLow()
    ensures ThresholdRegister(0x1234, false) == 0x12_3400
    ensures HighThresholdAsWritten(ThresholdRegister(0x1234, false), 0x5678, false) == (0, 0x56_7800)
  {
  }

  /** Setting the low then the high threshold keeps both. */
  method SetThresholds(f: Filter, low: nat, high: nat)
    requires low < TwoTo32 && high < TwoTo32
    modifies f
    ensures f.lowThreshold == ThresholdRegister(low, f.fastWatchdog)
    ensures f.highThreshold == ThresholdRegister(high, f.fastWatchdog)
  {
    var _ := f.ModifyWatchdogLow(low);
    var _ := f.ModifyWatchdogHigh(high);
  }
}
