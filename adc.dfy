// ADCDomain: analog inputs.  Each request names a pin and may name the ADC
// peripheral and channel or leave them AUTO; resolution picks the mapping,
// and build checks the requests against each other.  `hasAdc3` stands for
// the part's STLIB_HAS_ADC3 setting.
module ADCDomain {
  import opened Wrappers
  import GPIODomain

  const MaxChannelsPerPeripheral: nat := 16
  const MaxInstances: nat := 32

  datatype Peripheral = AutoPeripheral | Adc1 | Adc2 | Adc3

  datatype Resolution = Bits16 | Bits14 | Bits12 | Bits10 | Bits8

  /** CH0 .. CH19 are Ch(0) .. Ch(19); a larger number is a value outside
      the enumeration. */
  datatype Channel = AutoChannel | Ch(n: nat) | Vrefint | TempSensor | Vbat

  /** The slot of the per-peripheral tables; AUTO shares ADC_1's. */
  function PeripheralIndex(p: Peripheral): (i: nat)
    ensures i < 3
  {
    match p
    case AutoPeripheral => 0
    case Adc1 => 0
    case Adc2 => 1
    case Adc3 => 2
  }

  predicate IsValidChannel(ch: Channel)
  {
    ch.Ch? ==> ch.n <= 19
  }

  function ResolutionBits(r: Resolution): nat
  {
    match r
    case Bits16 => 16
    case Bits14 => 14
    case Bits12 => 12
    case Bits10 => 10
    case Bits8 => 8
  }

  predicate IsInternalChannel(ch: Channel)
  {
    ch.Vrefint? || ch.TempSensor? || ch.Vbat?
  }

  /** The ADC wired to the internal channels: ADC_3, or ADC_2 on a part
      without ADC3. */
  function DedicatedAdc(hasAdc3: bool): Peripheral
  {
    if hasAdc3 then Adc3 else Adc2
  }

  predicate InternalChannelAllowed(p: Peripheral, ch: Channel, hasAdc3: bool)
  {
    IsInternalChannel(ch) ==> p == DedicatedAdc(hasAdc3)
  }

  predicate ResolutionSupported(p: Peripheral, r: Resolution)
  {
    p == Adc3 ==> ResolutionBits(r) <= 12
  }

  /** ADC_3 takes at most 12 bits; the other peripherals take every
      resolution. */
  lemma ResolutionSupportedMeans(p: Peripheral, r: Resolution)
    ensures ResolutionSupported(p, r) <==> p != Adc3 || r == Bits12 || r == Bits10 || r == Bits8
  {
  }

  /** A row of the pin table: the pin (port and GPIO_PIN_x mask), the
      peripheral and channel it reaches, and the widest resolution there. */
  datatype PinMapping = PinMapping(port: GPIODomain.Port, pin: bv32, peripheral: Peripheral, channel: Channel, maxBits: nat)

  const MaxBitsAdc12: nat := 16
  const MaxBitsAdc3: nat := 12

  const PinMap: seq<PinMapping> := [
    PinMapping(GPIODomain.F, 0x0800, Adc1, Ch(2), MaxBitsAdc12),
    PinMapping(GPIODomain.F, 0x1000, Adc1, Ch(6), MaxBitsAdc12),
    PinMapping(GPIODomain.C, 0x0001, Adc1, Ch(10), MaxBitsAdc12),
    PinMapping(GPIODomain.A, 0x0001, Adc1, Ch(16), MaxBitsAdc12),
    PinMapping(GPIODomain.A, 0x0008, Adc1, Ch(15), MaxBitsAdc12),
    PinMapping(GPIODomain.A, 0x0010, Adc1, Ch(18), MaxBitsAdc12),
    PinMapping(GPIODomain.A, 0x0020, Adc1, Ch(19), MaxBitsAdc12),
    PinMapping(GPIODomain.A, 0x0040, Adc1, Ch(3), MaxBitsAdc12),
    PinMapping(GPIODomain.B, 0x0001, Adc1, Ch(9), MaxBitsAdc12),
    PinMapping(GPIODomain.B, 0x0002, Adc1, Ch(5), MaxBitsAdc12),
    PinMapping(GPIODomain.F, 0x2000, Adc2, Ch(2), MaxBitsAdc12),
    PinMapping(GPIODomain.F, 0x4000, Adc2, Ch(6), MaxBitsAdc12),
    PinMapping(GPIODomain.F, 0x0020, Adc3, Ch(4), MaxBitsAdc3),
    PinMapping(GPIODomain.F, 0x0040, Adc3, Ch(8), MaxBitsAdc3),
    PinMapping(GPIODomain.F, 0x0080, Adc3, Ch(3), MaxBitsAdc3),
    PinMapping(GPIODomain.F, 0x0100, Adc3, Ch(7), MaxBitsAdc3),
    PinMapping(GPIODomain.F, 0x0200, Adc3, Ch(2), MaxBitsAdc3),
    PinMapping(GPIODomain.F, 0x0400, Adc3, Ch(6), MaxBitsAdc3),
    PinMapping(GPIODomain.C, 0x0004, Adc3, Ch(0), MaxBitsAdc3),
    PinMapping(GPIODomain.C, 0x0008, Adc3, Ch(1), MaxBitsAdc3)
  ]

  /** preference_score: above 12 bits ADC_1 is preferred over ADC_2 and
      ADC_3 is worst; at 12 bits or fewer ADC_3 comes first, then ADC_1,
      then ADC_2. */
  function PreferenceScore(r: Resolution, p: Peripheral): (s: nat)
    ensures s <= 3
    ensures p.AutoPeripheral? ==> s == 0
  {
    if ResolutionBits(r) > 12 then
      match p
      case Adc1 => 3
      case Adc2 => 2
      case Adc3 => 0
      case AutoPeripheral => 0
    else
      match p
      case Adc3 => 3
      case Adc1 => 2
      case Adc2 => 1
      case AutoPeripheral => 0
  }

  /** The preference order among the real peripherals is strict. */
  lemma PreferenceOrder(r: Resolution)
    ensures ResolutionBits(r) > 12 ==>
      PreferenceScore(r, Adc1) > PreferenceScore(r, Adc2) > PreferenceScore(r, Adc3)
    ensures ResolutionBits(r) <= 12 ==>
      PreferenceScore(r, Adc3) > PreferenceScore(r, Adc1) > PreferenceScore(r, Adc2)
  {
  }

  /** An inscribed request; the sample time, the clock prescaler and the
      output pointer are opaque numbers. */
  datatype Entry = Entry(
    gpioIdx: nat, pin: GPIODomain.Pin, peripheral: Peripheral, channel: Channel,
    resolution: Resolution, sampleTime: nat, prescaler: nat, sampleRateHz: nat, output: nat)

  datatype Mapping = Mapping(peripheral: Peripheral, channel: Channel)

  /** A table row the request can use: same pin, the peripheral and channel
      it names (if any), and wide enough for its resolution. */
  predicate Matches(e: Entry, m: PinMapping)
  {
    m.port == e.pin.port && m.pin == e.pin.pin &&
    (e.peripheral.AutoPeripheral? || m.peripheral == e.peripheral) &&
    (e.channel.AutoChannel? || m.channel == e.channel) &&
    ResolutionBits(e.resolution) <= m.maxBits
  }

  function Score(e: Entry, m: PinMapping): nat
  {
    PreferenceScore(e.resolution, m.peripheral)
  }

  /** The row the table search settles on: a later matching row replaces
      the best so far only with a strictly higher score. */
  function BestIndex(e: Entry, ms: seq<PinMapping>): (b: Option<nat>)
    ensures b.Some? ==> b.value < |ms| && Matches(e, ms[b.value])
  {
    if ms == [] then None
    else
      var b := BestIndex(e, ms[..|ms| - 1]);
      var last := ms[|ms| - 1];
      if Matches(e, last) && (b.None? || Score(e, last) > Score(e, ms[b.value])) then Some(|ms| - 1)
      else b
  }

  /** Row b matches, no matching row scores higher, and every matching row
      before it scores lower. */
  predicate FirstBest(e: Entry, ms: seq<PinMapping>, b: nat)
    requires b < |ms|
  {
    Matches(e, ms[b]) &&
    (forall k :: 0 <= k < |ms| && Matches(e, ms[k]) ==> Score(e, ms[k]) <= Score(e, ms[b])) &&
    (forall k :: 0 <= k < b && Matches(e, ms[k]) ==> Score(e, ms[k]) < Score(e, ms[b]))
  }

  /** The search finds a row exactly when some row matches, and then the
      first of the highest-scoring matching rows. */
  lemma {:induction false} BestIndexIsFirstBest(e: Entry, ms: seq<PinMapping>)
    ensures BestIndex(e, ms).None? <==> forall k :: 0 <= k < |ms| ==> !Matches(e, ms[k])
    ensures BestIndex(e, ms).Some? ==> FirstBest(e, ms, BestIndex(e, ms).value)
    decreases |ms|
  {
    if ms != [] {
      var n := |ms| - 1;
      var init := ms[..n];
      assert forall k :: 0 <= k < n ==> init[k] == ms[k];
      BestIndexIsFirstBest(e, init);
    }
  }

  /** The checks every resolved mapping must pass. */
  predicate Checked(m: Mapping, r: Resolution, hasAdc3: bool)
  {
    IsValidChannel(m.channel) && InternalChannelAllowed(m.peripheral, m.channel, hasAdc3) &&
    ResolutionSupported(m.peripheral, r)
  }

  function CheckedMapping(m: Mapping, r: Resolution, hasAdc3: bool): (res: Result<Mapping>)
    ensures res.Success? <==> Checked(m, r, hasAdc3)
    ensures res.Success? ==> res.value == m
  {
    if !IsValidChannel(m.channel) then Failure("ADC: invalid channel")
    else if !InternalChannelAllowed(m.peripheral, m.channel, hasAdc3) then Failure("ADC: internal channel must use dedicated ADC")
    else if !ResolutionSupported(m.peripheral, r) then Failure("ADC: resolution not supported by selected ADC")
    else Success(m)
  }

  /** resolve_mapping as a value: an explicit peripheral and channel are
      kept once checked; an internal channel goes to the named peripheral or
      to the dedicated ADC; anything else is looked up in the pin table. */
  function Resolve(e: Entry, hasAdc3: bool, table: seq<PinMapping>): Result<Mapping>
  {
    if !e.peripheral.AutoPeripheral? && !e.channel.AutoChannel? then
      CheckedMapping(Mapping(e.peripheral, e.channel), e.resolution, hasAdc3)
    else if !e.channel.AutoChannel? && IsInternalChannel(e.channel) then
      var p := if e.peripheral.AutoPeripheral? then DedicatedAdc(hasAdc3) else e.peripheral;
      CheckedMapping(Mapping(p, e.channel), e.resolution, hasAdc3)
    else
      match BestIndex(e, table)
      case None => Failure("ADC: no valid ADC mapping for pin/resolution")
      case Some(k) => Success(Mapping(table[k].peripheral, table[k].channel))
  }

  /** An explicit peripheral and channel come back unchanged when they pass
      the checks, and are an error otherwise. */
  lemma ExplicitKept(e: Entry, hasAdc3: bool, table: seq<PinMapping>)
    requires !e.peripheral.AutoPeripheral? && !e.channel.AutoChannel?
    ensures Resolve(e, hasAdc3, table).Success? <==> Checked(Mapping(e.peripheral, e.channel), e.resolution, hasAdc3)
    ensures Resolve(e, hasAdc3, table).Success? ==> Resolve(e, hasAdc3, table).value == Mapping(e.peripheral, e.channel)
  {
  }

  /** An internal channel with AUTO peripheral goes to the dedicated ADC,
      unless the resolution is too wide for it. */
  lemma InternalGoesToDedicated(e: Entry, hasAdc3: bool, table: seq<PinMapping>)
    requires e.peripheral.AutoPeripheral? && IsInternalChannel(e.channel)
    ensures Resolve(e, hasAdc3, table).Success? <==> ResolutionSupported(DedicatedAdc(hasAdc3), e.resolution)
    ensures Resolve(e, hasAdc3, table).Success? ==> Resolve(e, hasAdc3, table).value == Mapping(DedicatedAdc(hasAdc3), e.channel)
  {
  }

  /** Any other request gets the first best-scoring matching table row, and
      is an error when no row matches. */
  lemma SearchPicksFirstBest(e: Entry, hasAdc3: bool, table: seq<PinMapping>)
    requires e.peripheral.AutoPeripheral? || e.channel.AutoChannel?
    requires e.channel.AutoChannel? || !IsInternalChannel(e.channel)
    ensures Resolve(e, hasAdc3, table).Success? <==> exists k :: 0 <= k < |table| && Matches(e, table[k])
    ensures Resolve(e, hasAdc3, table).Success? ==>
      exists k :: 0 <= k < |table| && FirstBest(e, table, k) &&
        Resolve(e, hasAdc3, table).value == Mapping(table[k].peripheral, table[k].channel)
  {
    BestIndexIsFirstBest(e, table);
  }

  /** PA0 with AUTO peripheral and channel at 12 bits resolves to ADC_1
      channel 16, its only table row. */
  lemma PA0Resolves(e: Entry, hasAdc3: bool)
    requires e.pin.port == GPIODomain.A && e.pin.pin == 0x0001
    requires e.peripheral == AutoPeripheral && e.channel == AutoChannel && e.resolution == Bits12
    ensures Resolve(e, hasAdc3, PinMap) == Success(Mapping(Adc1, Ch(16)))
  {
    BestIndexIsFirstBest(e, PinMap);
    assert Matches(e, PinMap[3]);
  }

  /** resolve_mapping: the explicit and internal cases, then the search
      over the pin table keeping the best row so far. */
  method ResolveMapping(e: Entry, hasAdc3: bool, table: seq<PinMapping>) returns (r: Result<Mapping>)
    ensures r == Resolve(e, hasAdc3, table)
  {
    if !e.peripheral.AutoPeripheral? && !e.channel.AutoChannel? {
      return CheckedMapping(Mapping(e.peripheral, e.channel), e.resolution, hasAdc3);
    }
    if !e.channel.AutoChannel? && IsInternalChannel(e.channel) {
      var p := if e.peripheral.AutoPeripheral? then DedicatedAdc(hasAdc3) else e.peripheral;
      return CheckedMapping(Mapping(p, e.channel), e.resolution, hasAdc3);
    }
    var found := false;
    var bestPeripheral := AutoPeripheral;
    var bestChannel := AutoChannel;
    var bestScore := 0;
    ghost var bestK := 0;
    var i := 0;
    while i < |table|
      invariant i <= |table|
      invariant BestIndex(e, table[..i]) == if found then Some(bestK) else None
      invariant found ==> bestK < i
      invariant found ==> bestPeripheral == table[bestK].peripheral && bestChannel == table[bestK].channel
      invariant found ==> bestScore == Score(e, table[bestK])
    {
      var m := table[i];
      assert table[..i + 1][..i] == table[..i];
      if m.port == e.pin.port && m.pin == e.pin.pin &&
         (e.peripheral.AutoPeripheral? || m.peripheral == e.peripheral) &&
         (e.channel.AutoChannel? || m.channel == e.channel) &&
         ResolutionBits(e.resolution) <= m.maxBits
      {
        var score := PreferenceScore(e.resolution, m.peripheral);
        if !found || score > bestScore {
          found := true;
          bestScore := score;
          bestPeripheral := m.peripheral;
          bestChannel := m.channel;
          bestK := i;
        }
      }
      i := i + 1;
    }
    assert table[..i] == table;
    if !found {
      return Failure("ADC: no valid ADC mapping for pin/resolution");
    }
    return Success(Mapping(bestPeripheral, bestChannel));
  }

  // ------------------------------------------------------------------ build

  datatype Config = Config(
    gpioIdx: nat, peripheral: Peripheral, channel: Channel, resolution: Resolution,
    sampleTime: nat, prescaler: nat, sampleRateHz: nat, output: nat)

  /** The mapping of a resolution result (AUTO/AUTO for an error). */
  function MappingIn(r: Result<Mapping>): Mapping
  {
    if r.Success? then r.value else Mapping(AutoPeripheral, AutoChannel)
  }

  function MappingOf(e: Entry, hasAdc3: bool, table: seq<PinMapping>): Mapping
  {
    MappingIn(Resolve(e, hasAdc3, table))
  }

  /** The resolution of every request, in order. */
  function Resolutions(entries: seq<Entry>, hasAdc3: bool, table: seq<PinMapping>): (rs: seq<Result<Mapping>>)
    ensures |rs| == |entries|
    ensures forall k :: 0 <= k < |entries| ==> rs[k] == Resolve(entries[k], hasAdc3, table)
  {
    seq(|entries|, k requires 0 <= k < |entries| => Resolve(entries[k], hasAdc3, table))
  }

  function ConfigFor(e: Entry, m: Mapping): Config
  {
    Config(e.gpioIdx, m.peripheral, m.channel, e.resolution, e.sampleTime, e.prescaler, e.sampleRateHz, e.output)
  }

  /** A request build accepts on its own, given its resolution: it
      resolved, the mapping passes the checks, and it asks for no sample
      rate (polling mode). */
  predicate Accepted(e: Entry, r: Result<Mapping>, hasAdc3: bool)
  {
    r.Success? && Checked(r.value, e.resolution, hasAdc3) && e.sampleRateHz == 0
  }

  /** Two requests build accepts together: different GPIOs, different
      (peripheral, channel) pairs, and on one peripheral the same
      resolution, prescaler and sample rate. */
  predicate Compatible(a: Entry, ra: Result<Mapping>, b: Entry, rb: Result<Mapping>)
  {
    var ma, mb := MappingIn(ra), MappingIn(rb);
    a.gpioIdx != b.gpioIdx && ma != mb &&
    (PeripheralIndex(ma.peripheral) == PeripheralIndex(mb.peripheral) ==>
       a.resolution == b.resolution && a.prescaler == b.prescaler && a.sampleRateHz == b.sampleRateHz)
  }

  predicate OnSlot(r: Result<Mapping>, p: nat)
  {
    PeripheralIndex(MappingIn(r).peripheral) == p
  }

  /** How many of the resolved requests land on peripheral slot p. */
  function CountOn(rs: seq<Result<Mapping>>, p: nat): nat
  {
    if rs == [] then 0
    else CountOn(rs[..|rs| - 1], p) + if OnSlot(rs[|rs| - 1], p) then 1 else 0
  }

  lemma {:induction false} CountOnPrefix(rs: seq<Result<Mapping>>, n: nat, p: nat)
    requires n <= |rs|
    ensures CountOn(rs[..n], p) <= CountOn(rs, p)
    decreases |rs|
  {
    if n < |rs| {
      var init := rs[..|rs| - 1];
      assert init[..n] == rs[..n];
      CountOnPrefix(init, n, p);
    } else {
      assert rs[..n] == rs;
    }
  }

  /** What build accepts, given each request's resolution. */
  predicate BuildOkWith(entries: seq<Entry>, rs: seq<Result<Mapping>>, hasAdc3: bool)
    requires |rs| == |entries|
  {
    |entries| <= MaxInstances &&
    (forall i :: 0 <= i < |entries| ==> Accepted(entries[i], rs[i], hasAdc3)) &&
    (forall j, i :: 0 <= j < i < |entries| ==> Compatible(entries[j], rs[j], entries[i], rs[i])) &&
    (forall p :: 0 <= p < 3 ==> CountOn(rs, p) <= MaxChannelsPerPeripheral)
  }

  /** What build accepts: at most 32 requests, each accepted, every pair
      compatible, and at most 16 channels on each peripheral. */
  predicate BuildOk(entries: seq<Entry>, hasAdc3: bool, table: seq<PinMapping>)
  {
    BuildOkWith(entries, Resolutions(entries, hasAdc3, table), hasAdc3)
  }

  /** build's bookkeeping for one peripheral: periph_seen,
      periph_resolution, periph_prescaler, periph_rate and periph_counts
      at its index. */
  datatype Slot = Slot(seen: bool, resolution: Resolution, prescaler: nat, rate: nat, count: nat)

  const Unseen := Slot(false, Bits16, 0, 0, 0)

  /** Slot p after the first i requests: it counts the requests on p, and
      once one has been seen it holds the settings of the first of them. */
  ghost predicate SlotFixed(entries: seq<Entry>, rs: seq<Result<Mapping>>, i: nat, p: nat, s: Slot, first: nat)
    requires i <= |entries| == |rs|
  {
    s.count == CountOn(rs[..i], p) <= MaxChannelsPerPeripheral &&
    (s.seen ==> first < i && OnSlot(rs[first], p) && s.resolution == entries[first].resolution &&
                s.prescaler == entries[first].prescaler && s.rate == entries[first].sampleRateHz) &&
    (!s.seen ==> forall k :: 0 <= k < i ==> !OnSlot(rs[k], p))
  }

  /** The state build has reached after the first i requests: each of them
      accepted and configured, every pair among them compatible, and the
      three slots up to date. */
  ghost predicate BuiltUpTo(entries: seq<Entry>, rs: seq<Result<Mapping>>, hasAdc3: bool, i: nat,
                            cfgs: seq<Config>, slots: seq<Slot>, first: seq<nat>)
  {
    i <= |entries| == |rs| && |cfgs| == i && |slots| == |first| == 3 &&
    (forall k :: 0 <= k < i ==> Accepted(entries[k], rs[k], hasAdc3)) &&
    (forall k :: 0 <= k < i ==> cfgs[k] == ConfigFor(entries[k], MappingIn(rs[k]))) &&
    (forall j, k :: 0 <= j < k < i ==> Compatible(entries[j], rs[j], entries[k], rs[k])) &&
    (forall p :: 0 <= p < 3 ==> SlotFixed(entries, rs, i, p, slots[p], first[p]))
  }

  /** build: each request is resolved and checked, the first request on a
      peripheral fixes its resolution, prescaler and rate, the channels on
      a peripheral are counted, and each request is compared with the ones
      before it. */
  method Build(entries: seq<Entry>, hasAdc3: bool, table: seq<PinMapping>) returns (r: Result<seq<Config>>)
    ensures r.Success? <==> BuildOk(entries, hasAdc3, table)
    ensures r.Success? ==> |r.value| == |entries|
    ensures r.Success? ==>
      forall i :: 0 <= i < |entries| ==> r.value[i] == ConfigFor(entries[i], MappingOf(entries[i], hasAdc3, table))
  {
    ghost var rs := Resolutions(entries, hasAdc3, table);
    if |entries| > MaxInstances {
      return Failure("ADCDomain: too many instances");
    }
    var cfgs: seq<Config> := [];
    var slots := [Unseen, Unseen, Unseen];
    ghost var first: seq<nat> := [0, 0, 0];
    var i := 0;
    while i < |entries|
      invariant BuiltUpTo(entries, rs, hasAdc3, i, cfgs, slots, first)
    {
      var err;
      err, cfgs, slots, first := Admit(entries, rs, hasAdc3, table, i, cfgs, slots, first);
      if err.Some? {
        return Failure(err.value);
      }
      i := i + 1;
    }
    assert rs[..i] == rs;
    forall p | 0 <= p < 3 ensures CountOn(rs, p) <= MaxChannelsPerPeripheral {
      assert SlotFixed(entries, rs, i, p, slots[p], first[p]);
    }
    return Success(cfgs);
  }

  /** One pass of build's loop: request i is checked, its slot updated and
      counted, and it is compared with the requests before it.  An error
      means build refuses the whole list. */
  method Admit(entries: seq<Entry>, ghost rs: seq<Result<Mapping>>, hasAdc3: bool, table: seq<PinMapping>,
               i: nat, cfgs: seq<Config>, slots: seq<Slot>, ghost first: seq<nat>)
    returns (err: Option<string>, cfgs': seq<Config>, slots': seq<Slot>, ghost first': seq<nat>)
    requires rs == Resolutions(entries, hasAdc3, table)
    requires i < |entries| && BuiltUpTo(entries, rs, hasAdc3, i, cfgs, slots, first)
    ensures err.Some? ==> !BuildOkWith(entries, rs, hasAdc3)
    ensures err.None? ==> BuiltUpTo(entries, rs, hasAdc3, i + 1, cfgs', slots', first')
  {
    cfgs', slots', first' := cfgs, slots, first;
    var e := entries[i];
    var m := CheckEntry(e, hasAdc3, table);
    if m.Failure? {
      return Some(m.error), cfgs', slots', first';
    }
    var pidx := PeripheralIndex(m.value.peripheral);
    var s;
    ghost var f;
    err, s, f := UpdateSlot(entries, rs, hasAdc3, i, pidx, slots[pidx], first[pidx]);
    if err.Some? {
      return;
    }
    err := CheckEarlier(entries, rs, i, hasAdc3, table, m.value);
    if err.Some? {
      return;
    }
    slots' := slots[pidx := s];
    first' := first[pidx := f];
    cfgs' := cfgs + [ConfigFor(e, m.value)];
    BuiltExtends(entries, rs, hasAdc3, i, cfgs, slots, first, pidx, s, f);
  }

  /** Request i, accepted, agreeing with the earlier requests on its slot
      and clashing with none before it, extends build's state by one. */
  lemma BuiltExtends(entries: seq<Entry>, rs: seq<Result<Mapping>>, hasAdc3: bool, i: nat,
                     cfgs: seq<Config>, slots: seq<Slot>, first: seq<nat>, pidx: nat, s: Slot, f: nat)
    requires i < |entries| && BuiltUpTo(entries, rs, hasAdc3, i, cfgs, slots, first)
    requires Accepted(entries[i], rs[i], hasAdc3) && pidx == PeripheralIndex(MappingIn(rs[i]).peripheral)
    requires SlotFixed(entries, rs, i + 1, pidx, s, f)
    requires forall k :: 0 <= k < i && OnSlot(rs[k], pidx) ==>
      entries[k].resolution == entries[i].resolution && entries[k].prescaler == entries[i].prescaler &&
      entries[k].sampleRateHz == entries[i].sampleRateHz
    requires forall k :: 0 <= k < i ==>
      entries[k].gpioIdx != entries[i].gpioIdx && MappingIn(rs[k]) != MappingIn(rs[i])
    ensures BuiltUpTo(entries, rs, hasAdc3, i + 1, cfgs + [ConfigFor(entries[i], MappingIn(rs[i]))],
                      slots[pidx := s], first[pidx := f])
  {
    var cfgs', slots', first' := cfgs + [ConfigFor(entries[i], MappingIn(rs[i]))], slots[pidx := s], first[pidx := f];
    forall j, k | 0 <= j < k < i + 1 ensures Compatible(entries[j], rs[j], entries[k], rs[k]) {
      if k == i {
        assert OnSlot(rs[j], pidx) || PeripheralIndex(MappingIn(rs[j]).peripheral) != pidx;
      }
    }
    forall p | 0 <= p < 3 ensures SlotFixed(entries, rs, i + 1, p, slots'[p], first'[p]) {
      if p != pidx {
        assert rs[..i + 1][..i] == rs[..i];
        assert SlotFixed(entries, rs, i, p, slots[p], first[p]);
      }
    }
  }

  /** build's handling of request i's slot: the first request on it fixes
      its settings, a later one must agree with them, and the count must
      stay within 16. */
  method UpdateSlot(entries: seq<Entry>, ghost rs: seq<Result<Mapping>>, hasAdc3: bool, i: nat, pidx: nat,
                    s: Slot, ghost f: nat)
    returns (err: Option<string>, s': Slot, ghost f': nat)
    requires i < |entries| == |rs| && pidx < 3 && OnSlot(rs[i], pidx)
    requires forall j, k :: 0 <= j < k < i ==> Compatible(entries[j], rs[j], entries[k], rs[k])
    requires SlotFixed(entries, rs, i, pidx, s, f)
    ensures err.Some? ==> !BuildOkWith(entries, rs, hasAdc3)
    ensures err.None? ==> SlotFixed(entries, rs, i + 1, pidx, s', f')
    ensures err.None? ==> forall k :: 0 <= k < i && OnSlot(rs[k], pidx) ==>
      entries[k].resolution == entries[i].resolution && entries[k].prescaler == entries[i].prescaler &&
      entries[k].sampleRateHz == entries[i].sampleRateHz
  {
    var e := entries[i];
    s', f' := s, f;
    if !s.seen {
      s', f' := Slot(true, e.resolution, e.prescaler, e.sampleRateHz, s.count), i;
    } else {
      if s.resolution != e.resolution {
        assert !Compatible(entries[f], rs[f], entries[i], rs[i]);
        return Some("ADC: resolution mismatch on same peripheral"), s', f';
      }
      if s.prescaler != e.prescaler {
        assert !Compatible(entries[f], rs[f], entries[i], rs[i]);
        return Some("ADC: prescaler mismatch on same peripheral"), s', f';
      }
      if s.rate != e.sampleRateHz {
        assert !Compatible(entries[f], rs[f], entries[i], rs[i]);
        return Some("ADC: sample rate mismatch on same peripheral"), s', f';
      }
      SlotAgrees(entries, rs, i, f);
    }
    assert rs[..i + 1][..i] == rs[..i];
    s' := s'.(count := s.count + 1);
    if s'.count > MaxChannelsPerPeripheral {
      CountOnPrefix(rs, i + 1, pidx);
      return Some("ADC: too many channels on same peripheral"), s', f';
    }
    err := None;
  }

  /** One request's own checks in build: it resolves, its mapping passes
      the checks, and it asks for no sample rate. */
  method CheckEntry(e: Entry, hasAdc3: bool, table: seq<PinMapping>) returns (r: Result<Mapping>)
    ensures r.Success? <==> Accepted(e, Resolve(e, hasAdc3, table), hasAdc3)
    ensures r.Success? ==> r == Resolve(e, hasAdc3, table)
  {
    r := ResolveMapping(e, hasAdc3, table);
    if r.Failure? {
      return r;
    }
    var peripheral, channel := r.value.peripheral, r.value.channel;
    if !IsValidChannel(channel) {
      return Failure("ADC: invalid channel");
    }
    if !InternalChannelAllowed(peripheral, channel, hasAdc3) {
      return Failure("ADC: internal channel must use dedicated ADC");
    }
    if !ResolutionSupported(peripheral, e.resolution) {
      return Failure("ADC: resolution not supported by selected ADC");
    }
    if e.sampleRateHz != 0 {
      return Failure("ADC: sample_rate_hz is not supported in polling mode");
    }
  }

  /** build's comparison of request i with the requests before it: the
      error for the first one on the same GPIO or the same peripheral and
      channel, if any. */
  method CheckEarlier(entries: seq<Entry>, ghost rs: seq<Result<Mapping>>, i: nat, hasAdc3: bool,
                      table: seq<PinMapping>, m: Mapping)
    returns (clash: Option<string>)
    requires i < |entries| == |rs| && m == MappingIn(rs[i])
    requires forall k :: 0 <= k < i ==> rs[k] == Resolve(entries[k], hasAdc3, table) && rs[k].Success?
    ensures clash.None? <==> forall k :: 0 <= k < i ==>
      entries[k].gpioIdx != entries[i].gpioIdx && MappingIn(rs[k]) != m
    ensures clash.Some? ==> exists k :: 0 <= k < i && !Compatible(entries[k], rs[k], entries[i], rs[i])
  {
    var e := entries[i];
    var j := 0;
    while j < i
      invariant j <= i
      invariant forall k :: 0 <= k < j ==> entries[k].gpioIdx != e.gpioIdx && MappingIn(rs[k]) != m
    {
      var prev := entries[j];
      if prev.gpioIdx == e.gpioIdx {
        assert !Compatible(entries[j], rs[j], entries[i], rs[i]);
        return Some("ADC: GPIO already used");
      }
      var pm := ResolveMapping(prev, hasAdc3, table);
      if pm.value.peripheral == m.peripheral && pm.value.channel == m.channel {
        assert !Compatible(entries[j], rs[j], entries[i], rs[i]);
        return Some("ADC: duplicate channel on same peripheral");
      }
      j := j + 1;
    }
    return None;
  }

  /** A request that agrees with the first request on its slot agrees with
      every earlier request on that slot. */
  lemma SlotAgrees(entries: seq<Entry>, rs: seq<Result<Mapping>>, i: nat, f: nat)
    requires f < i < |entries| == |rs|
    requires forall j, k :: 0 <= j < k < i ==> Compatible(entries[j], rs[j], entries[k], rs[k])
    requires OnSlot(rs[f], PeripheralIndex(MappingIn(rs[i]).peripheral))
    requires entries[f].resolution == entries[i].resolution && entries[f].prescaler == entries[i].prescaler &&
      entries[f].sampleRateHz == entries[i].sampleRateHz
    ensures forall k :: 0 <= k < i && OnSlot(rs[k], PeripheralIndex(MappingIn(rs[i]).peripheral)) ==>
      entries[k].resolution == entries[i].resolution && entries[k].prescaler == entries[i].prescaler &&
      entries[k].sampleRateHz == entries[i].sampleRateHz
  {
    var p := PeripheralIndex(MappingIn(rs[i]).peripheral);
    forall k | 0 <= k < i && OnSlot(rs[k], p)
      ensures entries[k].resolution == entries[i].resolution && entries[k].prescaler == entries[i].prescaler &&
        entries[k].sampleRateHz == entries[i].sampleRateHz
    {
      if k < f {
        assert Compatible(entries[k], rs[k], entries[f], rs[f]);
      } else if f < k {
        assert Compatible(entries[f], rs[f], entries[k], rs[k]);
      }
    }
  }

  /** max_raw_for_resolution: the largest raw reading at each resolution. */
  function MaxRawForResolution(r: Resolution): nat
  {
    match r
    case Bits16 => 65535
    case Bits14 => 16383
    case Bits12 => 4095
    case Bits10 => 1023
    case Bits8 => 255
  }

  function Pow2(k: nat): (r: nat)
    ensures r >= 1
  {
    if k == 0 then 1 else 2 * Pow2(k - 1)
  }

  /** The largest raw reading is 2^bits - 1. */
  lemma MaxRawIsAllOnes(r: Resolution)
    ensures MaxRawForResolution(r) == Pow2(ResolutionBits(r)) - 1
  {
    assert Pow2(8) == 256;
    assert Pow2(10) == 4 * Pow2(8);
    assert Pow2(12) == 4 * Pow2(10);
    assert Pow2(14) == 4 * Pow2(12);
    assert Pow2(16) == 4 * Pow2(14);
  }
}
