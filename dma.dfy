// DMADomain: the DMA entries a peripheral declares, the DMA_InitTypeDef
// settings each (peripheral, channel id) pair selects, and the build step
// that gives every entry a stream of its own.
module DMADomain {
  import opened Wrappers

  /** A uint8_t. */
  type U8 = n: nat | n < 0x100

  /** The peripherals that can own a DMA stream; NoPeripheral asks for a
      memory-to-memory transfer. */
  datatype Peripheral =
    | NoPeripheral | Adc1 | Adc2 | Adc3
    | I2c1 | I2c2 | I2c3 | I2c5
    | Spi1 | Spi2 | Spi3 | Spi4 | Spi5 | Spi6
    | Fmac

  predicate IsSpi(p: Peripheral)
  {
    p.Spi1? || p.Spi2? || p.Spi3? || p.Spi4? || p.Spi5? || p.Spi6?
  }

  predicate IsI2c(p: Peripheral)
  {
    p.I2c1? || p.I2c2? || p.I2c3? || p.I2c5?
  }

  predicate IsAdc(p: Peripheral)
  {
    p.Adc1? || p.Adc2? || p.Adc3?
  }

  /** Stream::none is 0; dma1_stream0..7 are 1..8 and dma2_stream0..7 are
      9..16. */
  type Stream = s: nat | s <= 16

  const NoStream: Stream := 0

  /** MAX_STREAMS. */
  const MaxStreams: nat := 16

  /** get_irqn, with the interrupt numbers of the mock HAL: DMA1 streams
      0..6 are 11..17, DMA1 stream 7 is 47, DMA2 streams 0..7 are 56..63, and
      Stream::none gets the placeholder 0. */
  function Irqn(s: Stream): nat
  {
    if s == NoStream then 0
    else if s <= 7 then s + 10
    else if s == 8 then 47
    else s + 47
  }

  /** Each stream has an interrupt line of its own, and only Stream::none
      gets 0. */
  lemma IrqnDistinct(s: Stream, t: Stream)
    ensures Irqn(s) == 0 <==> s == NoStream
    ensures s != t ==> Irqn(s) != Irqn(t)
  {
  }

  // ----- The DMA_InitTypeDef settings -----

  /** The mock HAL's DMA_REQUEST_* lines this file names by value. */
  const RequestMem2Mem: nat := 0x00
  const RequestFmacWrite: nat := 0x16
  const RequestFmacRead: nat := 0x17

  const InvalidRequest := "Invalid DMA request configuration"

  /** Channel 0 of a two-way peripheral receives and channel 1 transmits. */
  function RxTx(rx: nat, tx: nat, i: U8): Result<nat>
  {
    if i == 0 then Success(rx)
    else if i == 1 then Success(tx)
    else Failure(InvalidRequest)
  }

  /** get_Request: the request line of channel i of a peripheral. */
  function Request(p: Peripheral, i: U8): Result<nat>
  {
    match p
    case NoPeripheral => Success(RequestMem2Mem)
    case Adc1 => Success(0x01)
    case Adc2 => Success(0x02)
    case Adc3 => Success(0x03)
    case I2c1 => RxTx(0x04, 0x05, i)
    case I2c2 => RxTx(0x06, 0x07, i)
    case I2c3 => RxTx(0x08, 0x09, i)
    case I2c5 => RxTx(0x0A, 0x0B, i)
    case Spi1 => RxTx(0x0C, 0x0D, i)
    case Spi2 => RxTx(0x0E, 0x0F, i)
    case Spi3 => RxTx(0x10, 0x11, i)
    case Spi4 => RxTx(0x12, 0x13, i)
    case Spi5 => RxTx(0x14, 0x15, i)
    case Spi6 => Failure(InvalidRequest)
    case Fmac =>
      if i == 0 then Success(RequestMem2Mem)
      else if i == 1 then Success(RequestFmacWrite)
      else if i == 2 then Success(RequestFmacRead)
      else Failure(InvalidRequest)
  }

  /** The (peripheral, channel) pairs with a request line: none and the
      ADCs on any channel, channels 0 and 1 of the I2Cs and of SPI1..SPI5,
      and channels 0..2 of the FMAC; SPI6 has none. */
  lemma RequestDefined(p: Peripheral, i: U8)
    ensures Request(p, i).Success? <==>
      p.NoPeripheral? || IsAdc(p) || ((IsI2c(p) || (IsSpi(p) && !p.Spi6?)) && i <= 1) || (p.Fmac? && i <= 2)
    ensures Request(p, i).Failure? ==> Request(p, i).error == InvalidRequest
  {
  }

  /** A request line other than MEM2MEM belongs to one peripheral, and to
      one channel of it unless it is an ADC's. */
  lemma RequestLinesOwned(p: Peripheral, i: U8, q: Peripheral, j: U8)
    requires Request(p, i).Success? && Request(q, j).Success?
    requires Request(p, i).value == Request(q, j).value != RequestMem2Mem
    ensures p == q && (IsAdc(p) || i == j)
  {
  }

  datatype Transfer = PeriphToMemory | MemoryToPeriph | MemoryToMemory

  /** get_Direction. */
  function Direction(p: Peripheral, i: U8): Transfer
  {
    if (p.Fmac? && i == 0) || p.NoPeripheral? then MemoryToMemory
    else if (IsI2c(p) && i == 1) || (IsSpi(p) && i == 1) || (p.Fmac? && i == 1) then MemoryToPeriph
    else PeriphToMemory
  }

  /** The request lines that move data from memory to the peripheral. */
  predicate IsTransmitLine(r: nat)
  {
    (0x05 <= r <= 0x15 && r % 2 == 1) || r == RequestFmacWrite
  }

  /** The direction agrees with the request line: memory to memory exactly
      on MEM2MEM, memory to peripheral exactly on a TX or FMAC write line. */
  lemma DirectionMatchesRequest(p: Peripheral, i: U8)
    requires Request(p, i).Success?
    ensures Direction(p, i) == MemoryToMemory <==> Request(p, i).value == RequestMem2Mem
    ensures Direction(p, i) == MemoryToPeriph <==> IsTransmitLine(Request(p, i).value)
  {
  }

  /** get_PeriphInc. */
  function PeriphInc(p: Peripheral, i: U8): bool
  {
    (p.Fmac? && i == 0) || p.NoPeripheral?
  }

  /** get_MemInc. */
  function MemInc(p: Peripheral, i: U8): bool
  {
    !(p.Fmac? && i == 0)
  }

  /** The peripheral-side address advances exactly on memory-to-memory
      transfers, and the memory-side one stays put only on the FMAC's. */
  lemma IncrementsFollowDirection(p: Peripheral, i: U8)
    ensures PeriphInc(p, i) <==> Direction(p, i) == MemoryToMemory
    ensures !MemInc(p, i) <==> p.Fmac? && Direction(p, i) == MemoryToMemory
  {
  }

  datatype Alignment = Byte | HalfWord | Word

  /** get_PeriphDataAlignment. */
  function PeriphDataAlignment(p: Peripheral): Alignment
  {
    if IsSpi(p) || IsI2c(p) then Byte
    else if p.NoPeripheral? then Word
    else HalfWord
  }

  /** get_MemDataAlignment. */
  function MemDataAlignment(p: Peripheral): Alignment
  {
    if IsI2c(p) then Word
    else if IsSpi(p) then Byte
    else HalfWord
  }

  /** Both sides move items of one size for the SPIs (bytes), the ADCs
      and the FMAC (half-words); the I2Cs and memory-to-memory transfers
      pack items of one size into another. */
  lemma AlignmentsAgree(p: Peripheral)
    ensures PeriphDataAlignment(p) == MemDataAlignment(p) <==> IsSpi(p) || IsAdc(p) || p.Fmac?
    ensures IsSpi(p) ==> MemDataAlignment(p) == Byte
  {
  }

  datatype DmaMode = Normal | Circular

  /** get_Mode. */
  function Mode(p: Peripheral): DmaMode
  {
    if IsSpi(p) || p.Fmac? || p.NoPeripheral? then Normal else Circular
  }

  /** Only the peripherals that stream continuously, the ADCs and the
      I2Cs, run in circular mode. */
  lemma ModeCircularExactly(p: Peripheral)
    ensures Mode(p) == Circular <==> IsAdc(p) || IsI2c(p)
  {
  }

  datatype DmaPriority = Low | High

  /** get_Priority. */
  function Priority(p: Peripheral): DmaPriority
  {
    if p.Fmac? then High else Low
  }

  /** get_FIFOMode: the FIFO is on for the FMAC only. */
  function FifoMode(p: Peripheral): bool
  {
    p.Fmac?
  }

  datatype FifoLevel = HalfFull | Full

  /** get_FIFOThreshold. */
  function FifoThreshold(p: Peripheral): FifoLevel
  {
    if IsSpi(p) then Full else HalfFull
  }

  /** The DMA_InitTypeDef of an entry; both bursts are always single. */
  datatype InitData = InitData(
    request: nat, direction: Transfer, periphInc: bool, memInc: bool,
    periphAlign: Alignment, memAlign: Alignment, mode: DmaMode,
    priority: DmaPriority, fifo: bool, fifoThreshold: FifoLevel)

  /** The settings build fills in for channel i of a peripheral, or the
      error get_Request raises. */
  function InitFor(p: Peripheral, i: U8): Result<InitData>
  {
    match Request(p, i)
    case Failure(m) => Failure(m)
    case Success(req) =>
      Success(InitData(req, Direction(p, i), PeriphInc(p, i), MemInc(p, i),
                       PeriphDataAlignment(p), MemDataAlignment(p), Mode(p),
                       Priority(p), FifoMode(p), FifoThreshold(p)))
  }

  /** SPI2's channel 0 receives into memory on SPI2_RX and channel 1
      sends from memory on SPI2_TX, both byte-wide, in normal mode, with
      a full FIFO threshold. */
  lemma Spi2Channels()
    ensures InitFor(Spi2, 0) == Success(InitData(0x0E, PeriphToMemory, false, true, Byte, Byte, Normal, Low, false, Full))
    ensures InitFor(Spi2, 1) == Success(InitData(0x0F, MemoryToPeriph, false, true, Byte, Byte, Normal, Low, false, Full))
  {
  }

  /** The FMAC's channels 0, 1 and 2 are memory to memory on MEM2MEM,
      memory to peripheral on FMAC_WRITE and peripheral to memory on
      FMAC_READ. */
  lemma FmacChannels()
    ensures InitFor(Fmac, 0).Success? && InitFor(Fmac, 0).value.direction == MemoryToMemory
    ensures InitFor(Fmac, 0).value.request == RequestMem2Mem
    ensures InitFor(Fmac, 1).Success? && InitFor(Fmac, 1).value.direction == MemoryToPeriph
    ensures InitFor(Fmac, 1).value.request == RequestFmacWrite
    ensures InitFor(Fmac, 2).Success? && InitFor(Fmac, 2).value.direction == PeriphToMemory
    ensures InitFor(Fmac, 2).value.request == RequestFmacRead
  {
  }

  // ----- Entries -----

  /** What one channel of a peripheral asks of the DMA domain. */
  datatype Entry = Entry(instance: Peripheral, stream: Stream, irqn: nat, id: U8)

  /** The DMA constructor: entry j is for channel j, on the j-th stream
      named (or none), with that stream's interrupt line. */
  method MakeEntries(instance: Peripheral, streams: seq<Stream>) returns (e: seq<Entry>)
    requires |streams| <= 3
    ensures |e| == |streams|
    ensures forall j :: 0 <= j < |e| ==> e[j].instance == instance && e[j].stream == streams[j] && e[j].id == j
    ensures forall j :: 0 <= j < |e| ==> e[j].irqn == Irqn(e[j].stream)
  {
    e := [];
    for j := 0 to |streams|
      invariant |e| == j
      invariant forall k :: 0 <= k < j ==> e[k] == Entry(instance, streams[k], Irqn(streams[k]), k)
    {
      var irqn := if streams[j] != NoStream then Irqn(streams[j]) else 0;
      e := e + [Entry(instance, streams[j], irqn, j)];
    }
  }

  // ----- build -----

  const StreamInUse := "DMA stream already in use"
  const NoStreamLeft := "Not enough DMA streams available"

  /** One entry of build's result: the peripheral, its settings, its
      stream, that stream's interrupt line and the channel id. */
  datatype Config = Config(instance: Peripheral, init: InitData, stream: Stream, irqn: nat, id: U8)

  function Prepend<T>(x: T, r: Result<seq<T>>): Result<seq<T>>
  {
    match r
    case Failure(m) => Failure(m)
    case Success(xs) => Success([x] + xs)
  }

  function Append<T>(xs: seq<T>, r: Result<seq<T>>): Result<seq<T>>
  {
    match r
    case Failure(m) => Failure(m)
    case Success(ys) => Success(xs + ys)
  }

  /** No two entries name the same stream explicitly. */
  predicate ExplicitDistinct(ents: seq<Entry>)
  {
    forall a, b :: 0 <= a < b < |ents| && ents[b].stream != NoStream ==> ents[a].stream != ents[b].stream
  }

  /** The streams the entries name explicitly. */
  function Claimed(ents: seq<Entry>): set<int>
  {
    if ents == [] then {}
    else (if ents[0].stream != NoStream then {ents[0].stream as int} else {}) + Claimed(ents[1..])
  }

  /** The number of entries that leave the stream to build. */
  function CountAuto(ents: seq<Entry>): nat
  {
    if ents == [] then 0
    else (if ents[0].stream == NoStream then 1 else 0) + CountAuto(ents[1..])
  }

  /** The lowest stream from s on that is not in used, or MaxStreams + 1
      when there is none. */
  function LowestFree(used: set<int>, s: nat): (r: nat)
    ensures r <= MaxStreams + 1
    ensures r <= MaxStreams ==> s <= r && r !in used
    ensures forall t :: s <= t < r ==> t in used
    decreases MaxStreams + 1 - s
  {
    if s > MaxStreams then MaxStreams + 1
    else if s !in used then s
    else LowestFree(used, s + 1)
  }

  /** build's second pass: every entry without a stream takes the lowest
      one not yet used, in entry order. */
  function Assign(ents: seq<Entry>, used: set<int>): Result<seq<Entry>>
  {
    if ents == [] then Success([])
    else if ents[0].stream != NoStream then Prepend(ents[0], Assign(ents[1..], used))
    else
      var s := LowestFree(used, 1);
      if s > MaxStreams then Failure(NoStreamLeft)
      else Prepend(ents[0].(stream := s, irqn := Irqn(s)), Assign(ents[1..], used + {s}))
  }

  /** Entry i uses a stream an earlier entry uses. */
  predicate Clash(es: seq<Entry>, i: nat)
    requires i < |es|
  {
    exists j :: 0 <= j < i && es[j].stream == es[i].stream
  }

  /** build's third pass, from entry i on: the duplicate check and the
      settings of each entry. */
  function ConfigsFrom(es: seq<Entry>, i: nat): Result<seq<Config>>
    decreases |es| - i
  {
    if i >= |es| then Success([])
    else if Clash(es, i) then Failure(StreamInUse)
    else match InitFor(es[i].instance, es[i].id)
      case Failure(m) => Failure(m)
      case Success(init) =>
        Prepend(Config(es[i].instance, init, es[i].stream, es[i].irqn, es[i].id), ConfigsFrom(es, i + 1))
  }

  /** What build computes, pass by pass. */
  function BuildSpec(ents: seq<Entry>): Result<seq<Config>>
  {
    if !ExplicitDistinct(ents) then Failure(StreamInUse)
    else match Assign(ents, Claimed(ents))
      case Failure(m) => Failure(m)
      case Success(es) => ConfigsFrom(es, 0)
  }

  /** DMA_Domain::build: the three passes over the entries, sharing the
      table of the streams in use. */
  method Build(ents: seq<Entry>) returns (r: Result<seq<Config>>)
    ensures r == BuildSpec(ents)
  {
    var ok, used := ClaimStreams(ents);
    if !ok {
      return Failure(StreamInUse);
    }
    var placed := AssignStreams(ents, used);
    if placed.Failure? {
      return Failure(placed.error);
    }
    r := MakeConfigs(placed.value);
  }

  /** build's first pass: marks the streams the entries name, and fails on
      a stream named twice. */
  method ClaimStreams(ents: seq<Entry>) returns (ok: bool, used: seq<bool>)
    ensures ok <==> ExplicitDistinct(ents)
    ensures |used| == MaxStreams
    ensures ok ==> forall j :: 0 <= j < MaxStreams ==> (used[j] <==> j + 1 in Claimed(ents))
  {
    used := seq(MaxStreams, _ => false);
    ghost var u: set<int> := {};
    var i := 0;
    while i < |ents|
      invariant i <= |ents| && |used| == MaxStreams
      invariant u == Claimed(ents[..i]) && ExplicitDistinct(ents[..i])
      invariant forall j :: 0 <= j < MaxStreams ==> (used[j] <==> j + 1 in u)
    {
      var e := ents[i];
      ClaimedSnoc(ents[..i], e);
      assert ents[..i + 1] == ents[..i] + [e];
      if e.stream != NoStream {
        ClaimedMeans(ents[..i], e.stream);
        if used[e.stream - 1] {
          var k :| 0 <= k < i && ents[..i][k].stream == e.stream;
          assert ents[k].stream == ents[i].stream;
          return false, used;
        }
        used := used[e.stream - 1 := true];
        u := u + {e.stream};
      }
      i := i + 1;
    }
    assert ents[..i] == ents;
    return true, used;
  }

  /** build's second pass: every entry without a stream takes the lowest
      one still unused. */
  method AssignStreams(ents: seq<Entry>, used0: seq<bool>) returns (r: Result<seq<Entry>>)
    requires |used0| == MaxStreams
    requires forall j :: 0 <= j < MaxStreams ==> (used0[j] <==> j + 1 in Claimed(ents))
    ensures r == Assign(ents, Claimed(ents))
  {
    var used := used0;
    ghost var u := Claimed(ents);
    var out := ents;
    var i := 0;
    AppendEmpty(Assign(ents, u));
    assert ents[0..] == ents;
    while i < |ents|
      invariant i <= |ents| && |used| == MaxStreams && |out| == |ents|
      invariant out[i..] == ents[i..]
      invariant forall j :: 0 <= j < MaxStreams ==> (used[j] <==> j + 1 in u)
      invariant Assign(ents, Claimed(ents)) == Append(out[..i], Assign(ents[i..], u))
    {
      var e := out[i];
      AssignAt(ents, i, u);
      if e.stream == NoStream {
        var j := FirstFree(used);
        FirstUnused(used, u, j);
        if j == MaxStreams {
          return Failure(NoStreamLeft);
        }
        var e' := e.(stream := j + 1, irqn := Irqn(j + 1));
        AppendPrepend(out[..i], e', Assign(ents[i + 1..], u + {j + 1}));
        var used' := used[j := true];
        MarkUsed(used, used', u, j);
        out := out[i := e'];
        used := used';
        u := u + {j + 1};
      } else {
        AppendPrepend(out[..i], e, Assign(ents[i + 1..], u));
      }
      assert out[..i + 1] == out[..i] + [out[i]];
      i := i + 1;
    }
    assert out[..i] == out && ents[i..] == [] && out + [] == out;
    return Success(out);
  }

  /** The first place of the table not marked in use, or MaxStreams. */
  method FirstFree(used: seq<bool>) returns (j: int)
    requires |used| == MaxStreams
    ensures 0 <= j <= MaxStreams && forall k :: 0 <= k < j ==> used[k]
    ensures j < MaxStreams ==> !used[j]
  {
    j := 0;
    while j < MaxStreams && used[j]
      invariant j <= MaxStreams
      invariant forall k :: 0 <= k < j ==> used[k]
    {
      j := j + 1;
    }
  }

  /** One step of Assign, at entry i. */
  lemma AssignAt(ents: seq<Entry>, i: int, u: set<int>)
    requires 0 <= i < |ents|
    ensures Assign(ents[i..], u) ==
      if ents[i].stream != NoStream then Prepend(ents[i], Assign(ents[i + 1..], u))
      else if LowestFree(u, 1) > MaxStreams then Failure(NoStreamLeft)
      else Prepend(ents[i].(stream := LowestFree(u, 1), irqn := Irqn(LowestFree(u, 1))),
                   Assign(ents[i + 1..], u + {LowestFree(u, 1)}))
  {
    assert ents[i..][0] == ents[i] && ents[i..][1..] == ents[i + 1..];
  }

  /** build's third pass: the duplicate check and the settings of every
      entry. */
  method MakeConfigs(out: seq<Entry>) returns (r: Result<seq<Config>>)
    ensures r == ConfigsFrom(out, 0)
  {
    var cfgs: seq<Config> := [];
    var i := 0;
    AppendEmpty(ConfigsFrom(out, 0));
    while i < |out|
      invariant i <= |out|
      invariant ConfigsFrom(out, 0) == Append(cfgs, ConfigsFrom(out, i))
    {
      var e := out[i];
      var j := 0;
      while j < i && out[j].stream != e.stream
        invariant j <= i
        invariant forall k :: 0 <= k < j ==> out[k].stream != e.stream
      {
        j := j + 1;
      }
      if j < i {
        assert Clash(out, i);
        return Failure(StreamInUse);
      }
      var init := InitFor(e.instance, e.id);
      if init.Failure? {
        return Failure(init.error);
      }
      var c := Config(e.instance, init.value, e.stream, e.irqn, e.id);
      AppendPrepend(cfgs, c, ConfigsFrom(out, i + 1));
      cfgs := cfgs + [c];
      i := i + 1;
    }
    assert cfgs + [] == cfgs;
    return Success(cfgs);
  }

  /** The first unmarked place of the table is the lowest free stream. */
  lemma FirstUnused(used: seq<bool>, u: set<int>, j: int)
    requires |used| == MaxStreams
    requires forall k :: 0 <= k < MaxStreams ==> (used[k] <==> k + 1 in u)
    requires 0 <= j <= MaxStreams && forall k :: 0 <= k < j ==> used[k]
    requires j < MaxStreams ==> !used[j]
    ensures LowestFree(u, 1) == j + 1
  {
    forall t | 1 <= t <= j
      ensures t in u
    {
      assert used[t - 1];
    }
  }

  lemma MarkUsed(used: seq<bool>, used': seq<bool>, u: set<int>, j: int)
    requires |used| == MaxStreams && 0 <= j < MaxStreams && used' == used[j := true]
    requires forall k :: 0 <= k < MaxStreams ==> (used[k] <==> k + 1 in u)
    ensures forall k :: 0 <= k < MaxStreams ==> (used'[k] <==> k + 1 in u + {j + 1})
  {
  }

  lemma AppendEmpty<T>(r: Result<seq<T>>)
    ensures Append([], r) == r
  {
    if r.Success? {
      assert [] + r.value == r.value;
    }
  }

  lemma AppendPrepend<T>(xs: seq<T>, x: T, r: Result<seq<T>>)
    ensures Append(xs, Prepend(x, r)) == Append(xs + [x], r)
  {
    if r.Success? {
      assert xs + ([x] + r.value) == (xs + [x]) + r.value;
    }
  }

  lemma {:induction false} ClaimedSnoc(xs: seq<Entry>, e: Entry)
    ensures Claimed(xs + [e]) == Claimed(xs) + (if e.stream != NoStream then {e.stream as int} else {})
  {
    if xs != [] {
      assert (xs + [e])[1..] == xs[1..] + [e];
      ClaimedSnoc(xs[1..], e);
    } else {
      assert [e][1..] == [];
    }
  }

  /** A stream is claimed exactly when some entry names it. */
  lemma {:induction false} ClaimedMeans(ents: seq<Entry>, s: int)
    ensures s in Claimed(ents) <==> s != NoStream && exists k :: 0 <= k < |ents| && ents[k].stream == s
    ensures s in Claimed(ents) ==> 1 <= s <= MaxStreams
  {
    if ents != [] {
      ClaimedMeans(ents[1..], s);
      if s != NoStream && s != ents[0].stream && exists k :: 0 <= k < |ents| && ents[k].stream == s {
        var k :| 0 <= k < |ents| && ents[k].stream == s;
        assert ents[1..][k - 1].stream == s;
      }
    }
  }

  // ----- What build guarantees -----

  /** What Assign does to one entry: the peripheral and the channel stay,
      a named stream stays, and an entry without one gets a stream outside
      used, with that stream's interrupt line. */
  predicate Placed(e: Entry, o: Entry, used: set<int>)
  {
    o.instance == e.instance && o.id == e.id
    && (e.stream != NoStream ==> o == e)
    && (e.stream == NoStream ==> o.stream != NoStream && o.stream !in used && o.irqn == Irqn(o.stream))
  }

  /** The set Assign carries past entry 0. */
  function UsedAfterHead(ents: seq<Entry>, used: set<int>): set<int>
    requires ents != []
  {
    if ents[0].stream != NoStream then used else used + {LowestFree(used, 1)}
  }

  lemma {:induction false} AssignShape(ents: seq<Entry>, used: set<int>)
    requires Assign(ents, used).Success?
    ensures |Assign(ents, used).value| == |ents|
    ensures forall k :: 0 <= k < |ents| ==> Placed(ents[k], Assign(ents, used).value[k], used)
  {
    if ents != [] {
      var used' := UsedAfterHead(ents, used);
      AssignShape(ents[1..], used');
      var out := Assign(ents, used).value;
      var rest := Assign(ents[1..], used').value;
      forall k | 1 <= k < |ents|
        ensures Placed(ents[k], out[k], used)
      {
        assert ents[k] == ents[1..][k - 1] && out[k] == rest[k - 1];
      }
    }
  }

  /** When every named stream is already in used and none is named twice,
      Assign leaves no two entries on one stream. */
  lemma {:induction false} AssignDistinct(ents: seq<Entry>, used: set<int>)
    requires Assign(ents, used).Success? && ExplicitDistinct(ents)
    requires forall k :: 0 <= k < |ents| && ents[k].stream != NoStream ==> ents[k].stream in used
    ensures StreamsDistinct(Assign(ents, used).value)
  {
    if ents != [] {
      var used' := UsedAfterHead(ents, used);
      var out := Assign(ents, used).value;
      var rest := Assign(ents[1..], used').value;
      AssignShape(ents, used);
      AssignShape(ents[1..], used');
      DistinctTail(ents);
      AssignDistinct(ents[1..], used');
      forall a, b | 0 <= a < b < |ents|
        ensures out[a].stream != out[b].stream
      {
        assert ents[b] == ents[1..][b - 1] && out[b] == rest[b - 1];
        if a > 0 {
          assert out[a] == rest[a - 1];
        }
      }
    }
  }

  lemma DistinctTail(ents: seq<Entry>)
    requires ents != [] && ExplicitDistinct(ents)
    ensures ExplicitDistinct(ents[1..])
  {
    forall a, b | 0 <= a < b < |ents| - 1 && ents[1..][b].stream != NoStream
      ensures ents[1..][a].stream != ents[1..][b].stream
    {
      assert ents[1..][a] == ents[a + 1] && ents[1..][b] == ents[b + 1];
    }
  }

  /** No two entries share a stream. */
  predicate StreamsDistinct(es: seq<Entry>)
  {
    forall a, b :: 0 <= a < b < |es| ==> es[a].stream != es[b].stream
  }

  /** No two configurations share a stream. */
  predicate ConfigsDistinct(cs: seq<Config>)
  {
    forall a, b :: 0 <= a < b < |cs| ==> cs[a].stream != cs[b].stream
  }

  /** Stream t is taken by one of the first k configurations. */
  predicate ConfigTakenBefore(cs: seq<Config>, k: int, t: int)
    requires k <= |cs|
  {
    exists a :: 0 <= a < k && cs[a].stream == t
  }

  /** Stream t is taken by one of the first k entries. */
  predicate TakenBefore(es: seq<Entry>, k: int, t: int)
    requires k <= |es|
  {
    exists a :: 0 <= a < k && es[a].stream == t
  }

  /** An entry without a stream gets the lowest one that is neither in
      used nor taken by an earlier entry. */
  lemma {:induction false} AssignLowest(ents: seq<Entry>, used: set<int>)
    requires Assign(ents, used).Success?
    ensures |Assign(ents, used).value| == |ents|
    ensures forall k :: 0 <= k < |ents| && ents[k].stream == NoStream ==>
      forall t :: 1 <= t < Assign(ents, used).value[k].stream ==> t in used || TakenBefore(Assign(ents, used).value, k, t)
  {
    AssignShape(ents, used);
    if ents != [] {
      var used' := UsedAfterHead(ents, used);
      var out := Assign(ents, used).value;
      var rest := Assign(ents[1..], used').value;
      AssignLowest(ents[1..], used');
      forall k | 0 <= k < |ents| && ents[k].stream == NoStream
        ensures forall t :: 1 <= t < out[k].stream ==> t in used || TakenBefore(out, k, t)
      {
        if k > 0 {
          assert ents[k] == ents[1..][k - 1] && out[k] == rest[k - 1];
          forall t | 1 <= t < out[k].stream && t !in used
            ensures TakenBefore(out, k, t)
          {
            if t in used' {
              assert out[0].stream == t;
            } else {
              var a :| 0 <= a < k - 1 && rest[a].stream == t;
              assert out[a + 1].stream == t;
            }
          }
        }
      }
    }
  }

  /** The streams 1..k. */
  ghost function StreamsUpTo(k: nat): set<int>
  {
    if k == 0 then {} else StreamsUpTo(k - 1) + {k as int}
  }

  lemma {:induction false} StreamsUpToCard(k: nat)
    ensures |StreamsUpTo(k)| == k
    ensures forall x :: x in StreamsUpTo(k) <==> 1 <= x <= k
  {
    if k > 0 {
      StreamsUpToCard(k - 1);
    }
  }

  lemma SubsetCard(a: set<int>, b: set<int>)
    requires a <= b
    ensures |a| <= |b|
  {
    assert b == a + (b - a);
  }

  /** Assign runs out of streams exactly when the entries without one
      outnumber the streams not in used. */
  lemma {:induction false} AssignSucceeds(ents: seq<Entry>, used: set<int>)
    requires forall x :: x in used ==> 1 <= x <= MaxStreams
    ensures Assign(ents, used).Success? <==> CountAuto(ents) + |used| <= MaxStreams
    ensures Assign(ents, used).Failure? ==> Assign(ents, used).error == NoStreamLeft
  {
    UsedCard(used);
    if ents != [] {
      if ents[0].stream != NoStream {
        AssignSucceeds(ents[1..], used);
      } else if LowestFree(used, 1) <= MaxStreams {
        AssignSucceeds(ents[1..], used + {LowestFree(used, 1)});
      }
    }
  }

  /** At most MaxStreams streams can be in use, and all of them are when
      none is free. */
  lemma UsedCard(used: set<int>)
    requires forall x :: x in used ==> 1 <= x <= MaxStreams
    ensures |used| <= MaxStreams
    ensures LowestFree(used, 1) > MaxStreams ==> |used| == MaxStreams
  {
    StreamsUpToCard(MaxStreams);
    forall x | x in used
      ensures x in StreamsUpTo(MaxStreams)
    {
      assert 1 <= x <= MaxStreams;
    }
    SubsetCard(used, StreamsUpTo(MaxStreams));
    var s := LowestFree(used, 1);
    if s > MaxStreams {
      forall x | x in StreamsUpTo(MaxStreams)
        ensures x in used
      {
        assert 1 <= x < s;
      }
      SubsetCard(StreamsUpTo(MaxStreams), used);
    }
  }

  /** With no stream named twice, every entry names a stream of its own or
      none. */
  lemma {:induction false} ClaimedCard(ents: seq<Entry>)
    requires ExplicitDistinct(ents)
    ensures |Claimed(ents)| + CountAuto(ents) == |ents|
  {
    if ents != [] {
      DistinctTail(ents);
      ClaimedCard(ents[1..]);
      if ents[0].stream != NoStream {
        ClaimedMeans(ents[1..], ents[0].stream);
      }
    }
  }

  /** The claimed streams are real streams, and every named stream is
      claimed. */
  lemma ClaimedCovers(ents: seq<Entry>)
    ensures forall x :: x in Claimed(ents) ==> 1 <= x <= MaxStreams
    ensures forall k :: 0 <= k < |ents| && ents[k].stream != NoStream ==> ents[k].stream in Claimed(ents)
  {
    forall x | x in Claimed(ents)
      ensures 1 <= x <= MaxStreams
    {
      ClaimedMeans(ents, x);
    }
    forall k | 0 <= k < |ents| && ents[k].stream != NoStream
      ensures ents[k].stream in Claimed(ents)
    {
      ClaimedMeans(ents, ents[k].stream);
    }
  }

  /** Every entry's channel has a request line. */
  predicate AllRequests(ents: seq<Entry>)
  {
    forall k :: 0 <= k < |ents| ==> Request(ents[k].instance, ents[k].id).Success?
  }

  /** The configuration build makes for an entry whose channel has a
      request line. */
  function ConfigOf(e: Entry): Config
    requires Request(e.instance, e.id).Success?
  {
    Config(e.instance, InitFor(e.instance, e.id).value, e.stream, e.irqn, e.id)
  }

  /** On entries with streams of their own, the third pass fails only on a
      channel without a request line, and otherwise configures every entry
      in order. */
  lemma {:induction false} ConfigsAll(es: seq<Entry>, i: nat)
    requires i <= |es| && StreamsDistinct(es)
    ensures ConfigsFrom(es, i).Success? <==> forall k :: i <= k < |es| ==> Request(es[k].instance, es[k].id).Success?
    ensures ConfigsFrom(es, i).Failure? ==> ConfigsFrom(es, i).error == InvalidRequest
    ensures ConfigsFrom(es, i).Success? ==> |ConfigsFrom(es, i).value| == |es| - i
    ensures ConfigsFrom(es, i).Success? ==> forall k :: i <= k < |es| ==> ConfigsFrom(es, i).value[k - i] == ConfigOf(es[k])
    decreases |es| - i
  {
    if i < |es| {
      assert !Clash(es, i);
      RequestDefined(es[i].instance, es[i].id);
      ConfigsAll(es, i + 1);
    }
  }

  /** build succeeds exactly when no stream is named twice, there are at
      most MaxStreams entries and every channel has a request line; it
      fails with the message of the first of these that does not hold. */
  lemma BuildOutcome(ents: seq<Entry>)
    ensures !ExplicitDistinct(ents) ==> BuildSpec(ents) == Failure(StreamInUse)
    ensures ExplicitDistinct(ents) && |ents| > MaxStreams ==> BuildSpec(ents) == Failure(NoStreamLeft)
    ensures ExplicitDistinct(ents) && |ents| <= MaxStreams ==> (BuildSpec(ents).Success? <==> AllRequests(ents))
    ensures ExplicitDistinct(ents) && |ents| <= MaxStreams && !AllRequests(ents) ==> BuildSpec(ents) == Failure(InvalidRequest)
  {
    if ExplicitDistinct(ents) {
      var used := Claimed(ents);
      ClaimedCovers(ents);
      ClaimedCard(ents);
      AssignSucceeds(ents, used);
      if Assign(ents, used).Success? {
        var es := Assign(ents, used).value;
        AssignShape(ents, used);
        AssignDistinct(ents, used);
        ConfigsAll(es, 0);
        assert forall k :: 0 <= k < |ents| ==> es[k].instance == ents[k].instance && es[k].id == ents[k].id;
      }
    }
  }

  /** A successful build is the third pass over what Assign returns, and
      configures every entry. */
  lemma BuildUnfolds(ents: seq<Entry>)
    requires BuildSpec(ents).Success?
    ensures ExplicitDistinct(ents) && Assign(ents, Claimed(ents)).Success?
    ensures |Assign(ents, Claimed(ents)).value| == |BuildSpec(ents).value| == |ents|
    ensures forall k :: 0 <= k < |ents| ==>
      var e := Assign(ents, Claimed(ents)).value[k];
      Request(e.instance, e.id).Success? && BuildSpec(ents).value[k] == ConfigOf(e)
  {
    var used := Claimed(ents);
    ClaimedCovers(ents);
    AssignShape(ents, used);
    AssignDistinct(ents, used);
    ConfigsAll(Assign(ents, used).value, 0);
  }

  /** What a successful build hands back: one configuration per entry, in
      order, with the entry's peripheral, channel and settings and a
      stream; a named stream and its interrupt line are kept. */
  lemma BuildMeaning(ents: seq<Entry>)
    requires BuildSpec(ents).Success?
    ensures AllRequests(ents) && |BuildSpec(ents).value| == |ents|
    ensures forall k :: 0 <= k < |ents| ==>
      var c := BuildSpec(ents).value[k];
      c.instance == ents[k].instance && c.id == ents[k].id && c.stream != NoStream
      && c.init == InitFor(ents[k].instance, ents[k].id).value
    ensures forall k :: 0 <= k < |ents| && ents[k].stream != NoStream ==>
      BuildSpec(ents).value[k].stream == ents[k].stream && BuildSpec(ents).value[k].irqn == ents[k].irqn
  {
    BuildUnfolds(ents);
    AssignShape(ents, Claimed(ents));
  }

  /** In a successful build an entry without a stream gets the lowest
      stream that no entry names and no earlier entry took, with that
      stream's interrupt line. */
  lemma BuildPlacesAuto(ents: seq<Entry>)
    requires BuildSpec(ents).Success?
    ensures |BuildSpec(ents).value| == |ents|
    ensures forall k :: 0 <= k < |ents| && ents[k].stream == NoStream ==>
      BuildSpec(ents).value[k].stream !in Claimed(ents)
      && BuildSpec(ents).value[k].irqn == Irqn(BuildSpec(ents).value[k].stream)
    ensures forall k :: 0 <= k < |ents| && ents[k].stream == NoStream ==>
      forall t :: 1 <= t < BuildSpec(ents).value[k].stream ==> t in Claimed(ents) || ConfigTakenBefore(BuildSpec(ents).value, k, t)
  {
    var es := Assign(ents, Claimed(ents)).value;
    var cfgs := BuildSpec(ents).value;
    BuildUnfolds(ents);
    AssignShape(ents, Claimed(ents));
    AssignLowest(ents, Claimed(ents));
    forall k, t | 0 <= k < |ents| && TakenBefore(es, k, t)
      ensures ConfigTakenBefore(cfgs, k, t)
    {
      var a :| 0 <= a < k && es[a].stream == t;
      assert cfgs[a].stream == t;
    }
  }

  /** No two configurations of a successful build share a stream. */
  lemma BuildDistinct(ents: seq<Entry>)
    requires BuildSpec(ents).Success?
    ensures ConfigsDistinct(BuildSpec(ents).value)
  {
    BuildUnfolds(ents);
    ClaimedCovers(ents);
    AssignDistinct(ents, Claimed(ents));
  }

  /** Entries made by the DMA constructor carry their stream's interrupt
      line, and so does every configuration build makes from them. */
  lemma BuildKeepsIrqns(ents: seq<Entry>)
    requires BuildSpec(ents).Success?
    requires forall k :: 0 <= k < |ents| ==> ents[k].irqn == Irqn(ents[k].stream)
    ensures forall k :: 0 <= k < |BuildSpec(ents).value| ==>
      BuildSpec(ents).value[k].irqn == Irqn(BuildSpec(ents).value[k].stream)
  {
    BuildMeaning(ents);
    BuildPlacesAuto(ents);
  }

  /** SPI2's receive channel on DMA1 stream 0 and its transmit channel on
      DMA1 stream 1 are configured with SPI2_RX and SPI2_TX, opposite
      directions, a full FIFO threshold and the streams' interrupt lines. */
  lemma Spi2Build()
    ensures var ents := [Entry(Spi2, 1, 11, 0), Entry(Spi2, 2, 12, 1)];
      BuildSpec(ents).Success? && |BuildSpec(ents).value| == 2
      && BuildSpec(ents).value[0].init.request == 0x0E && BuildSpec(ents).value[1].init.request == 0x0F
      && BuildSpec(ents).value[0].init.direction == PeriphToMemory
      && BuildSpec(ents).value[1].init.direction == MemoryToPeriph
      && BuildSpec(ents).value[0].init.fifoThreshold == Full && BuildSpec(ents).value[1].init.fifoThreshold == Full
      && BuildSpec(ents).value[0].irqn == 11 && BuildSpec(ents).value[1].irqn == 12
  {
    var ents := [Entry(Spi2, 1, 11, 0), Entry(Spi2, 2, 12, 1)];
    BuildOutcome(ents);
    BuildMeaning(ents);
  }

  /** Two ADC entries without streams get DMA1 streams 0 and 1, the lowest
      two, and those streams' interrupt lines. */
  lemma AutoStreamsBuild()
    ensures var ents := [Entry(Adc1, NoStream, 0, 0), Entry(Adc2, NoStream, 0, 0)];
      BuildSpec(ents).Success? && |BuildSpec(ents).value| == 2
      && BuildSpec(ents).value[0].stream == 1 && BuildSpec(ents).value[1].stream == 2
      && BuildSpec(ents).value[0].irqn == 11 && BuildSpec(ents).value[1].irqn == 12
  {
    var ents := [Entry(Adc1, NoStream, 0, 0), Entry(Adc2, NoStream, 0, 0)];
    BuildOutcome(ents);
    BuildMeaning(ents);
    BuildPlacesAuto(ents);
    BuildDistinct(ents);
    ClaimedMeans(ents, 1);
    ClaimedMeans(ents, 2);
  }
}
