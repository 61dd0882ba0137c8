// SPIConfigTypes: the user-facing SPI options, their compile-time check,
// and their translation into the HAL's init values.  The HAL constants take
// the values of the repository's mock HAL header.
module SPIConfigTypes {
  import opened Wrappers

  datatype ClockPolarity = PolarityLow | PolarityHigh
  datatype ClockPhase = FirstEdge | SecondEdge
  datatype BitOrder = MsbFirst | LsbFirst
  datatype NssMode = Software | Hardware
  datatype Direction = FullDuplex | HalfDuplex | SimplexTxOnly | SimplexRxOnly
  datatype NssPolarity = ActiveLow | ActiveHigh

  /** SIZE_4BIT .. SIZE_32BIT, by their bit counts. */
  type DataSize = n: nat | 4 <= n <= 32 witness 8

  /** THRESHOLD_01DATA .. THRESHOLD_16DATA, by their data counts. */
  type FifoThreshold = n: nat | 1 <= n <= 16 witness 1

  /** DATASIZE, or an explicit CRC_4BIT .. CRC_32BIT. */
  datatype CrcLength = CrcDataSize | CrcBits(bits: DataSize)

  /** A uint8_t and a uint32_t. */
  type Byte = n: nat | n < 0x100
  type Word = n: nat | n < 0x1_0000_0000

  datatype SpiConfig = SpiConfig(
    polarity: ClockPolarity, phase: ClockPhase, bitOrder: BitOrder, nssMode: NssMode,
    dataSize: DataSize, direction: Direction, fifoThreshold: FifoThreshold,
    nssPulse: bool, nssPolarity: NssPolarity,
    masterSsIdleness: Byte, masterInterdataIdleness: Byte,
    keepIoState: bool, masterRxAutosusp: bool, ioSwap: bool, tiMode: bool,
    crcCalculation: bool, crcPolynomial: Word, crcLength: CrcLength)

  /** The default-constructed configuration. */
  const DefaultConfig := SpiConfig(
    PolarityLow, FirstEdge, MsbFirst, Hardware, 8, FullDuplex, 1, false, ActiveLow,
    0, 0, true, false, false, false, false, 0x07, CrcDataSize)

  /** A CRC polynomial the peripheral takes: 1 to 0xFFFF and odd. */
  predicate ValidPolynomial(p: Word)
  {
    1 <= p <= 0xFFFF && p % 2 == 1
  }

  /** validate: the first complaint about a configuration, if any. */
  function Validate(c: SpiConfig): (err: Option<string>)
    ensures err.None? <==>
      (c.crcCalculation ==> ValidPolynomial(c.crcPolynomial)) &&
      c.masterSsIdleness <= 15 && c.masterInterdataIdleness <= 15
    ensures !c.crcCalculation ==> (err.None? <==> c.masterSsIdleness <= 15 && c.masterInterdataIdleness <= 15)
    ensures c.crcCalculation && c.crcPolynomial == 0 ==> err == Some("CRC polynomial must be between 1 and 65535")
  {
    if c.crcCalculation && (c.crcPolynomial == 0 || c.crcPolynomial > 0xFFFF) then
      Some("CRC polynomial must be between 1 and 65535")
    else if c.crcCalculation && c.crcPolynomial % 2 == 0 then
      Some("CRC polynomial must be odd")
    else if c.masterSsIdleness > 15 then
      Some("master_ss_idleness must be 0-15")
    else if c.masterInterdataIdleness > 15 then
      Some("master_interdata_idleness must be 0-15")
    else None
  }

  /** The default configuration passes the check. */
  lemma DefaultValid()
    ensures Validate(DefaultConfig).None?
  {
  }

  // HAL constants, as the mock HAL header defines them.
  const SpiNssSoft: nat := 0
  const SpiNssHardInput: nat := 1
  const SpiNssHardOutput: nat := 2
  const SpiCrcLengthDataSize: nat := 0

  /** translate_nss_mode: software management, or the hardware NSS pin as
      an output on a master and an input on a slave. */
  function TranslateNssMode(mode: NssMode, isMaster: bool): (r: nat)
    ensures r == SpiNssSoft <==> mode == Software
    ensures mode == Hardware ==> (r == SpiNssHardOutput <==> isMaster)
    ensures mode == Hardware ==> (r == SpiNssHardInput <==> !isMaster)
  {
    if mode == Software then SpiNssSoft
    else if isMaster then SpiNssHardOutput else SpiNssHardInput
  }

  function TranslateClockPolarity(pol: ClockPolarity): nat
  {
    if pol == PolarityLow then 0 else 1
  }

  function TranslateClockPhase(phase: ClockPhase): nat
  {
    if phase == FirstEdge then 0 else 1
  }

  function TranslateBitOrder(order: BitOrder): nat
  {
    if order == MsbFirst then 0 else 1
  }

  function TranslateNssPolarity(pol: NssPolarity): nat
  {
    if pol == ActiveLow then 0 else 1
  }

  /** translate_direction: 2LINES, 1LINE, 2LINES_TXONLY, 2LINES_RXONLY. */
  function TranslateDirection(dir: Direction): nat
  {
    match dir
    case FullDuplex => 0
    case HalfDuplex => 2
    case SimplexTxOnly => 3
    case SimplexRxOnly => 1
  }

  /** The on/off options (NSS pulse, keep IO state, RX auto-suspend, IO
      swap, TI mode, CRC calculation): ENABLE is 1, DISABLE is 0. */
  function TranslateFlag(enable: bool): nat
  {
    if enable then 1 else 0
  }

  /** Every enumerated option translates to a distinct HAL constant, so no
      setting is lost. */
  lemma TranslationsInjective(c: SpiConfig, d: SpiConfig, isMaster: bool)
    ensures TranslateNssMode(c.nssMode, isMaster) == TranslateNssMode(d.nssMode, isMaster) ==> c.nssMode == d.nssMode
    ensures TranslateClockPolarity(c.polarity) == TranslateClockPolarity(d.polarity) ==> c.polarity == d.polarity
    ensures TranslateClockPhase(c.phase) == TranslateClockPhase(d.phase) ==> c.phase == d.phase
    ensures TranslateBitOrder(c.bitOrder) == TranslateBitOrder(d.bitOrder) ==> c.bitOrder == d.bitOrder
    ensures TranslateNssPolarity(c.nssPolarity) == TranslateNssPolarity(d.nssPolarity) ==> c.nssPolarity == d.nssPolarity
    ensures TranslateDirection(c.direction) == TranslateDirection(d.direction) ==> c.direction == d.direction
    ensures TranslateFlag(c.tiMode) == TranslateFlag(d.tiMode) ==> c.tiMode == d.tiMode
  {
  }

  /** translate_data_size: the HAL counts bits minus one. */
  function TranslateDataSize(size: DataSize): (r: nat)
    ensures r + 1 == size
    ensures 3 <= r <= 31
  {
    size - 1
  }

  /** translate_fifo_threshold: (threshold - 1) << 5, the FTHLV field. */
  function TranslateFifoThreshold(t: FifoThreshold): (r: nat)
    ensures r % 32 == 0 && r / 32 + 1 == t
    ensures r <= 15 * 32
  {
    (t - 1) * 32
  }

  /** translate_ss_idleness: the cycle count clamped to 15. */
  function TranslateSsIdleness(cycles: Byte): (r: nat)
    ensures r <= 15
    ensures cycles <= 15 ==> r == cycles
    ensures cycles > 15 ==> r == 15
  {
    if cycles > 15 then 15 else cycles
  }

  /** translate_interdata_idleness: the clamped cycle count in bits 7:4. */
  function TranslateInterdataIdleness(cycles: Byte): (r: nat)
    ensures r % 16 == 0 && r <= 0xF0
    ensures r / 16 == TranslateSsIdleness(cycles)
  {
    TranslateSsIdleness(cycles) * 16
  }

  /** translate_crc_length: DATASIZE, or (bits - 1) << 16. */
  function TranslateCrcLength(length: CrcLength): (r: nat)
    ensures r == SpiCrcLengthDataSize <==> length.CrcDataSize?
    ensures length.CrcBits? ==> r % 0x1_0000 == 0 && r / 0x1_0000 + 1 == length.bits
  {
    if length.CrcDataSize? then SpiCrcLengthDataSize else (length.bits - 1) * 0x1_0000
  }

  /** The numeric translations keep their inputs: a validated
      configuration's sizes, threshold, idleness and CRC length can be read
      back from the HAL values. */
  lemma TranslationsRoundTrip(c: SpiConfig, d: SpiConfig)
    requires Validate(c).None? && Validate(d).None?
    ensures TranslateDataSize(c.dataSize) == TranslateDataSize(d.dataSize) ==> c.dataSize == d.dataSize
    ensures TranslateFifoThreshold(c.fifoThreshold) == TranslateFifoThreshold(d.fifoThreshold) ==>
      c.fifoThreshold == d.fifoThreshold
    ensures TranslateSsIdleness(c.masterSsIdleness) == c.masterSsIdleness
    ensures TranslateInterdataIdleness(c.masterInterdataIdleness) == c.masterInterdataIdleness * 16
    ensures TranslateCrcLength(c.crcLength) == TranslateCrcLength(d.crcLength) ==> c.crcLength == d.crcLength
  {
  }
}
