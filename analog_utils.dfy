// AnalogUtils: the raw-reading helpers of the sensors layer.  A reading is
// a uint32_t; the 12-bit form is a uint16_t.
module AnalogUtils {
  import ADCDomain

  /** adc_resolution_bits: the bits of a resolution, as ADCDomain counts them. */
  function AdcResolutionBits(r: ADCDomain.Resolution): (b: bv8)
    ensures b as nat == ADCDomain.ResolutionBits(r)
    ensures 8 <= b <= 16
  {
    match r
    case Bits16 => 16
    case Bits14 => 14
    case Bits12 => 12
    case Bits10 => 10
    case Bits8 => 8
  }

  /** adc_max_value: (1 << bits) - 1 in 32 bits, all ones from 32 bits up. */
  function AdcMaxValue(r: ADCDomain.Resolution): bv32
  {
    var bits := AdcResolutionBits(r);
    if bits >= 32 then 0xFFFF_FFFF else (1 << bits) - 1
  }

  /** adc_max_value agrees with the ADC's max_raw_for_resolution, which is
      2^bits - 1. */
  lemma AdcMaxValueIsMaxRaw(r: ADCDomain.Resolution)
    ensures AdcMaxValue(r) as nat == ADCDomain.MaxRawForResolution(r)
    ensures AdcMaxValue(r) as nat == ADCDomain.Pow2(ADCDomain.ResolutionBits(r)) - 1
  {
    ADCDomain.MaxRawIsAllOnes(r);
  }

  /** adc_raw_to_12bit: kept (masked) at 12 bits, shifted right by bits - 12
      above and cast to 16 bits, shifted left by 12 - bits below and masked. */
  function AdcRawTo12Bit(raw: bv32, r: ADCDomain.Resolution): bv16
  {
    var bits := AdcResolutionBits(r);
    if bits == 12 then (raw & 0x0FFF) as bv16
    else if bits > 12 then ((raw >> (bits - 12)) & 0xFFFF) as bv16
    else ((raw << (12 - bits)) & 0x0FFF) as bv16
  }

  /** A reading within the resolution's range gives at most 4095. */
  lemma RawTo12BitInRange(raw: bv32, r: ADCDomain.Resolution)
    requires raw <= AdcMaxValue(r)
    ensures AdcRawTo12Bit(raw, r) <= 0x0FFF
  {
  }

  /** At 12 bits an in-range reading is unchanged. */
  lemma RawTo12BitKeeps12(raw: bv32)
    requires raw <= 0x0FFF
    ensures AdcRawTo12Bit(raw, ADCDomain.Bits12) as bv32 == raw
  {
  }

  /** The conversion rescales: an in-range reading is divided by
      2^(bits - 12) above 12 bits and multiplied by 2^(12 - bits) below. */
  lemma RawTo12BitScales(raw: bv32, r: ADCDomain.Resolution)
    requires raw <= AdcMaxValue(r)
    ensures AdcRawTo12Bit(raw, r) as bv32 ==
      match r
      case Bits16 => raw / 16
      case Bits14 => raw / 4
      case Bits12 => raw
      case Bits10 => raw * 4
      case Bits8 => raw * 16
  {
    match r
    case Bits16 => DividesBy16(raw);
    case Bits14 => DividesBy4(raw);
    case Bits12 => RawTo12BitKeeps12(raw);
    case Bits10 => MultipliesBy4(raw);
    case Bits8 => MultipliesBy16(raw);
  }

  lemma DividesBy16(raw: bv32)
    requires raw <= 0xFFFF
    ensures AdcRawTo12Bit(raw, ADCDomain.Bits16) as bv32 == raw / 16
  {
  }

  lemma DividesBy4(raw: bv32)
    requires raw <= 0x3FFF
    ensures AdcRawTo12Bit(raw, ADCDomain.Bits14) as bv32 == raw / 4
  {
  }

  lemma MultipliesBy4(raw: bv32)
    requires raw <= 0x03FF
    ensures AdcRawTo12Bit(raw, ADCDomain.Bits10) as bv32 == raw * 4
  {
  }

  lemma MultipliesBy16(raw: bv32)
    requires raw <= 0x00FF
    ensures AdcRawTo12Bit(raw, ADCDomain.Bits8) as bv32 == raw * 16
  {
  }
}
