// TimerWrapper: what a declared timer is (32-bit, with break input, with
// complementary outputs, upcounting only, on APB1) and the register
// operations TimerWrapper performs on its TIM peripheral, the NVIC and the
// callback tables.  Register bits take the values of the mock HAL header.
module TimerWrapper {
  import TimerDomain
  import opened RegisterBits

  type U8 = TimerDomain.U8

  // ------------------------------------------------------------ classification

  /** is_32bit_instance. */
  predicate Is32Bit(req: nat)
  {
    req == 2 || req == 5 || req == 23 || req == 24 || req == TimerDomain.Any32bit
  }

  /** is_break_instance: the timers with a break input. */
  predicate IsBreak(req: nat)
  {
    req == 1 || req == 8 || req == 15 || req == 16 || req == 17
  }

  /** is_slave_instance. */
  predicate IsSlave(req: nat)
  {
    req == 1 || req == 2 || req == 3 || req == 4 || req == 5 || req == 8 || req == 12 || req == 15 ||
    req == 23 || req == 24
  }

  /** only_supports_upcounting. */
  predicate OnlyUpcounting(req: nat)
  {
    req == 6 || req == 7 || req == 12 || req == 13 || req == 14 || req == 15 || req == 16 || req == 17
  }

  /** is_on_APB1 as written: it leaves out TIM23 and TIM24. */
  predicate OnApb1AsWritten(req: nat)
  {
    req == 2 || req == 3 || req == 4 || req == 5 || req == 6 || req == 7 || req == 12 || req == 13 || req == 14
  }

  /** The RCC enable register of each timer, as the timer list gives it. */
  datatype RccEnable = Apb1Low | Apb1High | Apb2

  function RccBus(req: U8): RccEnable
    requires TimerDomain.IsTimer(req)
  {
    if req == 23 || req == 24 then Apb1High
    else if req == 1 || req == 8 || req == 15 || req == 16 || req == 17 then Apb2
    else Apb1Low
  }

  /** is_on_APB1 as intended: every timer whose clock is enabled in an
      APB1 register, TIM23 and TIM24 included. */
  predicate OnApb1(req: nat)
  {
    OnApb1AsWritten(req) || req == 23 || req == 24
  }

  /** The corrected predicate is exactly "enabled on APB1"; the written one
      differs from it on TIM23 and TIM24 only. */
  lemma OnApb1MatchesRcc(req: U8)
    requires TimerDomain.IsTimer(req)
    ensures OnApb1(req) <==> RccBus(req) != Apb2
    ensures OnApb1AsWritten(req) != OnApb1(req) <==> req == 23 || req == 24
  {
  }

  /** is_ccxn_instance: whether channel ch has a complementary output. */
  predicate IsCcxn(req: nat, ch: nat)
  {
    if req == 1 || req == 8 then ch == 1 || ch == 2 || ch == 3
    else if req == 15 || req == 16 || req == 17 then ch == 1
    else false
  }

  /** The 32-bit timers are the pool Any32bit requests draw from, and an
      accepted Any32bit request is served by a 32-bit timer. */
  lemma Is32BitIsThePool(reqs: seq<TimerDomain.Entry>, i: nat, n: nat)
    requires TimerDomain.BuildOk(reqs) && i < |reqs| && reqs[i].request == TimerDomain.Any32bit
    ensures Is32Bit(TimerDomain.TimerFor(reqs, i))
    ensures n != TimerDomain.Any32bit ==> (Is32Bit(n) <==> n in TimerDomain.Bits32Timers)
  {
    TimerDomain.AssignmentHonoursRequests(reqs, i);
  }

  /** A timer has complementary outputs on channels 1 to 4 exactly where
      the pin tables list a CHx_NEGATED pin for it. */
  lemma CcxnMatchesPinTables(req: U8, ch: nat)
    requires TimerDomain.IsTimer(req) && 1 <= ch <= 4
    ensures IsCcxn(req, ch) <==>
      exists k :: 0 <= k < |TimerDomain.TimPins(req)| && TimerDomain.TimPins(req)[k].use == ch + TimerDomain.NegatedFlag
  {
    var rows := TimerDomain.TimPins(req);
    if IsCcxn(req, ch) {
      var k := NegatedRow(req, ch);
      assert rows[k].use == ch + TimerDomain.NegatedFlag;
    } else {
      NoNegatedRow(req, ch);
    }
  }

  /** The row of a complementary output of a timer that has one. */
  function NegatedRow(req: U8, ch: nat): (k: nat)
    requires TimerDomain.IsTimer(req) && IsCcxn(req, ch)
    ensures k < |TimerDomain.TimPins(req)| && TimerDomain.TimPins(req)[k].use == ch + TimerDomain.NegatedFlag
  {
    match req
    case 1 => (if ch == 1 then 4 else if ch == 2 then 5 else 6)
    case 8 => (if ch == 1 then 1 else if ch == 2 then 7 else 8)
    case _ => 1
  }

  /** The other timers and channels have no complementary-output row. */
  lemma NoNegatedRow(req: U8, ch: nat)
    requires TimerDomain.IsTimer(req) && 1 <= ch <= 4 && !IsCcxn(req, ch)
    ensures forall k :: 0 <= k < |TimerDomain.TimPins(req)| ==> TimerDomain.TimPins(req)[k].use != ch + TimerDomain.NegatedFlag
  {
  }

  /** The classifications agree with each other: the timers that can count
      down are all slave instances, the 32-bit timers can count down, the
      break timers are APB2 timers, and complementary outputs exist only on
      break timers. */
  lemma ClassificationsAgree(req: U8, ch: nat)
    requires TimerDomain.IsTimer(req)
    ensures !OnlyUpcounting(req) ==> IsSlave(req)
    ensures Is32Bit(req) ==> !OnlyUpcounting(req) && OnApb1(req)
    ensures IsBreak(req) ==> !OnApb1(req)
    ensures IsCcxn(req, ch) ==> IsBreak(req)
  {
  }

  const TwoTo32: nat := 0x1_0000_0000

  /** get_clock_frequency: the timer's APB clock, doubled in a uint32 when
      that bus's prescaler is not 1 (pclk, divided and the result are in
      hertz). */
  function ClockFrequency(req: nat, pclk1: nat, pclk2: nat, div1: bool, div2: bool): (hz: nat)
    requires pclk1 < TwoTo32 && pclk2 < TwoTo32
    ensures hz < TwoTo32
    ensures OnApb1(req) && !div1 ==> hz == pclk1
    ensures !OnApb1(req) && !div2 ==> hz == pclk2
    ensures OnApb1(req) && div1 ==> hz == (2 * pclk1) % TwoTo32
    ensures !OnApb1(req) && div2 ==> hz == (2 * pclk2) % TwoTo32
  {
    if OnApb1(req) then (if div1 then (pclk1 * 2) % TwoTo32 else pclk1)
    else (if div2 then (pclk2 * 2) % TwoTo32 else pclk2)
  }

  /** get_clock_frequency as written, choosing the bus with is_on_APB1 as
      written. */
  function ClockFrequencyAsWritten(req: nat, pclk1: nat, pclk2: nat, div1: bool, div2: bool): (hz: nat)
    requires pclk1 < TwoTo32 && pclk2 < TwoTo32
    ensures hz < TwoTo32
    ensures !OnApb1AsWritten(req) && !div2 ==> hz == pclk2
  {
    if OnApb1AsWritten(req) then (if div1 then (pclk1 * 2) % TwoTo32 else pclk1)
    else (if div2 then (pclk2 * 2) % TwoTo32 else pclk2)
  }

  /** TIM23 with APB1 at 100 MHz and APB2 at 120 MHz, both undivided: the
      code reports the APB2 clock, the timer runs on APB1. */
  lemma ClockFrequencyAsWrittenMisreadsTim23()
    ensures ClockFrequencyAsWritten(23, 100000000, 120000000, false, false) == 120000000
    ensures ClockFrequency(23, 100000000, 120000000, false, false) == 100000000
  {
  }

  /** Below 2^31 Hz a prescaled bus gives the timer twice its clock; from
      2^31 Hz the doubling wraps and gives less than the bus clock. */
  lemma ClockDoubling(req: nat, pclk: nat)
    requires pclk < TwoTo32
    ensures pclk < TwoTo32 / 2 ==> ClockFrequency(req, pclk, pclk, true, true) == 2 * pclk
    ensures pclk >= TwoTo32 / 2 ==> ClockFrequency(req, pclk, pclk, true, true) < pclk
  {
  }

  // ------------------------------------------------------------ register bits

  const Cen: bv32 := 0x1
  const Udis: bv32 := 0x2
  const Opm: bv32 := 0x8
  const Dir: bv32 := 0x10
  const Cms0: bv32 := 0x20
  const Cms1: bv32 := 0x40
  const Cms: bv32 := 0x60
  const Uie: bv32 := 0x1
  const Bie: bv32 := 0x80
  const Uif: bv32 := 0x1

  // ------------------------------------------------------------ counting mode

  /** TimerDomain::CountingMode. */
  datatype CountingMode = Up | Down | CenterInterruptDown | CenterInterruptUp | CenterInterruptBoth

  /** CR1 after set_counting_mode: edge-aligned modes clear CMS and give DIR
      the direction; the centre-aligned modes write CMS as 01, 10 or 11. */
  function ApplyCountingMode(cr1: bv32, mode: CountingMode): (r: bv32)
    ensures r & !(Cms | Dir) == cr1 & !(Cms | Dir)
    ensures mode == Up ==> r & Cms == 0 && r & Dir == 0
    ensures mode == Down ==> r & Cms == 0 && r & Dir == Dir
    ensures mode == CenterInterruptDown ==> r & Cms == Cms0 && r & Dir == cr1 & Dir
    ensures mode == CenterInterruptUp ==> r & Cms == Cms1 && r & Dir == cr1 & Dir
    ensures mode == CenterInterruptBoth ==> r & Cms == Cms && r & Dir == cr1 & Dir
  {
    match mode
    case Up => ClearBits(ModifyReg(cr1, Cms, 0), Dir)
    case Down => SetBits(ModifyReg(cr1, Cms, 0), Dir)
    case CenterInterruptDown => ModifyReg(cr1, Cms, Cms0)
    case CenterInterruptUp => ModifyReg(cr1, Cms, Cms1)
    case CenterInterruptBoth => ModifyReg(cr1, Cms, Cms)
  }

  /** The counting mode CR1 selects. */
  function CountingModeOf(cr1: bv32): CountingMode
  {
    if cr1 & Cms == 0 then (if cr1 & Dir == 0 then Up else Down)
    else if cr1 & Cms == Cms0 then CenterInterruptDown
    else if cr1 & Cms == Cms1 then CenterInterruptUp
    else CenterInterruptBoth
  }

  /** The mode set is the mode read back, whatever CR1 held before. */
  lemma CountingModeRoundTrip(cr1: bv32, mode: CountingMode)
    ensures CountingModeOf(ApplyCountingMode(cr1, mode)) == mode
  {
  }

  // ------------------------------------------------------------ output compare

  /** A channel 1 to 6 of the output-compare configuration. */
  type OcChannel = c: nat | 1 <= c <= 6 witness 1

  /** TIM_OC_InitTypeDef: the mode (OCxM bits as for channel 1), the pulse,
      the polarities (CC1P, CC1NP) and idle states (OIS1, OIS1N). */
  datatype OcConfig = OcConfig(mode: bv32, pulse: bv32, polarity: bv32, nPolarity: bv32,
                               idleState: bv32, nIdleState: bv32)

  const OcModeField: bv32 := 0x70
  const CcsField: bv32 := 0x3
  const CcP: bv32 := 0x2
  const CcE: bv32 := 0x1
  const CcNE: bv32 := 0x4
  const CcNP: bv32 := 0x8
  const Ois: bv32 := 0x100
  const OisN: bv32 := 0x200

  /** The values the HAL accepts: each lies in the channel-1 field it
      names. */
  predicate ValidOcConfig(oc: OcConfig)
  {
    oc.mode & !OcModeField == 0 && oc.polarity & !CcP == 0 && oc.nPolarity & !CcNP == 0 &&
    oc.idleState & !Ois == 0 && oc.nIdleState & !OisN == 0
  }

  /** Where a channel's fields sit in its CCMR: the low byte for odd
      channels, the second byte for even ones. */
  function CcmrShift(ch: OcChannel): (n: bv32)
    ensures n < 32
  {
    if ch == 1 || ch == 3 || ch == 5 then 0 else 8
  }

  /** A channel-1 value moved to the channel's place in its CCMR. */
  function CcmrPlace(ch: OcChannel, x: bv32): bv32
  {
    x << CcmrShift(ch)
  }

  /** The CCxS field the code clears: channels 5 and 6 have none. */
  function CcsMask(ch: OcChannel): bv32
  {
    CcmrPlace(ch, CcsBits(ch))
  }

  /** The channel-1 CCxS bits a channel has. */
  function CcsBits(ch: OcChannel): bv32
  {
    if ch > 4 then 0 else CcsField
  }

  lemma CcsBitsApart(ch: OcChannel)
    ensures CcsBits(ch) & OcModeField == 0
  {
  }

  /** The mode and CCxS fields of a channel. */
  function CcmrFields(ch: OcChannel): bv32
  {
    CcmrPlace(ch, OcModeField) | CcsMask(ch)
  }

  // One field at a time: each fact of the CCMR update on its own.

  /** CCMRx after config_output_compare_channel, with each channel's mode
      in its own OCxM field. */
  function OcCcmr(ch: OcChannel, ccmr: bv32, mode: bv32): bv32
  {
    CcmrUpdate(ccmr, CcmrPlace(ch, OcModeField), CcsMask(ch), CcmrPlace(ch, mode))
  }

  /** The channel's OCxM field takes the mode. */
  lemma OcCcmrMode(ch: OcChannel, ccmr: bv32, mode: bv32)
    requires mode & !OcModeField == 0
    ensures OcCcmr(ch, ccmr, mode) & CcmrPlace(ch, OcModeField) == CcmrPlace(ch, mode)
  {
    var n := CcmrShift(ch);
    ShiftInside(mode, OcModeField, n);
    CcsBitsApart(ch);
    ShiftApart(CcsBits(ch), OcModeField, n);
    CcmrUpdateField(ccmr, CcmrPlace(ch, OcModeField), CcsMask(ch), CcmrPlace(ch, mode));
  }

  /** The channel's CCxS field ends cleared (output mode). */
  lemma OcCcmrCcs(ch: OcChannel, ccmr: bv32, mode: bv32)
    requires mode & !OcModeField == 0
    ensures OcCcmr(ch, ccmr, mode) & CcsMask(ch) == 0
  {
    var n := CcmrShift(ch);
    ShiftInside(mode, OcModeField, n);
    CcsBitsApart(ch);
    ShiftApart(CcsBits(ch), OcModeField, n);
    CcmrUpdateCcs(ccmr, CcmrPlace(ch, OcModeField), CcsMask(ch), CcmrPlace(ch, mode));
  }

  /** Every bit outside the channel's two fields keeps its value. */
  lemma OcCcmrRest(ch: OcChannel, ccmr: bv32, mode: bv32, keep: bv32)
    requires mode & !OcModeField == 0 && keep & CcmrFields(ch) == 0
    ensures OcCcmr(ch, ccmr, mode) & keep == ccmr & keep
  {
    var n := CcmrShift(ch);
    ShiftInside(mode, OcModeField, n);
    CcmrUpdateRest(ccmr, CcmrPlace(ch, OcModeField), CcsMask(ch), CcmrPlace(ch, mode), keep);
  }

  /** The channel's OCxM field takes the mode, its CCxS field is cleared
      and every bit outside those two fields keeps its value. */
  lemma OcCcmrSpec(ch: OcChannel, ccmr: bv32, mode: bv32, keep: bv32)
    requires mode & !OcModeField == 0 && keep & CcmrFields(ch) == 0
    ensures OcCcmr(ch, ccmr, mode) & CcmrPlace(ch, OcModeField) == CcmrPlace(ch, mode)
    ensures OcCcmr(ch, ccmr, mode) & CcsMask(ch) == 0
    ensures OcCcmr(ch, ccmr, mode) & keep == ccmr & keep
  {
    OcCcmrMode(ch, ccmr, mode);
    OcCcmrCcs(ch, ccmr, mode);
    OcCcmrRest(ch, ccmr, mode, keep);
  }

  /** CCMRx as written: channel 2 shifts the mode by 8, every other channel
      ORs it in unshifted, so channels 4 and 6 clear their own field and
      write into the odd channel's field. */
  function OcCcmrAsWritten(ch: OcChannel, ccmr: bv32, mode: bv32): bv32
  {
    CcmrUpdate(ccmr, CcmrPlace(ch, OcModeField), CcsMask(ch), if ch == 2 then mode << 8 else mode)
  }

  /** On channels 1, 2, 3 and 5 the code agrees with the corrected CCMR. */
  lemma OcCcmrAsWrittenRightOnOddAndTwo(ch: OcChannel, ccmr: bv32, mode: bv32)
    requires ch == 1 || ch == 2 || ch == 3 || ch == 5
    ensures OcCcmrAsWritten(ch, ccmr, mode) == OcCcmr(ch, ccmr, mode)
  {
    if ch == 2 {
      assert CcmrShift(ch) == 8;
    } else {
      assert CcmrShift(ch) == 0;
      ShiftZero(mode);
    }
  }

  /** Channel 3 in PWM mode 1 (0x60) and channel 4 then configured in PWM
      mode 2 (0x70): as written CCMR2 becomes 0x70, channel 3 in PWM mode 2
      and channel 4 frozen; corrected it is 0x7060. */
  lemma OcCcmrAsWrittenMissesChannel4()
    ensures OcCcmrAsWritten(4, 0x60, 0x70) == 0x70 && OcCcmr(4, 0x60, 0x70) == 0x7060
  {
    assert CcmrShift(4) == 8 && CcsMask(4) == 0x300;
  }

  /** Channel 6 fails the same way in CCMR3. */
  lemma OcCcmrAsWrittenMissesChannel6()
    ensures OcCcmrAsWritten(6, 0x60, 0x70) == 0x70 && OcCcmr(6, 0x60, 0x70) == 0x7060
  {
    assert CcmrShift(6) == 8 && CcsMask(6) == 0;
  }

  /** Where a channel's fields sit in CCER: 4(ch-1) bits up. */
  function CcerShift(ch: OcChannel): (n: bv32)
    ensures n < 32
  {
    match ch
    case 1 => 0
    case 2 => 4
    case 3 => 8
    case 4 => 12
    case 5 => 16
    case _ => 20
  }

  /** A channel-1 value moved to the channel's place in CCER. */
  function CcerPlace(ch: OcChannel, x: bv32): bv32
  {
    x << CcerShift(ch)
  }

  // One field at a time: each fact of the CCER update on its own.

  /** CCER after config_output_compare_channel: the copy read before the
      channel's enable bit was cleared gets the channel's polarity and, for
      a complementary output, its negated polarity with CCxNE cleared; it
      is written back last, so CCxE keeps its earlier value. */
  function OcCcer(ch: OcChannel, ccer: bv32, oc: OcConfig, ccxn: bool): bv32
  {
    CcerUpdate(ccer, CcerPlace(ch, CcP), CcerPlace(ch, CcNP), CcerPlace(ch, CcNE),
               CcerPlace(ch, oc.polarity), CcerPlace(ch, oc.nPolarity), ccxn)
  }

  /** The channel's polarity lands in CCxP. */
  lemma OcCcerPolarity(ch: OcChannel, ccer: bv32, oc: OcConfig, ccxn: bool)
    requires ValidOcConfig(oc)
    ensures OcCcer(ch, ccer, oc, ccxn) & CcerPlace(ch, CcP) == CcerPlace(ch, oc.polarity)
  {
    var n := CcerShift(ch);
    ShiftInside(oc.polarity, CcP, n);
    ShiftInside(oc.nPolarity, CcNP, n);
    ShiftApart(CcP, CcE, n);
    ShiftApart(CcNP, CcE, n);
    ShiftApart(CcNE, CcE, n);
    ShiftApart(CcNP, CcP, n);
    ShiftApart(CcNE, CcP, n);
    ShiftApart(CcNE, CcNP, n);
    CcerUpdatePolarity(ccer, CcerPlace(ch, CcP), CcerPlace(ch, CcE), CcerPlace(ch, CcNP), CcerPlace(ch, CcNE),
      CcerPlace(ch, oc.polarity), CcerPlace(ch, oc.nPolarity), ccxn);
  }

  /** CCxE keeps the value it had before the call. */
  lemma OcCcerEnable(ch: OcChannel, ccer: bv32, oc: OcConfig, ccxn: bool)
    requires ValidOcConfig(oc)
    ensures OcCcer(ch, ccer, oc, ccxn) & CcerPlace(ch, CcE) == ccer & CcerPlace(ch, CcE)
  {
    var n := CcerShift(ch);
    ShiftInside(oc.polarity, CcP, n);
    ShiftInside(oc.nPolarity, CcNP, n);
    ShiftApart(CcP, CcE, n);
    ShiftApart(CcNP, CcE, n);
    ShiftApart(CcNE, CcE, n);
    ShiftApart(CcNP, CcP, n);
    ShiftApart(CcNE, CcP, n);
    ShiftApart(CcNE, CcNP, n);
    CcerUpdateEnable(ccer, CcerPlace(ch, CcP), CcerPlace(ch, CcE), CcerPlace(ch, CcNP), CcerPlace(ch, CcNE),
      CcerPlace(ch, oc.polarity), CcerPlace(ch, oc.nPolarity), ccxn);
  }

  /** A complementary output gets its polarity in CCxNP. */
  lemma OcCcerNPolarity(ch: OcChannel, ccer: bv32, oc: OcConfig, ccxn: bool)
    requires ValidOcConfig(oc)
    ensures ccxn ==> OcCcer(ch, ccer, oc, ccxn) & CcerPlace(ch, CcNP) == CcerPlace(ch, oc.nPolarity)
  {
    var n := CcerShift(ch);
    ShiftInside(oc.polarity, CcP, n);
    ShiftInside(oc.nPolarity, CcNP, n);
    ShiftApart(CcP, CcE, n);
    ShiftApart(CcNP, CcE, n);
    ShiftApart(CcNE, CcE, n);
    ShiftApart(CcNP, CcP, n);
    ShiftApart(CcNE, CcP, n);
    ShiftApart(CcNE, CcNP, n);
    CcerUpdateNPolarity(ccer, CcerPlace(ch, CcP), CcerPlace(ch, CcE), CcerPlace(ch, CcNP), CcerPlace(ch, CcNE),
      CcerPlace(ch, oc.polarity), CcerPlace(ch, oc.nPolarity), ccxn);
  }

  /** A complementary output ends disabled (CCxNE clear). */
  lemma OcCcerNEnable(ch: OcChannel, ccer: bv32, oc: OcConfig, ccxn: bool)
    requires ValidOcConfig(oc)
    ensures ccxn ==> OcCcer(ch, ccer, oc, ccxn) & CcerPlace(ch, CcNE) == 0
  {
    var n := CcerShift(ch);
    ShiftInside(oc.polarity, CcP, n);
    ShiftInside(oc.nPolarity, CcNP, n);
    ShiftApart(CcP, CcE, n);
    ShiftApart(CcNP, CcE, n);
    ShiftApart(CcNE, CcE, n);
    ShiftApart(CcNP, CcP, n);
    ShiftApart(CcNE, CcP, n);
    ShiftApart(CcNE, CcNP, n);
    CcerUpdateNEnable(ccer, CcerPlace(ch, CcP), CcerPlace(ch, CcE), CcerPlace(ch, CcNP), CcerPlace(ch, CcNE),
      CcerPlace(ch, oc.polarity), CcerPlace(ch, oc.nPolarity), ccxn);
  }

  /** Without a complementary output nothing but CCxP changes. */
  lemma OcCcerRest(ch: OcChannel, ccer: bv32, oc: OcConfig, ccxn: bool)
    requires ValidOcConfig(oc)
    ensures !ccxn ==> OcCcer(ch, ccer, oc, ccxn) & !CcerPlace(ch, CcP) == ccer & !CcerPlace(ch, CcP)
  {
    var n := CcerShift(ch);
    ShiftInside(oc.polarity, CcP, n);
    ShiftInside(oc.nPolarity, CcNP, n);
    ShiftApart(CcP, CcE, n);
    ShiftApart(CcNP, CcE, n);
    ShiftApart(CcNE, CcE, n);
    ShiftApart(CcNP, CcP, n);
    ShiftApart(CcNE, CcP, n);
    ShiftApart(CcNE, CcNP, n);
    CcerUpdateRest(ccer, CcerPlace(ch, CcP), CcerPlace(ch, CcE), CcerPlace(ch, CcNP), CcerPlace(ch, CcNE),
      CcerPlace(ch, oc.polarity), CcerPlace(ch, oc.nPolarity), ccxn);
  }

  /** The channel's polarity lands in CCxP, its enable bit keeps its value,
      and a complementary output gets its polarity in CCxNP with CCxNE
      cleared; without one, nothing but CCxP changes. */
  lemma OcCcerSpec(ch: OcChannel, ccer: bv32, oc: OcConfig, ccxn: bool)
    requires ValidOcConfig(oc)
    ensures OcCcer(ch, ccer, oc, ccxn) & CcerPlace(ch, CcP) == CcerPlace(ch, oc.polarity)
    ensures OcCcer(ch, ccer, oc, ccxn) & CcerPlace(ch, CcE) == ccer & CcerPlace(ch, CcE)
    ensures ccxn ==> OcCcer(ch, ccer, oc, ccxn) & CcerPlace(ch, CcNP) == CcerPlace(ch, oc.nPolarity)
    ensures ccxn ==> OcCcer(ch, ccer, oc, ccxn) & CcerPlace(ch, CcNE) == 0
    ensures !ccxn ==> OcCcer(ch, ccer, oc, ccxn) & !CcerPlace(ch, CcP) == ccer & !CcerPlace(ch, CcP)
  {
    OcCcerPolarity(ch, ccer, oc, ccxn);
    OcCcerEnable(ch, ccer, oc, ccxn);
    OcCcerNPolarity(ch, ccer, oc, ccxn);
    OcCcerNEnable(ch, ccer, oc, ccxn);
    OcCcerRest(ch, ccer, oc, ccxn);
  }

  /** Where a channel's idle-state bits sit in CR2: 2(ch-1) bits up. */
  function Cr2Shift(ch: OcChannel): (n: bv32)
    ensures n < 32
  {
    match ch
    case 1 => 0
    case 2 => 2
    case 3 => 4
    case 4 => 6
    case 5 => 8
    case _ => 10
  }

  /** A channel-1 value moved to the channel's place in CR2. */
  function Cr2Place(ch: OcChannel, x: bv32): bv32
  {
    x << Cr2Shift(ch)
  }

  // One field at a time: each fact of the CR2 update on its own.

  /** CR2 after config_output_compare_channel: on a break timer the
      channel's OISx takes the idle state, and on channels 1 to 3 OISxN
      the negated idle state; other timers keep CR2. */
  function OcCr2(ch: OcChannel, cr2: bv32, oc: OcConfig, isBreak: bool): bv32
  {
    if !isBreak then cr2
    else Cr2Update(cr2, Cr2Place(ch, Ois), Cr2Place(ch, OisN), Cr2Place(ch, oc.idleState),
                   Cr2Place(ch, oc.nIdleState), ch <= 3)
  }

  /** OISx takes the idle state. */
  lemma OcCr2Idle(ch: OcChannel, cr2: bv32, oc: OcConfig, isBreak: bool)
    requires ValidOcConfig(oc) && isBreak
    ensures OcCr2(ch, cr2, oc, isBreak) & Cr2Place(ch, Ois) == Cr2Place(ch, oc.idleState)
  {
    var n := Cr2Shift(ch);
    ShiftInside(oc.idleState, Ois, n);
    ShiftInside(oc.nIdleState, OisN, n);
    ShiftApart(Ois, OisN, n);
    ShiftApart(OisN, Ois, n);
    Cr2UpdateIdle(cr2, Cr2Place(ch, Ois), Cr2Place(ch, OisN), Cr2Place(ch, oc.idleState),
      Cr2Place(ch, oc.nIdleState), ch <= 3);
  }

  /** On channels 1 to 3 OISxN takes the negated idle state. */
  lemma OcCr2NIdle(ch: OcChannel, cr2: bv32, oc: OcConfig, isBreak: bool)
    requires ValidOcConfig(oc) && isBreak
    ensures ch <= 3 ==> OcCr2(ch, cr2, oc, isBreak) & Cr2Place(ch, OisN) == Cr2Place(ch, oc.nIdleState)
  {
    var n := Cr2Shift(ch);
    ShiftInside(oc.idleState, Ois, n);
    ShiftInside(oc.nIdleState, OisN, n);
    ShiftApart(Ois, OisN, n);
    ShiftApart(OisN, Ois, n);
    Cr2UpdateNIdle(cr2, Cr2Place(ch, Ois), Cr2Place(ch, OisN), Cr2Place(ch, oc.idleState),
      Cr2Place(ch, oc.nIdleState), ch <= 3);
  }

  /** On channels 4 to 6 nothing but OISx changes. */
  lemma OcCr2Rest(ch: OcChannel, cr2: bv32, oc: OcConfig, isBreak: bool)
    requires ValidOcConfig(oc) && isBreak
    ensures ch > 3 ==> OcCr2(ch, cr2, oc, isBreak) & !Cr2Place(ch, Ois) == cr2 & !Cr2Place(ch, Ois)
  {
    var n := Cr2Shift(ch);
    ShiftInside(oc.idleState, Ois, n);
    ShiftInside(oc.nIdleState, OisN, n);
    ShiftApart(Ois, OisN, n);
    ShiftApart(OisN, Ois, n);
    Cr2UpdateRestOne(cr2, Cr2Place(ch, Ois), Cr2Place(ch, OisN), Cr2Place(ch, oc.idleState),
      Cr2Place(ch, oc.nIdleState), ch <= 3);
  }

  /** On a break timer OISx takes the idle state and, on channels 1 to 3,
      OISxN the negated one; on channels 4 to 6 nothing else changes. */
  lemma OcCr2Spec(ch: OcChannel, cr2: bv32, oc: OcConfig, isBreak: bool)
    requires ValidOcConfig(oc) && isBreak
    ensures OcCr2(ch, cr2, oc, isBreak) & Cr2Place(ch, Ois) == Cr2Place(ch, oc.idleState)
    ensures ch <= 3 ==> OcCr2(ch, cr2, oc, isBreak) & Cr2Place(ch, OisN) == Cr2Place(ch, oc.nIdleState)
    ensures ch > 3 ==> OcCr2(ch, cr2, oc, isBreak) & !Cr2Place(ch, Ois) == cr2 & !Cr2Place(ch, Ois)
  {
    OcCr2Idle(ch, cr2, oc, isBreak);
    OcCr2NIdle(ch, cr2, oc, isBreak);
    OcCr2Rest(ch, cr2, oc, isBreak);
  }

  /** The output-compare preload bit of a channel in its CCMR. */
  function PreloadBit(ch: OcChannel): bv32
  {
    if ch % 2 == 1 then 0x8 else 0x800
  }

  /** The CCMR, CCER and CR2 copies config_output_compare_channel builds
      before writing any of them back. */
  method OutputCompareCopies(ch: OcChannel, ccmr: bv32, ccer: bv32, cr2: bv32, oc: OcConfig, ccxn: bool, isBreak: bool)
    returns (ccmr': bv32, ccer': bv32, cr2': bv32)
    ensures ccmr' == OcCcmr(ch, ccmr, oc.mode)
    ensures ccer' == OcCcer(ch, ccer, oc, ccxn)
    ensures cr2' == OcCr2(ch, cr2, oc, isBreak)
  {
    ccmr' := OcCcmr(ch, ccmr, oc.mode);
    ccer' := OcCcer(ch, ccer, oc, ccxn);
    cr2' := OcCr2(ch, cr2, oc, isBreak);
  }

  // ------------------------------------------------------------ interrupts

  /** timer_irqn: the interrupt line of each slot of the handle tables. */
  const TimerIrqn: seq<nat> := [28, 29, 30, 50, 71, 72, 43, 44, 45, 68, 69, 70, 54, 55, 25, 44]

  /** Two slots share an interrupt line only for TIM13 (slot 7) and TIM8
      (slot 15), both on TIM8_UP_TIM13_IRQn. */
  lemma IrqnSharedOnlyByTim13AndTim8(i: nat, j: nat)
    requires i < j < |TimerIrqn|
    ensures TimerIrqn[i] == TimerIrqn[j] <==> i == 7 && j == 15
  {
  }

  /** The slot of every timer has the timer's interrupt: TIM1 gets
      TIM1_UP_IRQn (25) and TIM8 the line it shares with TIM13 (44). */
  lemma IrqnOfTimers()
    ensures TimerIrqn[TimerDomain.IdxMap(1)] == 25 && TimerIrqn[TimerDomain.IdxMap(8)] == 44
    ensures TimerIrqn[TimerDomain.IdxMap(13)] == 44 && TimerIrqn[TimerDomain.IdxMap(2)] == 28
  {
  }

  /** The NVIC's enabled interrupt lines. */
  class Nvic {
    var enabled: set<nat>

    constructor ()
      ensures enabled == {}
    {
      enabled := {};
    }
  }

  /** TimerDomain::callbacks and callback_data, shared by every timer; a
      callback and its data are opaque identifiers here. */
  class CallbackTable {
    var callbacks: seq<nat>
    var data: seq<nat>

    ghost predicate Valid()
      reads this
    {
      |callbacks| == TimerDomain.MaxInstances && |data| == TimerDomain.MaxInstances
    }

    constructor ()
      ensures Valid() && forall i :: 0 <= i < |callbacks| ==> callbacks[i] == 0 && data[i] == 0
    {
      callbacks := seq(TimerDomain.MaxInstances, _ => 0);
      data := seq(TimerDomain.MaxInstances, _ => 0);
    }
  }

  /** The TIM_TypeDef registers TimerWrapper touches. */
  class Registers {
    var cr1: bv32
    var cr2: bv32
    var dier: bv32
    var sr: bv32
    var psc: bv32
    var arr: bv32
    var ccmr1: bv32
    var ccmr2: bv32
    var ccmr3: bv32
    var ccer: bv32
    /** CCR1 .. CCR6. */
    var ccr: seq<bv32>

    ghost predicate Valid()
      reads this
    {
      |ccr| == 6
    }

    /** The registers after reset. */
    constructor ()
      ensures Valid() && cr1 == 0 && cr2 == 0 && dier == 0 && sr == 0 && psc == 0 && arr == 0
      ensures ccmr1 == 0 && ccmr2 == 0 && ccmr3 == 0 && ccer == 0 && ccr == [0, 0, 0, 0, 0, 0]
    {
      cr1, cr2, dier, sr, psc, arr := 0, 0, 0, 0, 0, 0;
      ccmr1, ccmr2, ccmr3, ccer := 0, 0, 0, 0;
      ccr := [0, 0, 0, 0, 0, 0];
    }

    /** The CCMR holding a channel: CCMR1 for 1 and 2, CCMR2 for 3 and 4,
        CCMR3 for 5 and 6. */
    function Ccmr(ch: OcChannel): bv32
      reads this
    {
      if ch <= 2 then ccmr1 else if ch <= 4 then ccmr2 else ccmr3
    }

    /** Clears the channel's CCxE. */
    method DisableChannel(ch: OcChannel)
      modifies this`ccer
      ensures ccer == ClearBits(old(ccer), CcerPlace(ch, CcE))
    {
      ccer := ClearBits(ccer, CcerPlace(ch, CcE));
    }

    /** Writes back the register copies and the pulse, CCER last. */
    method WriteOutputCompare(ch: OcChannel, ccmrValue: bv32, ccerValue: bv32, cr2Value: bv32, pulse: bv32)
      requires Valid()
      modifies this`cr2, this`ccmr1, this`ccmr2, this`ccmr3, this`ccr, this`ccer
      ensures cr2 == cr2Value && Ccmr(ch) == ccmrValue && ccer == ccerValue
      ensures ch > 2 ==> ccmr1 == old(ccmr1)
      ensures (ch <= 2 || ch > 4) ==> ccmr2 == old(ccmr2)
      ensures ch <= 4 ==> ccmr3 == old(ccmr3)
      ensures ccr == old(ccr)[ch - 1 := pulse]
    {
      cr2 := cr2Value;
      SetCcmr(ch, ccmrValue);
      ccr := ccr[ch - 1 := pulse];
      ccer := ccerValue;
    }

    /** Writes the CCMR holding a channel. */
    method SetCcmr(ch: OcChannel, value: bv32)
      modifies this`ccmr1, this`ccmr2, this`ccmr3
      ensures Ccmr(ch) == value
      ensures ch > 2 ==> ccmr1 == old(ccmr1)
      ensures (ch <= 2 || ch > 4) ==> ccmr2 == old(ccmr2)
      ensures ch <= 4 ==> ccmr3 == old(ccmr3)
    {
      if ch <= 2 {
        ccmr1 := value;
      } else if ch <= 4 {
        ccmr2 := value;
      } else {
        ccmr3 := value;
      }
    }
  }

  /** TimerWrapper: a declared timer's request, its instance's registers
      and slot, and the shared NVIC and callback tables. */
  class Wrapper {
    const request: U8
    const timerIdx: nat
    const regs: Registers
    const nvic: Nvic
    const table: CallbackTable

    ghost predicate Valid()
      reads this, regs, table
    {
      timerIdx < TimerDomain.MaxInstances && regs.Valid() && table.Valid()
    }

    constructor (request: U8, timerIdx: nat, regs: Registers, nvic: Nvic, table: CallbackTable)
      requires timerIdx < TimerDomain.MaxInstances && regs.Valid() && table.Valid()
      ensures Valid() && this.request == request && this.timerIdx == timerIdx
      ensures this.regs == regs && this.nvic == nvic && this.table == table
    {
      this.request, this.timerIdx, this.regs, this.nvic, this.table := request, timerIdx, regs, nvic, table;
    }

    /** counter_enable: sets CEN. */
    method CounterEnable()
      modifies regs`cr1
      ensures regs.cr1 == SetBits(old(regs.cr1), Cen)
    {
      regs.cr1 := SetBits(regs.cr1, Cen);
    }

    /** counter_disable: clears CEN. */
    method CounterDisable()
      modifies regs`cr1
      ensures regs.cr1 == ClearBits(old(regs.cr1), Cen)
    {
      regs.cr1 := ClearBits(regs.cr1, Cen);
    }

    /** clear_update_interrupt_flag: clears UIF. */
    method ClearUpdateInterruptFlag()
      modifies regs`sr
      ensures regs.sr == ClearBits(old(regs.sr), Uif)
    {
      regs.sr := ClearBits(regs.sr, Uif);
    }

    /** enable_update_interrupt: sets UIE. */
    method EnableUpdateInterrupt()
      modifies regs`dier
      ensures regs.dier == SetBits(old(regs.dier), Uie)
    {
      regs.dier := SetBits(regs.dier, Uie);
    }

    /** disable_update_interrupt: clears UIE. */
    method DisableUpdateInterrupt()
      modifies regs`dier
      ensures regs.dier == ClearBits(old(regs.dier), Uie)
    {
      regs.dier := ClearBits(regs.dier, Uie);
    }

    /** enable_nvic: enables the slot's interrupt line. */
    method EnableNvic()
      requires Valid()
      modifies nvic
      ensures nvic.enabled == old(nvic.enabled) + {TimerIrqn[timerIdx]}
    {
      nvic.enabled := nvic.enabled + {TimerIrqn[timerIdx]};
    }

    /** disable_nvic: disables the slot's interrupt line. */
    method DisableNvic()
      requires Valid()
      modifies nvic
      ensures nvic.enabled == old(nvic.enabled) - {TimerIrqn[timerIdx]}
    {
      nvic.enabled := nvic.enabled - {TimerIrqn[timerIdx]};
    }

    /** enable_update_event: clears UDIS. */
    method EnableUpdateEvent()
      modifies regs`cr1
      ensures regs.cr1 == ClearBits(old(regs.cr1), Udis)
    {
      regs.cr1 := ClearBits(regs.cr1, Udis);
    }

    /** disable_update_event: sets UDIS. */
    method DisableUpdateEvent()
      modifies regs`cr1
      ensures regs.cr1 == SetBits(old(regs.cr1), Udis)
    {
      regs.cr1 := SetBits(regs.cr1, Udis);
    }

    /** break_interrupt_enable: sets BIE, on TIM1 and TIM8 only. */
    method BreakInterruptEnable()
      requires request == 1 || request == 8
      modifies regs`dier
      ensures regs.dier == SetBits(old(regs.dier), Bie)
    {
      regs.dier := SetBits(regs.dier, Bie);
    }

    /** break_interrupt_disable: clears BIE, on TIM1 and TIM8 only. */
    method BreakInterruptDisable()
      requires request == 1 || request == 8
      modifies regs`dier
      ensures regs.dier == ClearBits(old(regs.dier), Bie)
    {
      regs.dier := ClearBits(regs.dier, Bie);
    }

    /** set_one_pulse_mode: sets OPM. */
    method SetOnePulseMode()
      modifies regs`cr1
      ensures regs.cr1 == SetBits(old(regs.cr1), Opm)
    {
      regs.cr1 := SetBits(regs.cr1, Opm);
    }

    /** set_multi_interrupt_mode: clears OPM. */
    method SetMultiInterruptMode()
      modifies regs`cr1
      ensures regs.cr1 == ClearBits(old(regs.cr1), Opm)
    {
      regs.cr1 := ClearBits(regs.cr1, Opm);
    }

    /** set_prescaler: a uint16_t into PSC. */
    method SetPrescaler(psc: bv16)
      modifies regs`psc
      ensures regs.psc == psc as bv32
    {
      regs.psc := psc as bv32;
    }

    /** get_prescaler: PSC read as a uint16_t. */
    method GetPrescaler() returns (psc: bv16)
      ensures psc as bv32 == regs.psc & 0xFFFF
    {
      psc := (regs.psc & 0xFFFF) as bv16;
    }

    /** get_period: ARR. */
    method GetPeriod() returns (period: bv32)
      ensures period == regs.arr
    {
      period := regs.arr;
    }

    /** configure16bit: the period into ARR, the callback and its data
        into the timer's slot, then the counter enabled. */
    method Configure16Bit(callback: nat, data: nat, period: bv16)
      requires Valid()
      modifies regs`arr, regs`cr1, table
      ensures regs.arr == period as bv32 && regs.cr1 == SetBits(old(regs.cr1), Cen)
      ensures table.callbacks == old(table.callbacks)[timerIdx := callback]
      ensures table.data == old(table.data)[timerIdx := data]
    {
      regs.arr := period as bv32;
      table.callbacks := table.callbacks[timerIdx := callback];
      table.data := table.data[timerIdx := data];
      CounterEnable();
    }

    /** configure32bit: as configure16bit with a 32-bit period, on the
        32-bit timers only. */
    method Configure32Bit(callback: nat, data: nat, period: bv32)
      requires Valid() && Is32Bit(request)
      modifies regs`arr, regs`cr1, table
      ensures regs.arr == period && regs.cr1 == SetBits(old(regs.cr1), Cen)
      ensures table.callbacks == old(table.callbacks)[timerIdx := callback]
      ensures table.data == old(table.data)[timerIdx := data]
    {
      regs.arr := period;
      table.callbacks := table.callbacks[timerIdx := callback];
      table.data := table.data[timerIdx := data];
      CounterEnable();
    }

    /** set_counting_mode, on the timers that can count down. */
    method SetCountingMode(mode: CountingMode)
      requires !OnlyUpcounting(request)
      modifies regs`cr1
      ensures regs.cr1 == ApplyCountingMode(old(regs.cr1), mode)
      ensures CountingModeOf(regs.cr1) == mode
    {
      match mode {
        case Up =>
          regs.cr1 := ModifyReg(regs.cr1, Cms, 0);
          regs.cr1 := ClearBits(regs.cr1, Dir);
        case Down =>
          regs.cr1 := ModifyReg(regs.cr1, Cms, 0);
          regs.cr1 := SetBits(regs.cr1, Dir);
        case CenterInterruptDown =>
          regs.cr1 := ModifyReg(regs.cr1, Cms, Cms0);
        case CenterInterruptUp =>
          regs.cr1 := ModifyReg(regs.cr1, Cms, Cms1);
        case CenterInterruptBoth =>
          regs.cr1 := ModifyReg(regs.cr1, Cms, Cms0 | Cms1);
      }
      CountingModeRoundTrip(old(regs.cr1), mode);
    }

    /** config_output_compare_channel, with the mode of channels 4 and 6
        placed in their own field: CCER's enable bit for the channel is
        cleared, then CR2, the channel's CCMR, its CCR and CCER are written
        from the copies read at the start. */
    method ConfigOutputCompareChannel(ch: OcChannel, oc: OcConfig)
      requires Valid() && ValidOcConfig(oc)
      modifies regs`cr2, regs`ccmr1, regs`ccmr2, regs`ccmr3, regs`ccr, regs`ccer
      ensures regs.cr2 == OcCr2(ch, old(regs.cr2), oc, IsBreak(request))
      ensures regs.Ccmr(ch) == OcCcmr(ch, old(regs.Ccmr(ch)), oc.mode)
      ensures ch > 2 ==> regs.ccmr1 == old(regs.ccmr1)
      ensures (ch <= 2 || ch > 4) ==> regs.ccmr2 == old(regs.ccmr2)
      ensures ch <= 4 ==> regs.ccmr3 == old(regs.ccmr3)
      ensures regs.ccr == old(regs.ccr)[ch - 1 := oc.pulse]
      ensures regs.ccer == OcCcer(ch, old(regs.ccer), oc, IsCcxn(request, ch))
    {
      var tmpccmr, tmpccer, tmpcr2 :=
        OutputCompareCopies(ch, regs.Ccmr(ch), regs.ccer, regs.cr2, oc, IsCcxn(request, ch), IsBreak(request));
      regs.DisableChannel(ch);
      regs.WriteOutputCompare(ch, tmpccmr, tmpccer, tmpcr2, oc.pulse);
    }

    /** set_output_compare_preload_enable: sets the channel's OCxPE. */
    method SetOutputComparePreloadEnable(ch: OcChannel)
      modifies regs`ccmr1, regs`ccmr2, regs`ccmr3
      ensures regs.Ccmr(ch) == SetBits(old(regs.Ccmr(ch)), PreloadBit(ch))
      ensures ch > 2 ==> regs.ccmr1 == old(regs.ccmr1)
      ensures (ch <= 2 || ch > 4) ==> regs.ccmr2 == old(regs.ccmr2)
      ensures ch <= 4 ==> regs.ccmr3 == old(regs.ccmr3)
    {
      regs.SetCcmr(ch, SetBits(regs.Ccmr(ch), PreloadBit(ch)));
    }

    /** set_capture_compare: a uint16_t into the channel's CCR. */
    method SetCaptureCompare(ch: OcChannel, value: bv16)
      requires Valid()
      modifies regs`ccr
      ensures regs.ccr == old(regs.ccr)[ch - 1 := value as bv32]
    {
      regs.ccr := regs.ccr[ch - 1 := value as bv32];
    }
  }

  /** Enabling and then disabling one timer's interrupt line also turns
      off the line another timer shares: TIM13 and TIM8 share one. */
  lemma SharedLineDisablesBoth(enabled: set<nat>)
    ensures var line := TimerIrqn[TimerDomain.IdxMap(13)];
      line == TimerIrqn[TimerDomain.IdxMap(8)] && TimerIrqn[TimerDomain.IdxMap(8)] !in (enabled + {line}) - {line}
  {
  }
}
