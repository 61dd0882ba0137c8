// TimerDomain: timer requests, the index map from timer numbers to the
// sixteen timer slots, the alternate-function tables and their lookup, the
// GPIO requests a timer's pins make, and the build step that gives every
// request a timer.
module TimerDomain {
  import opened Wrappers
  import GPIODomain

  /** A uint8_t. */
  type U8 = n: nat | n < 0x100

  // TimerRequest: a timer number, or one of the two wildcards.
  const AnyGeneralPurpose: U8 := 0
  const Any32bit: U8 := 0xFF

  /** There are 16 timers. */
  const MaxInstances: nat := 16

  /** idxmap's entry for a number that names no timer (-1 as a uint8_t). */
  const NoIndex: U8 := 0xFF

  /** The timer numbers the part has. */
  predicate IsTimer(n: nat)
  {
    1 <= n <= 8 || 12 <= n <= 17 || n == 23 || n == 24
  }

  /** create_timer_idxmap: the slot of each timer number in the handle
      tables, and 0xFF for the numbers without a timer. */
  function IdxMap(n: nat): U8
  {
    match n
    case 2 => 0
    case 3 => 1
    case 4 => 2
    case 5 => 3
    case 23 => 4
    case 24 => 5
    case 12 => 6
    case 13 => 7
    case 14 => 8
    case 15 => 9
    case 16 => 10
    case 17 => 11
    case 6 => 12
    case 7 => 13
    case 1 => 14
    case 8 => 15
    case _ => NoIndex
  }

  /** The timers of hal_handles and cmsis_timers, slot by slot. */
  const SlotTimers: seq<nat> := [2, 3, 4, 5, 23, 24, 12, 13, 14, 15, 16, 17, 6, 7, 1, 8]

  /** idxmap and the handle tables agree: idxmap is a bijection from the 16
      timer numbers onto the slots 0..15, inverse to the tables' order, and
      sends every other number below 25 to 0xFF. */
  lemma IdxMapMatchesSlots()
    ensures forall k :: 0 <= k < 16 ==> IsTimer(SlotTimers[k]) && IdxMap(SlotTimers[k]) == k
    ensures forall n :: 0 <= n < 25 && IsTimer(n) ==> IdxMap(n) < 16 && SlotTimers[IdxMap(n)] == n
    ensures forall n :: 0 <= n < 25 && !IsTimer(n) ==> IdxMap(n) == NoIndex
  {
  }

  /** Distinct timers get distinct slots. */
  lemma IdxMapInjective(m: nat, n: nat)
    requires m < 25 && n < 25 && IsTimer(m) && IsTimer(n) && m != n
    ensures IdxMap(m) != IdxMap(n)
  {
    IdxMapMatchesSlots();
  }

  // ---------------------------------------------------------------------
  // Pins, their alternate functions and GPIO requests

  /** The use a timer pin is declared for. */
  datatype TimerAF = NoneAF | Pwm | Encoder | InputCapture | BreakInput | BreakInputCompare

  /** CHANNEL_1 .. CHANNEL_6, CHANNEL_NEGATED_FLAG (8) and the negated
      channels 9 .. 11, by their values. */
  type Channel = c: nat | 1 <= c <= 11 && c != 7 witness 1

  const NegatedFlag: nat := 8

  datatype TimerPin = TimerPin(af: TimerAF, pin: GPIODomain.Pin, channel: Channel)

  /** get_operation_mode: PWM and encoder pins are alternate push-pull, the
      capture and break pins open-drain outputs, an unused pin an input. */
  function OperationModeOf(af: TimerAF): (m: GPIODomain.OperationMode)
    ensures GPIODomain.IsAlternate(m) <==> af == Pwm || af == Encoder
    ensures m == GPIODomain.Input <==> af == NoneAF
  {
    match af
    case NoneAF => GPIODomain.Input
    case Pwm => GPIODomain.AltPushPull
    case Encoder => GPIODomain.AltPushPull
    case InputCapture => GPIODomain.OutputOpenDrain
    case BreakInput => GPIODomain.OutputOpenDrain
    case BreakInputCompare => GPIODomain.OutputOpenDrain
  }

  /** get_pull: encoder and input-capture pins pull up, no other pin
      pulls. */
  function PullOf(af: TimerAF): (p: GPIODomain.Pull)
    ensures p == GPIODomain.Up <==> af == Encoder || af == InputCapture
    ensures p != GPIODomain.Down
  {
    match af
    case NoneAF => GPIODomain.NoPull
    case Pwm => GPIODomain.NoPull
    case Encoder => GPIODomain.Up
    case InputCapture => GPIODomain.Up
    case BreakInput => GPIODomain.NoPull
    case BreakInputCompare => GPIODomain.NoPull
  }

  /** get_speed: every timer pin is a low-speed pin. */
  function SpeedOf(af: TimerAF): (s: GPIODomain.Speed)
    ensures s == GPIODomain.Low
  {
    match af
    case NoneAF => GPIODomain.Low
    case Pwm => GPIODomain.Low
    case Encoder => GPIODomain.Low
    case InputCapture => GPIODomain.Low
    case BreakInput => GPIODomain.Low
    case BreakInputCompare => GPIODomain.Low
  }

  // TimerAF_Use: what a table row's pin does, by the enum's values.
  const Ch1: nat := 1
  const Ch2: nat := 2
  const Ch3: nat := 3
  const Ch4: nat := 4
  const Ch1N: nat := 9
  const Ch2N: nat := 10
  const Ch3N: nat := 11
  const Ch4N: nat := 12
  const Etr: nat := 13
  const Bkin1: nat := 14
  const Bkin2: nat := 15
  const BkinComp1: nat := 16
  const BkinComp2: nat := 17

  /** A row of a timer's table: a pin (port and GPIO_PIN_x mask), the
      alternate function that routes it to the timer, and its use. */
  datatype PossiblePin = Row(port: GPIODomain.Port, mask: bv32, af: GPIODomain.AlternateFunction, use: nat)

  /** TIM1: 31 rows. */
  const Tim1Pins: seq<PossiblePin> := [
    Row(GPIODomain.E, 0x0040, GPIODomain.AF(1), Bkin2), Row(GPIODomain.E, 0x0040, GPIODomain.AF(12), BkinComp2),
    Row(GPIODomain.A, 0x0040, GPIODomain.AF(1), Bkin1), Row(GPIODomain.A, 0x0040, GPIODomain.AF(11), BkinComp1),
    Row(GPIODomain.A, 0x0080, GPIODomain.AF(1), Ch1N), Row(GPIODomain.B, 0x0001, GPIODomain.AF(1), Ch2N),
    Row(GPIODomain.B, 0x0002, GPIODomain.AF(1), Ch3N), Row(GPIODomain.E, 0x0080, GPIODomain.AF(1), Etr),
    Row(GPIODomain.E, 0x0100, GPIODomain.AF(1), Ch1N), Row(GPIODomain.E, 0x0200, GPIODomain.AF(1), Ch1),
    Row(GPIODomain.E, 0x0400, GPIODomain.AF(1), Ch2N), Row(GPIODomain.E, 0x0800, GPIODomain.AF(1), Ch2),
    Row(GPIODomain.E, 0x1000, GPIODomain.AF(1), Ch3N), Row(GPIODomain.E, 0x2000, GPIODomain.AF(1), Ch3),
    Row(GPIODomain.E, 0x4000, GPIODomain.AF(1), Ch4), Row(GPIODomain.E, 0x8000, GPIODomain.AF(1), Bkin1),
    Row(GPIODomain.E, 0x8000, GPIODomain.AF(13), BkinComp1), Row(GPIODomain.B, 0x1000, GPIODomain.AF(1), Bkin1),
    Row(GPIODomain.B, 0x1000, GPIODomain.AF(13), BkinComp1), Row(GPIODomain.B, 0x2000, GPIODomain.AF(1), Ch1N),
    Row(GPIODomain.B, 0x4000, GPIODomain.AF(1), Ch2N), Row(GPIODomain.B, 0x8000, GPIODomain.AF(1), Ch3N),
    Row(GPIODomain.G, 0x0010, GPIODomain.AF(1), Bkin2), Row(GPIODomain.G, 0x0010, GPIODomain.AF(11), BkinComp2),
    Row(GPIODomain.G, 0x0020, GPIODomain.AF(1), Etr), Row(GPIODomain.A, 0x0100, GPIODomain.AF(1), Ch1),
    Row(GPIODomain.A, 0x0200, GPIODomain.AF(1), Ch2), Row(GPIODomain.A, 0x0400, GPIODomain.AF(1), Ch3),
    Row(GPIODomain.A, 0x0800, GPIODomain.AF(1), Ch4), Row(GPIODomain.A, 0x1000, GPIODomain.AF(1), Etr),
    Row(GPIODomain.A, 0x1000, GPIODomain.AF(12), Bkin2)]

  /** TIM2: 12 rows. */
  const Tim2Pins: seq<PossiblePin> := [
    Row(GPIODomain.A, 0x0001, GPIODomain.AF(1), Ch1), Row(GPIODomain.A, 0x0001, GPIODomain.AF(1), Etr),
    Row(GPIODomain.A, 0x0002, GPIODomain.AF(1), Ch2), Row(GPIODomain.A, 0x0004, GPIODomain.AF(1), Ch3),
    Row(GPIODomain.A, 0x0008, GPIODomain.AF(1), Ch4), Row(GPIODomain.A, 0x0020, GPIODomain.AF(1), Ch1),
    Row(GPIODomain.A, 0x0020, GPIODomain.AF(1), Etr), Row(GPIODomain.A, 0x8000, GPIODomain.AF(1), Ch1),
    Row(GPIODomain.A, 0x8000, GPIODomain.AF(1), Etr), Row(GPIODomain.B, 0x0008, GPIODomain.AF(1), Ch2),
    Row(GPIODomain.B, 0x0400, GPIODomain.AF(1), Ch3), Row(GPIODomain.B, 0x0800, GPIODomain.AF(1), Ch4)]

  /** TIM3: 11 rows. */
  const Tim3Pins: seq<PossiblePin> := [
    Row(GPIODomain.A, 0x0040, GPIODomain.AF(2), Ch1), Row(GPIODomain.A, 0x0080, GPIODomain.AF(2), Ch2),
    Row(GPIODomain.B, 0x0001, GPIODomain.AF(2), Ch3), Row(GPIODomain.B, 0x0002, GPIODomain.AF(2), Ch4),
    Row(GPIODomain.B, 0x0010, GPIODomain.AF(2), Ch1), Row(GPIODomain.B, 0x0020, GPIODomain.AF(2), Ch2),
    Row(GPIODomain.C, 0x0040, GPIODomain.AF(2), Ch1), Row(GPIODomain.C, 0x0080, GPIODomain.AF(2), Ch2),
    Row(GPIODomain.C, 0x0100, GPIODomain.AF(2), Ch3), Row(GPIODomain.C, 0x0200, GPIODomain.AF(2), Ch4),
    Row(GPIODomain.D, 0x0004, GPIODomain.AF(2), Etr)]

  /** TIM4: 9 rows. */
  const Tim4Pins: seq<PossiblePin> := [
    Row(GPIODomain.B, 0x0040, GPIODomain.AF(2), Ch1), Row(GPIODomain.B, 0x0080, GPIODomain.AF(2), Ch2),
    Row(GPIODomain.B, 0x0100, GPIODomain.AF(2), Ch3), Row(GPIODomain.B, 0x0200, GPIODomain.AF(2), Ch4),
    Row(GPIODomain.D, 0x1000, GPIODomain.AF(2), Ch1), Row(GPIODomain.D, 0x2000, GPIODomain.AF(2), Ch2),
    Row(GPIODomain.D, 0x4000, GPIODomain.AF(2), Ch3), Row(GPIODomain.D, 0x8000, GPIODomain.AF(2), Ch4),
    Row(GPIODomain.E, 0x0001, GPIODomain.AF(2), Etr)]

  /** TIM5: 5 rows. */
  const Tim5Pins: seq<PossiblePin> := [
    Row(GPIODomain.A, 0x0001, GPIODomain.AF(2), Ch1), Row(GPIODomain.A, 0x0002, GPIODomain.AF(2), Ch2),
    Row(GPIODomain.A, 0x0004, GPIODomain.AF(2), Ch3), Row(GPIODomain.A, 0x0008, GPIODomain.AF(2), Ch4),
    Row(GPIODomain.A, 0x0010, GPIODomain.AF(2), Etr)]

  /** TIM6 and TIM7: a placeholder row; basic timers are refused first. */
  const BasicPins: seq<PossiblePin> := [
    Row(GPIODomain.A, 0x0001, GPIODomain.NoAF, Ch1)]

  /** TIM8: 20 rows. */
  const Tim8Pins: seq<PossiblePin> := [
    Row(GPIODomain.A, 0x0001, GPIODomain.AF(3), Etr), Row(GPIODomain.A, 0x0020, GPIODomain.AF(3), Ch1N),
    Row(GPIODomain.A, 0x0040, GPIODomain.AF(3), Bkin1), Row(GPIODomain.A, 0x0040, GPIODomain.AF(10), BkinComp1),
    Row(GPIODomain.A, 0x0080, GPIODomain.AF(3), Ch1N), Row(GPIODomain.A, 0x0100, GPIODomain.AF(3), Bkin2),
    Row(GPIODomain.A, 0x0100, GPIODomain.AF(12), BkinComp2), Row(GPIODomain.B, 0x0001, GPIODomain.AF(3), Ch2N),
    Row(GPIODomain.B, 0x0002, GPIODomain.AF(3), Ch3N), Row(GPIODomain.B, 0x4000, GPIODomain.AF(3), Ch2N),
    Row(GPIODomain.B, 0x8000, GPIODomain.AF(3), Ch3N), Row(GPIODomain.C, 0x0040, GPIODomain.AF(3), Ch1),
    Row(GPIODomain.C, 0x0080, GPIODomain.AF(3), Ch2), Row(GPIODomain.C, 0x0100, GPIODomain.AF(3), Ch3),
    Row(GPIODomain.C, 0x0200, GPIODomain.AF(3), Ch4), Row(GPIODomain.G, 0x0004, GPIODomain.AF(3), Bkin1),
    Row(GPIODomain.G, 0x0004, GPIODomain.AF(11), BkinComp1), Row(GPIODomain.G, 0x0008, GPIODomain.AF(3), Bkin2),
    Row(GPIODomain.G, 0x0008, GPIODomain.AF(11), BkinComp2), Row(GPIODomain.G, 0x0100, GPIODomain.AF(3), Etr)]

  /** TIM12: 2 rows. */
  const Tim12Pins: seq<PossiblePin> := [
    Row(GPIODomain.B, 0x4000, GPIODomain.AF(2), Ch1), Row(GPIODomain.B, 0x8000, GPIODomain.AF(2), Ch2)]

  /** TIM13: 2 rows. */
  const Tim13Pins: seq<PossiblePin> := [
    Row(GPIODomain.A, 0x0040, GPIODomain.AF(9), Ch1), Row(GPIODomain.F, 0x0100, GPIODomain.AF(9), Ch1)]

  /** TIM14: 2 rows. */
  const Tim14Pins: seq<PossiblePin> := [
    Row(GPIODomain.A, 0x0080, GPIODomain.AF(9), Ch1), Row(GPIODomain.F, 0x0200, GPIODomain.AF(9), Ch1)]

  /** TIM15: 10 rows. */
  const Tim15Pins: seq<PossiblePin> := [
    Row(GPIODomain.A, 0x0001, GPIODomain.AF(4), Bkin1), Row(GPIODomain.A, 0x0002, GPIODomain.AF(4), Ch1N),
    Row(GPIODomain.A, 0x0004, GPIODomain.AF(4), Ch1), Row(GPIODomain.A, 0x0008, GPIODomain.AF(4), Ch2),
    Row(GPIODomain.C, 0x1000, GPIODomain.AF(2), Ch1), Row(GPIODomain.D, 0x0004, GPIODomain.AF(4), Ch2),
    Row(GPIODomain.E, 0x0008, GPIODomain.AF(4), Bkin1), Row(GPIODomain.E, 0x0010, GPIODomain.AF(4), Bkin1),
    Row(GPIODomain.E, 0x0010, GPIODomain.AF(4), Ch1), Row(GPIODomain.E, 0x0010, GPIODomain.AF(4), Ch2)]

  /** TIM16: 3 rows. */
  const Tim16Pins: seq<PossiblePin> := [
    Row(GPIODomain.F, 0x0040, GPIODomain.AF(1), Ch1), Row(GPIODomain.F, 0x0100, GPIODomain.AF(1), Ch1N),
    Row(GPIODomain.F, 0x0400, GPIODomain.AF(1), Bkin1)]

  /** TIM17: 6 rows. */
  const Tim17Pins: seq<PossiblePin> := [
    Row(GPIODomain.B, 0x0020, GPIODomain.AF(1), Bkin1), Row(GPIODomain.B, 0x0080, GPIODomain.AF(1), Ch1N),
    Row(GPIODomain.B, 0x0200, GPIODomain.AF(1), Ch1), Row(GPIODomain.F, 0x0080, GPIODomain.AF(1), Ch1),
    Row(GPIODomain.F, 0x0200, GPIODomain.AF(1), Ch1N), Row(GPIODomain.G, 0x0040, GPIODomain.AF(1), Bkin1)]

  /** TIM23: 13 rows. */
  const Tim23Pins: seq<PossiblePin> := [
    Row(GPIODomain.B, 0x0004, GPIODomain.AF(13), Etr), Row(GPIODomain.F, 0x0001, GPIODomain.AF(13), Ch1),
    Row(GPIODomain.F, 0x0002, GPIODomain.AF(13), Ch2), Row(GPIODomain.F, 0x0004, GPIODomain.AF(13), Ch3),
    Row(GPIODomain.F, 0x0008, GPIODomain.AF(13), Ch4), Row(GPIODomain.F, 0x0040, GPIODomain.AF(13), Ch1),
    Row(GPIODomain.F, 0x0080, GPIODomain.AF(13), Ch2), Row(GPIODomain.F, 0x0100, GPIODomain.AF(13), Ch3),
    Row(GPIODomain.F, 0x0200, GPIODomain.AF(13), Ch4), Row(GPIODomain.G, 0x0008, GPIODomain.AF(13), Etr),
    Row(GPIODomain.G, 0x1000, GPIODomain.AF(13), Ch1), Row(GPIODomain.G, 0x2000, GPIODomain.AF(13), Ch2),
    Row(GPIODomain.G, 0x4000, GPIODomain.AF(13), Ch3)]

  /** TIM24: 6 rows. */
  const Tim24Pins: seq<PossiblePin> := [
    Row(GPIODomain.B, 0x0008, GPIODomain.AF(14), Etr), Row(GPIODomain.F, 0x0800, GPIODomain.AF(14), Ch1),
    Row(GPIODomain.F, 0x1000, GPIODomain.AF(14), Ch2), Row(GPIODomain.F, 0x2000, GPIODomain.AF(14), Ch3),
    Row(GPIODomain.F, 0x4000, GPIODomain.AF(14), Ch4), Row(GPIODomain.G, 0x0004, GPIODomain.AF(14), Etr)]

  /** tim_pins: each timer's rows; numbers without a timer have none. */
  function TimPins(req: U8): (rows: seq<PossiblePin>)
    ensures IsTimer(req) || rows == []
  {
    match req
    case 1 => Tim1Pins
    case 2 => Tim2Pins
    case 3 => Tim3Pins
    case 4 => Tim4Pins
    case 5 => Tim5Pins
    case 6 => BasicPins
    case 7 => BasicPins
    case 8 => Tim8Pins
    case 12 => Tim12Pins
    case 13 => Tim13Pins
    case 14 => Tim14Pins
    case 15 => Tim15Pins
    case 16 => Tim16Pins
    case 17 => Tim17Pins
    case 23 => Tim23Pins
    case 24 => Tim24Pins
    case _ => []
  }

  /** Whether a row's use serves the pin's declared function: a channel
      function needs the row of its channel (negated or not), a break input
      either break-input row, a break-compare input either comparator row. */
  predicate UseMatches(p: TimerPin, use: nat)
  {
    ((p.af == Pwm || p.af == InputCapture || p.af == Encoder) && p.channel == use) ||
    (p.af == BreakInput && (use == Bkin1 || use == Bkin2)) ||
    (p.af == BreakInputCompare && (use == BkinComp1 || use == BkinComp2))
  }

  /** A row serves a pin: same port and pin, and a matching use. */
  predicate RowMatches(row: PossiblePin, p: TimerPin)
  {
    row.port == p.pin.port && row.mask == p.pin.pin && UseMatches(p, row.use)
  }

  predicate HasMatch(rows: seq<PossiblePin>, p: TimerPin)
  {
    exists k :: 0 <= k < |rows| && RowMatches(rows[k], p)
  }

  /** The alternate function of the first row from `from` on that serves
      the pin. */
  function FirstMatch(rows: seq<PossiblePin>, p: TimerPin, from: nat): (af: Option<GPIODomain.AlternateFunction>)
    requires from <= |rows|
    decreases |rows| - from
    ensures af.Some? <==> exists k :: from <= k < |rows| && RowMatches(rows[k], p)
    ensures af.Some? ==> exists k :: (from <= k < |rows| && RowMatches(rows[k], p) && rows[k].af == af.value &&
      forall j :: from <= j < k ==> !RowMatches(rows[j], p))
  {
    if from == |rows| then None
    else if RowMatches(rows[from], p) then Some(rows[from].af)
    else FirstMatch(rows, p, from + 1)
  }

  const AnyTimersHaveNoPins := "Any* timers can't use pins"
  const BasicTimersHaveNoPins := "Basic timers can't use pins"
  const FlagIsNoChannel := "CHANNEL_NEGATED_FLAG is not a channel"
  const NoMatchingPin := "Couldn't find any pins with the requested alternate function"

  /** get_gpio_af, on the pin it is given: wildcard and basic requests and
      the bare negation flag are refused; otherwise the alternate function
      of the first row of the timer's table for this pin and use. */
  function GpioAf(req: U8, p: TimerPin): (r: Result<GPIODomain.AlternateFunction>)
    ensures r.Success? <==> (req != AnyGeneralPurpose && req != Any32bit && req != 6 && req != 7 &&
      p.channel != NegatedFlag && HasMatch(TimPins(req), p))
    ensures r.Success? ==> exists k :: (0 <= k < |TimPins(req)| && RowMatches(TimPins(req)[k], p) &&
      TimPins(req)[k].af == r.value && forall j :: 0 <= j < k ==> !RowMatches(TimPins(req)[j], p))
  {
    if req == AnyGeneralPurpose || req == Any32bit then Failure(AnyTimersHaveNoPins)
    else if req == 6 || req == 7 then Failure(BasicTimersHaveNoPins)
    else if p.channel == NegatedFlag then Failure(FlagIsNoChannel)
    else match FirstMatch(TimPins(req), p, 0)
      case Some(af) => Success(af)
      case None => Failure(NoMatchingPin)
  }

  /** The search in get_gpio_af: a scan of the timer's rows that stops at
      the first one serving the pin. */
  method FindGpioAf(req: U8, p: TimerPin) returns (r: Result<GPIODomain.AlternateFunction>)
    ensures r == GpioAf(req, p)
  {
    if req == AnyGeneralPurpose || req == Any32bit {
      return Failure(AnyTimersHaveNoPins);
    }
    if req == 6 || req == 7 {
      return Failure(BasicTimersHaveNoPins);
    }
    if p.channel == NegatedFlag {
      return Failure(FlagIsNoChannel);
    }
    var rows := TimPins(req);
    var j := 0;
    while j < |rows|
      invariant j <= |rows|
      invariant FirstMatch(rows, p, j) == FirstMatch(rows, p, 0)
    {
      if RowMatches(rows[j], p) {
        return Success(rows[j].af);
      }
      j := j + 1;
    }
    return Failure(NoMatchingPin);
  }

  /** get_gpio_af as written: rows are matched on their use alone, so the
      pin is never compared. */
  function FirstUseAsWritten(rows: seq<PossiblePin>, p: TimerPin, from: nat): Option<GPIODomain.AlternateFunction>
    requires from <= |rows|
    decreases |rows| - from
  {
    if from == |rows| then None
    else if UseMatches(p, rows[from].use) then Some(rows[from].af)
    else FirstUseAsWritten(rows, p, from + 1)
  }

  function GpioAfAsWritten(req: U8, p: TimerPin): Result<GPIODomain.AlternateFunction>
  {
    if req == AnyGeneralPurpose || req == Any32bit then Failure(AnyTimersHaveNoPins)
    else if req == 6 || req == 7 then Failure(BasicTimersHaveNoPins)
    else if p.channel == NegatedFlag then Failure(FlagIsNoChannel)
    else match FirstUseAsWritten(TimPins(req), p, 0)
      case Some(af) => Success(af)
      case None => Failure(NoMatchingPin)
  }

  /** As written, PC12 as TIM15 channel 1 gets AF4 (PA2's function)
      though its row says AF2; matching on the pin gives AF2. */
  lemma GpioAfAsWrittenIgnoresPin(afs: bv16)
    ensures GpioAfAsWritten(15, TimerPin(Pwm, GPIODomain.Pin(GPIODomain.C, 0x1000, afs), 1)) == Success(GPIODomain.AF(4))
    ensures GpioAf(15, TimerPin(Pwm, GPIODomain.Pin(GPIODomain.C, 0x1000, afs), 1)) == Success(GPIODomain.AF(2))
  {
    var pc12 := TimerPin(Pwm, GPIODomain.Pin(GPIODomain.C, 0x1000, afs), 1);
    FirstUseAt(Tim15Pins, pc12, 0, 2);
    FirstMatchAt(Tim15Pins, pc12, 0, 4);
  }

  /** As written, PA12 as a TIM1 break input gets AF1 (PE6's function)
      though its row says AF12; matching on the pin gives AF12. */
  lemma GpioAfAsWrittenMisplacesBreak(afs: bv16)
    ensures GpioAfAsWritten(1, TimerPin(BreakInput, GPIODomain.Pin(GPIODomain.A, 0x1000, afs), 1)) == Success(GPIODomain.AF(1))
    ensures GpioAf(1, TimerPin(BreakInput, GPIODomain.Pin(GPIODomain.A, 0x1000, afs), 1)) == Success(GPIODomain.AF(12))
  {
    var pa12 := TimerPin(BreakInput, GPIODomain.Pin(GPIODomain.A, 0x1000, afs), 1);
    FirstUseAt(Tim1Pins, pa12, 0, 0);
    FirstMatchAt(Tim1Pins, pa12, 0, 30);
  }

  /** As written, PC0, in no TIM1 row, is accepted for TIM1 channel 1;
      matching on the pin refuses it. */
  lemma GpioAfAsWrittenAcceptsUnlisted(afs: bv16)
    ensures GpioAfAsWritten(1, TimerPin(Pwm, GPIODomain.Pin(GPIODomain.C, 0x0001, afs), 1)) == Success(GPIODomain.AF(1))
    ensures GpioAf(1, TimerPin(Pwm, GPIODomain.Pin(GPIODomain.C, 0x0001, afs), 1)).Failure?
  {
    var pc0 := TimerPin(Pwm, GPIODomain.Pin(GPIODomain.C, 0x0001, afs), 1);
    FirstUseAt(Tim1Pins, pc0, 0, 9);
    assert !HasMatch(Tim1Pins, pc0);
  }

  /** The as-written search returns the first row whose use matches. */
  lemma {:induction false} FirstUseAt(rows: seq<PossiblePin>, p: TimerPin, from: nat, k: nat)
    requires from <= k < |rows| && UseMatches(p, rows[k].use)
    requires forall j :: from <= j < k ==> !UseMatches(p, rows[j].use)
    ensures FirstUseAsWritten(rows, p, from) == Some(rows[k].af)
    decreases k - from
  {
    if from < k {
      FirstUseAt(rows, p, from + 1, k);
    }
  }

  /** The search on pins returns the first row that serves the pin. */
  lemma {:induction false} FirstMatchAt(rows: seq<PossiblePin>, p: TimerPin, from: nat, k: nat)
    requires from <= k < |rows| && RowMatches(rows[k], p)
    requires forall j :: from <= j < k ==> !RowMatches(rows[j], p)
    ensures FirstMatch(rows, p, from) == Some(rows[k].af)
    decreases k - from
  {
    if from < k {
      FirstMatchAt(rows, p, from + 1, k);
    }
  }

  // ---------------------------------------------------------------------
  // The timer request (Timer's constructor)

  datatype Entry = Entry(request: U8, pins: seq<TimerPin>)

  /** The GPIO request a timer pin makes: its mode, pull and speed follow
      its use, and its alternate function comes from the table. */
  function PinGpio(req: U8, p: TimerPin): (r: Result<GPIODomain.Entry>)
    ensures r.Success? <==> (GpioAf(req, p).Success? &&
      GPIODomain.MakeGpio(p.pin, OperationModeOf(p.af), PullOf(p.af), SpeedOf(p.af), GpioAf(req, p).value).Success?)
    ensures r.Success? ==> (r.value.port == p.pin.port && r.value.pin == p.pin.pin &&
      r.value.af == GpioAf(req, p).value && r.value.mode == OperationModeOf(p.af))
  {
    var af := GpioAf(req, p);
    if af.Failure? then Failure(af.error)
    else GPIODomain.MakeGpio(p.pin, OperationModeOf(p.af), PullOf(p.af), SpeedOf(p.af), af.value)
  }

  /** The GPIO requests of a list of pins, the first failure winning. */
  function PinGpios(req: U8, pins: seq<TimerPin>): (r: Result<seq<GPIODomain.Entry>>)
    ensures r.Success? <==> forall i :: 0 <= i < |pins| ==> PinGpio(req, pins[i]).Success?
    ensures r.Success? ==> (|r.value| == |pins| &&
      forall i :: 0 <= i < |pins| ==> r.value[i] == PinGpio(req, pins[i]).value)
  {
    if |pins| == 0 then Success([])
    else
      var first := PinGpio(req, pins[0]);
      var rest := PinGpios(req, pins[1..]);
      if first.Failure? then Failure(first.error)
      else if rest.Failure? then Failure(rest.error)
      else Success([first.value] + rest.value)
  }

  /** A declared timer: its entry and the GPIO requests of its pins. */
  datatype Timer = Timer(e: Entry, gpios: seq<GPIODomain.Entry>)

  const MaxPins: nat := 7

  /** The Timer constructor: each pin's GPIO request is made (an alternate
      function the table does not give, or one the pin lacks, is an error),
      and more than seven pins are refused. */
  function MakeTimer(req: U8, pins: seq<TimerPin>): (r: Result<Timer>)
    ensures r.Success? <==> |pins| <= MaxPins && forall i :: 0 <= i < |pins| ==> PinGpio(req, pins[i]).Success?
    ensures r.Success? ==> r.value.e == Entry(req, pins) && |r.value.gpios| == |pins|
    ensures r.Success? ==> forall i :: 0 <= i < |pins| ==>
      r.value.gpios[i].af == GpioAf(req, pins[i]).value && r.value.gpios[i].port == pins[i].pin.port &&
      r.value.gpios[i].pin == pins[i].pin.pin
  {
    var gpios := PinGpios(req, if |pins| <= MaxPins then pins else pins[..MaxPins]);
    if gpios.Failure? then Failure(gpios.error)
    else if |pins| > MaxPins then Failure("Max 7 pins per timer")
    else Success(Timer(Entry(req, pins), gpios.value))
  }

  /** A timer with pins can only be a specific, non-basic timer. */
  lemma PinsNeedASpecificTimer(req: U8, pins: seq<TimerPin>)
    requires MakeTimer(req, pins).Success? && |pins| > 0
    ensures req != AnyGeneralPurpose && req != Any32bit && req != 6 && req != 7 && IsTimer(req)
  {
    assert PinGpio(req, pins[0]).Success?;
    assert HasMatch(TimPins(req), pins[0]);
  }

  // ---------------------------------------------------------------------
  // build

  /** A request names a specific timer rather than a wildcard. */
  predicate Specific(r: U8)
  {
    r != AnyGeneralPurpose && r != Any32bit
  }

  /** The request values build should take: a wildcard or a timer. */
  predicate ValidRequest(r: U8)
  {
    r == AnyGeneralPurpose || r == Any32bit || IsTimer(r)
  }

  /** build's value check as written: AnyGeneralPurpose, or 1 to 17, 23 or
      24. */
  predicate ValidRequestAsWritten(r: U8)
  {
    !(r != AnyGeneralPurpose && (r < 1 || r > 24 || (r > 17 && r < 23)))
  }

  /** As written, Any32bit (0xFF) is refused, so the whole 32-bit
      assignment is unreachable, and 9 to 11, which name no timer, pass and
      get idxmap's 0xFF as their slot; elsewhere the checks agree. */
  lemma ValidRequestAsWrittenMisjudges()
    ensures !ValidRequestAsWritten(Any32bit) && ValidRequest(Any32bit)
    ensures forall r :: 9 <= r <= 11 ==> ValidRequestAsWritten(r) && !ValidRequest(r) && IdxMap(r) == NoIndex
    ensures forall r: U8 :: r != Any32bit && !(9 <= r <= 11) ==> (ValidRequestAsWritten(r) <==> ValidRequest(r))
  {
  }

  /** No two pins of a timer share a channel. */
  predicate DistinctChannels(pins: seq<TimerPin>)
  {
    forall i, j :: 0 <= i < j < |pins| ==> pins[i].channel != pins[j].channel
  }

  predicate EntryOk(e: Entry)
  {
    ValidRequest(e.request) && DistinctChannels(e.pins)
  }

  /** The channel check of build: a mask of the channels seen so far (kept
      here as the set of its bits). */
  method CheckChannels(pins: seq<TimerPin>) returns (ok: bool)
    ensures ok <==> DistinctChannels(pins)
  {
    var used: set<nat> := {};
    var i := 0;
    while i < |pins|
      invariant i <= |pins|
      invariant DistinctChannels(pins[..i])
      invariant forall c :: c in used <==> exists k :: 0 <= k < i && pins[k].channel == c
    {
      if pins[i].channel in used {
        return false;
      }
      used := used + {pins[i].channel};
      i := i + 1;
    }
    assert pins[..i] == pins;
    return true;
  }

  /** The number of requests of one kind. */
  function Count(reqs: seq<Entry>, kind: U8): (n: nat)
    ensures n <= |reqs|
  {
    if |reqs| == 0 then 0
    else Count(reqs[..|reqs| - 1], kind) + (if reqs[|reqs| - 1].request == kind then 1 else 0)
  }

  /** Requests of a kind before position i are fewer than up to any later
      request of that kind. */
  lemma {:induction false} CountGrows(reqs: seq<Entry>, kind: U8, i: nat, j: nat)
    requires i < j <= |reqs| && reqs[i].request == kind
    ensures Count(reqs[..i], kind) < Count(reqs[..j], kind)
    decreases j
  {
    if j == i + 1 {
      assert reqs[..j][..i] == reqs[..i];
    } else {
      assert reqs[..j][..j - 1] == reqs[..j - 1];
      CountGrows(reqs, kind, i, j - 1);
    }
  }

  /** The timers requested by name. */
  function UsedTimers(reqs: seq<Entry>): set<nat>
  {
    if |reqs| == 0 then {}
    else
      var last := reqs[|reqs| - 1].request;
      UsedTimers(reqs[..|reqs| - 1]) + if Specific(last) then {last} else {}
  }

  /** The used timers are exactly the timers some request names. */
  lemma {:induction false} UsedTimersSpec(reqs: seq<Entry>)
    ensures forall t :: t in UsedTimers(reqs) <==>
      exists k :: 0 <= k < |reqs| && Specific(reqs[k].request) && reqs[k].request == t
  {
    if |reqs| > 0 {
      var short := reqs[..|reqs| - 1];
      UsedTimersSpec(short);
      assert forall k :: 0 <= k < |short| ==> short[k] == reqs[k];
    }
  }

  /** No timer is requested by name twice. */
  predicate NoRepeatedTimer(reqs: seq<Entry>)
  {
    forall i, j :: 0 <= i < j < |reqs| && Specific(reqs[i].request) ==> reqs[i].request != reqs[j].request
  }

  /** The pool's timers that are not used, in the pool's order. */
  function Unused(pool: seq<nat>, used: set<nat>): seq<nat>
  {
    if |pool| == 0 then []
    else
      var before := Unused(pool[..|pool| - 1], used);
      var last := pool[|pool| - 1];
      if last in used then before else before + [last]
  }

  /** Unused keeps exactly the pool's timers that are not used, and a pool
      without repeats gives a list without repeats. */
  lemma {:induction false} UnusedSpec(pool: seq<nat>, used: set<nat>)
    ensures forall x :: x in Unused(pool, used) <==> x in pool && x !in used
    ensures Distinct(pool) ==> Distinct(Unused(pool, used))
  {
    if |pool| > 0 {
      var short := pool[..|pool| - 1];
      UnusedSpec(short, used);
      assert pool == short + [pool[|pool| - 1]];
      assert Distinct(pool) ==> pool[|pool| - 1] !in short;
    }
  }

  predicate Distinct(s: seq<nat>)
  {
    forall i, j :: 0 <= i < j < |s| ==> s[i] != s[j]
  }

  /** The collection loops of build (remaining_32bit_timers and
      remaining_timers): the pool's unused timers, in order. */
  method CollectUnused(pool: seq<nat>, used: set<nat>) returns (r: seq<nat>)
    ensures r == Unused(pool, used)
  {
    r := [];
    var i := 0;
    while i < |pool|
      invariant i <= |pool|
      invariant r == Unused(pool[..i], used)
    {
      assert pool[..i + 1][..i] == pool[..i];
      if pool[i] !in used {
        r := r + [pool[i]];
      }
      i := i + 1;
    }
    assert pool[..i] == pool;
  }

  /** The 32-bit timers, in the order Any32bit requests take them. */
  const Bits32Timers: seq<nat> := [2, 5, 23, 24]

  /** The timers AnyGeneralPurpose requests take, in order: the 16-bit
      timers 15 to 17, the up/down timers 3 and 4, then the 32-bit ones. */
  const GeneralTimers: seq<nat> := [15, 16, 17, 3, 4, 2, 5, 23, 24]

  function Take(s: seq<nat>, n: nat): seq<nat>
  {
    if n <= |s| then s[..n] else s
  }

  function At(s: seq<nat>, k: nat): nat
  {
    if k < |s| then s[k] else 0
  }

  /** The 32-bit timers left for Any32bit requests. */
  function Pool32(reqs: seq<Entry>): seq<nat>
  {
    Unused(Bits32Timers, UsedTimers(reqs))
  }

  /** The timers left for AnyGeneralPurpose requests: neither named nor
      given to an Any32bit request. */
  function PoolGeneral(reqs: seq<Entry>): seq<nat>
  {
    Unused(GeneralTimers, UsedTimers(reqs) + set x | x in Take(Pool32(reqs), Count(reqs, Any32bit)))
  }

  /** The pools hold unused timers of their lists, without repeats; the
      general pool leaves out the timers the Any32bit requests take. */
  lemma PoolsSpec(reqs: seq<Entry>)
    ensures forall x :: x in Pool32(reqs) <==> x in Bits32Timers && x !in UsedTimers(reqs)
    ensures forall x :: x in PoolGeneral(reqs) <==>
      x in GeneralTimers && x !in UsedTimers(reqs) && x !in Take(Pool32(reqs), Count(reqs, Any32bit))
    ensures Distinct(Pool32(reqs)) && Distinct(PoolGeneral(reqs))
  {
    UnusedSpec(Bits32Timers, UsedTimers(reqs));
    UnusedSpec(GeneralTimers, UsedTimers(reqs) + set x | x in Take(Pool32(reqs), Count(reqs, Any32bit)));
  }

  /** Everything build checks: at most 16 requests, each a valid value with
      one pin per channel, no timer named twice, and enough timers left for
      the wildcards. */
  predicate BuildOk(reqs: seq<Entry>)
  {
    |reqs| <= MaxInstances && (forall i :: 0 <= i < |reqs| ==> EntryOk(reqs[i])) && NoRepeatedTimer(reqs) &&
    Count(reqs, Any32bit) <= |Pool32(reqs)| && Count(reqs, AnyGeneralPurpose) <= |PoolGeneral(reqs)|
  }

  /** The timer request i gets: the one it names, or the next timer of its
      wildcard's pool. */
  function TimerFor(reqs: seq<Entry>, i: nat): nat
    requires i < |reqs|
  {
    var r := reqs[i].request;
    if Specific(r) then r
    else if r == Any32bit then At(Pool32(reqs), Count(reqs[..i], Any32bit))
    else At(PoolGeneral(reqs), Count(reqs[..i], AnyGeneralPurpose))
  }

  /** Every accepted request gets a timer of the kind it asked for: the one
      it names, a 32-bit timer for Any32bit, a timer of the general pool for
      AnyGeneralPurpose. */
  lemma AssignmentHonoursRequests(reqs: seq<Entry>, i: nat)
    requires BuildOk(reqs) && i < |reqs|
    ensures IsTimer(TimerFor(reqs, i)) && TimerFor(reqs, i) < 25
    ensures Specific(reqs[i].request) ==> TimerFor(reqs, i) == reqs[i].request
    ensures reqs[i].request == Any32bit ==> TimerFor(reqs, i) in Bits32Timers
    ensures reqs[i].request == AnyGeneralPurpose ==> TimerFor(reqs, i) in GeneralTimers
  {
    assert EntryOk(reqs[i]);
    PoolsSpec(reqs);
    var r := reqs[i].request;
    if r == Any32bit {
      CountGrows(reqs, Any32bit, i, |reqs|);
      assert reqs[..|reqs|] == reqs;
      assert Pool32(reqs)[Count(reqs[..i], Any32bit)] in Pool32(reqs);
    } else if r == AnyGeneralPurpose {
      CountGrows(reqs, AnyGeneralPurpose, i, |reqs|);
      assert reqs[..|reqs|] == reqs;
      assert PoolGeneral(reqs)[Count(reqs[..i], AnyGeneralPurpose)] in PoolGeneral(reqs);
    }
  }

  /** An Any32bit request gets one of the 32-bit timers the Any32bit
      requests take. */
  lemma Any32Taken(reqs: seq<Entry>, i: nat)
    requires BuildOk(reqs) && i < |reqs| && reqs[i].request == Any32bit
    ensures TimerFor(reqs, i) in Take(Pool32(reqs), Count(reqs, Any32bit))
  {
    CountGrows(reqs, Any32bit, i, |reqs|);
    assert reqs[..|reqs|] == reqs;
    var c := Count(reqs[..i], Any32bit);
    assert Take(Pool32(reqs), Count(reqs, Any32bit))[c] == Pool32(reqs)[c];
  }

  /** An AnyGeneralPurpose request gets a timer of the general pool. */
  lemma AnyTaken(reqs: seq<Entry>, i: nat)
    requires BuildOk(reqs) && i < |reqs| && reqs[i].request == AnyGeneralPurpose
    ensures TimerFor(reqs, i) in PoolGeneral(reqs)
  {
    CountGrows(reqs, AnyGeneralPurpose, i, |reqs|);
    assert reqs[..|reqs|] == reqs;
  }

  /** Two requests of the same wildcard kind take different positions of
      their pool. */
  lemma SameKindApart(reqs: seq<Entry>, i: nat, j: nat, kind: U8, pool: seq<nat>)
    requires i < j < |reqs| && reqs[i].request == kind && reqs[j].request == kind
    requires Distinct(pool) && Count(reqs, kind) <= |pool|
    ensures At(pool, Count(reqs[..i], kind)) != At(pool, Count(reqs[..j], kind))
  {
    CountGrows(reqs, kind, i, j);
    CountGrows(reqs, kind, j, |reqs|);
    assert reqs[..|reqs|] == reqs;
  }

  /** No two requests share a timer. */
  lemma AssignmentDistinct(reqs: seq<Entry>, i: nat, j: nat)
    requires BuildOk(reqs) && i < j < |reqs|
    ensures TimerFor(reqs, i) != TimerFor(reqs, j)
  {
    var ri, rj := reqs[i].request, reqs[j].request;
    PoolsSpec(reqs);
    if Specific(ri) && Specific(rj) {
    } else if Specific(ri) || Specific(rj) {
      var named, wild := if Specific(ri) then i else j, if Specific(ri) then j else i;
      UsedTimersSpec(reqs);
      assert reqs[named].request in UsedTimers(reqs);
      if reqs[wild].request == Any32bit {
        Any32Taken(reqs, wild);
      } else {
        AnyTaken(reqs, wild);
      }
    } else if ri == rj && ri == Any32bit {
      SameKindApart(reqs, i, j, Any32bit, Pool32(reqs));
    } else if ri == rj {
      SameKindApart(reqs, i, j, AnyGeneralPurpose, PoolGeneral(reqs));
    } else {
      var w32, wAny := if ri == Any32bit then i else j, if ri == Any32bit then j else i;
      Any32Taken(reqs, w32);
      AnyTaken(reqs, wAny);
    }
  }

  const TooManyRequests := "too many Timer requests, there are only 16 timers"
  const InvalidRequest := "Invalid TimerRequest value for timer"
  const OnePinPerChannel := "Only one pin per channel for each timer"
  const TimerAlreadyUsed := "Error: Timer already used"
  const No32BitTimers := "No remaining 32 bit timers, there are only 4. Timers {2, 5, 23, 24}"
  const NoTimersLeft := "This should not happen"

  /** build's first loop: each request's value and channels, the first
      fault winning. */
  method CheckRequests(reqs: seq<Entry>) returns (err: Option<string>)
    ensures err.None? <==> forall i :: 0 <= i < |reqs| ==> EntryOk(reqs[i])
  {
    var i := 0;
    while i < |reqs|
      invariant i <= |reqs|
      invariant forall k :: 0 <= k < i ==> EntryOk(reqs[k])
    {
      if !ValidRequest(reqs[i].request) {
        return Some(InvalidRequest);
      }
      var ok := CheckChannels(reqs[i].pins);
      if !ok {
        return Some(OnePinPerChannel);
      }
      i := i + 1;
    }
    return None;
  }

  /** build's second loop: each named timer is claimed once and gets its
      own slot. */
  method ClaimNamed(reqs: seq<Entry>, cfgs: seq<U8>) returns (ok: bool, used: set<nat>, out: seq<U8>)
    requires |cfgs| == |reqs| && forall i :: 0 <= i < |reqs| ==> ValidRequest(reqs[i].request)
    ensures ok <==> NoRepeatedTimer(reqs)
    ensures ok ==> used == UsedTimers(reqs) && |out| == |reqs|
    ensures ok ==> forall i :: 0 <= i < |reqs| ==>
      out[i] == if Specific(reqs[i].request) then IdxMap(reqs[i].request) else cfgs[i]
  {
    used, out := {}, cfgs;
    var i := 0;
    while i < |reqs|
      invariant i <= |reqs| && |out| == |reqs|
      invariant used == UsedTimers(reqs[..i]) && NoRepeatedTimer(reqs[..i])
      invariant forall k :: 0 <= k < |reqs| ==>
        out[k] == if k < i && Specific(reqs[k].request) then IdxMap(reqs[k].request) else cfgs[k]
    {
      ClaimStep(reqs, i);
      var r := reqs[i].request;
      if Specific(r) {
        if r in used {
          return false, used, out;
        }
        used := used + {r};
        out := out[i := IdxMap(r)];
      }
      i := i + 1;
    }
    assert reqs[..i] == reqs;
    return true, used, out;
  }

  /** One step of the named-timer loop: the request at i adds its timer
      to the used ones, and repeats a name exactly when that timer is
      already used, which spoils the whole list. */
  lemma ClaimStep(reqs: seq<Entry>, i: nat)
    requires i < |reqs| && NoRepeatedTimer(reqs[..i])
    ensures UsedTimers(reqs[..i + 1]) ==
      UsedTimers(reqs[..i]) + if Specific(reqs[i].request) then {reqs[i].request} else {}
    ensures NoRepeatedTimer(reqs[..i + 1]) <==> !(Specific(reqs[i].request) && reqs[i].request in UsedTimers(reqs[..i]))
    ensures !NoRepeatedTimer(reqs[..i + 1]) ==> !NoRepeatedTimer(reqs)
  {
    assert reqs[..i + 1][..i] == reqs[..i];
    UsedTimersSpec(reqs[..i]);
  }

  /** The wildcard loops of build: the requests of one kind take the pool's
      timers in order, and running out is an error. */
  method AssignWildcards(reqs: seq<Entry>, kind: U8, pool: seq<nat>, cfgs: seq<U8>) returns (ok: bool, out: seq<U8>)
    requires |cfgs| == |reqs|
    ensures ok <==> Count(reqs, kind) <= |pool|
    ensures ok ==> (|out| == |reqs| && forall i :: 0 <= i < |reqs| ==>
      out[i] == if reqs[i].request == kind then IdxMap(At(pool, Count(reqs[..i], kind))) else cfgs[i])
  {
    out := cfgs;
    var taken := 0;
    var i := 0;
    while i < |reqs|
      invariant i <= |reqs| && |out| == |reqs|
      invariant taken == Count(reqs[..i], kind) <= |pool|
      invariant forall k :: 0 <= k < |reqs| ==>
        out[k] == if k < i && reqs[k].request == kind then IdxMap(At(pool, Count(reqs[..k], kind))) else cfgs[k]
    {
      assert reqs[..i + 1][..i] == reqs[..i];
      if reqs[i].request == kind {
        if taken >= |pool| {
          CountRest(reqs, kind, i + 1);
          return false, out;
        }
        out := out[i := IdxMap(pool[taken])];
        taken := taken + 1;
      }
      i := i + 1;
    }
    assert reqs[..i] == reqs;
    return true, out;
  }

  /** A prefix never counts more than the whole. */
  lemma {:induction false} CountRest(reqs: seq<Entry>, kind: U8, i: nat)
    requires i <= |reqs|
    ensures Count(reqs[..i], kind) <= Count(reqs, kind)
    decreases |reqs| - i
  {
    if i == |reqs| {
      assert reqs[..i] == reqs;
    } else {
      assert reqs[..i + 1][..i] == reqs[..i];
      CountRest(reqs, kind, i + 1);
    }
  }

  /** build, with each configuration in its request's position: at most 16
      requests; values and channels checked; named timers claimed; Any32bit
      requests take the unused 32-bit timers; AnyGeneralPurpose requests
      take the timers of the general pool that neither a name nor an
      Any32bit request took. */
  method Build(reqs: seq<Entry>) returns (r: Result<seq<U8>>)
    ensures r.Success? <==> BuildOk(reqs)
    ensures r.Success? ==> (|r.value| == |reqs| &&
      forall i :: 0 <= i < |reqs| ==> TimerFor(reqs, i) < 25 && r.value[i] == IdxMap(TimerFor(reqs, i)))
  {
    if |reqs| > MaxInstances {
      return Failure(TooManyRequests);
    }
    var err := CheckRequests(reqs);
    if err.Some? {
      return Failure(err.value);
    }
    var cfgs: seq<U8> := seq(|reqs|, _ => NoIndex);
    var unique, used, named := ClaimNamed(reqs, cfgs);
    if !unique {
      return Failure(TimerAlreadyUsed);
    }
    var pool32 := CollectUnused(Bits32Timers, used);
    var ok32, with32 := AssignWildcards(reqs, Any32bit, pool32, named);
    if !ok32 {
      return Failure(No32BitTimers);
    }
    var given := set x | x in pool32[..Count(reqs, Any32bit)];
    assert given == set x | x in Take(Pool32(reqs), Count(reqs, Any32bit));
    var general := CollectUnused(GeneralTimers, used + given);
    var okAny, all := AssignWildcards(reqs, AnyGeneralPurpose, general, with32);
    if !okAny {
      return Failure(NoTimersLeft);
    }
    forall i | 0 <= i < |reqs|
      ensures TimerFor(reqs, i) < 25 && all[i] == IdxMap(TimerFor(reqs, i))
    {
      AssignmentHonoursRequests(reqs, i);
    }
    return Success(all);
  }

  /** Build's configurations name distinct timer slots, one per request. */
  lemma BuildSlotsDistinct(reqs: seq<Entry>, i: nat, j: nat)
    requires BuildOk(reqs) && i < j < |reqs|
    ensures TimerFor(reqs, i) < 25 && TimerFor(reqs, j) < 25
    ensures IdxMap(TimerFor(reqs, i)) != IdxMap(TimerFor(reqs, j)) && IdxMap(TimerFor(reqs, i)) < 16
  {
    AssignmentHonoursRequests(reqs, i);
    AssignmentHonoursRequests(reqs, j);
    AssignmentDistinct(reqs, i, j);
    IdxMapInjective(TimerFor(reqs, i), TimerFor(reqs, j));
    IdxMapMatchesSlots();
  }

  // ---------------------------------------------------------------------
  // build as written: the list of requests left after the named ones

  /** The remaining_requests array after build's named-timer loop, as
      written: a named request at position i is removed by copying the last
      remaining entry over remaining_requests[i], which is only right while
      no earlier request was removed. */
  function RemainingAsWritten(reqs: seq<Entry>, i: nat, rem: seq<nat>, count: nat): seq<nat>
    requires i <= |reqs| && |rem| == |reqs| && |reqs| - i <= count <= |reqs|
    decreases |reqs| - i
  {
    if i == |reqs| then rem[..count]
    else if Specific(reqs[i].request) then RemainingAsWritten(reqs, i + 1, rem[i := rem[count - 1]], count - 1)
    else RemainingAsWritten(reqs, i + 1, rem, count)
  }

  function Iota(n: nat): (s: seq<nat>)
    ensures |s| == n && forall k :: 0 <= k < n ==> s[k] == k
  {
    if n == 0 then [] else Iota(n - 1) + [n - 1]
  }

  /** The positions of the wildcard requests, which the later loops must
      see. */
  function WildcardPositions(reqs: seq<Entry>): (s: seq<nat>)
    ensures forall k :: k in s <==> 0 <= k < |reqs| && !Specific(reqs[k].request)
  {
    if |reqs| == 0 then []
    else
      var before := WildcardPositions(reqs[..|reqs| - 1]);
      assert forall k :: 0 <= k < |reqs| - 1 ==> reqs[..|reqs| - 1][k] == reqs[k];
      if Specific(reqs[|reqs| - 1].request) then before else before + [|reqs| - 1]
  }

  const TwoNamedOneWildcard := [Entry(2, []), Entry(AnyGeneralPurpose, []), Entry(3, [])]

  /** With TIM2, any timer and TIM3 requested, the list as written keeps
      position 2 (the TIM3 request) and loses position 1, so the last loop
      meets a named request and stops build with "This only processes
      TimerRequest::AnyGeneralPurpose". */
  lemma RemainingAsWrittenLosesWildcard()
    ensures RemainingAsWritten(TwoNamedOneWildcard, 0, Iota(3), 3) == [2]
    ensures Specific(TwoNamedOneWildcard[2].request) && WildcardPositions(TwoNamedOneWildcard) == [1]
  {
    var reqs := TwoNamedOneWildcard;
    assert Iota(3) == [0, 1, 2];
    assert [2, 1, 2][2 := 1] == [2, 1, 1];
    assert RemainingAsWritten(reqs, 2, [2, 1, 2], 2) == [2];
    assert RemainingAsWritten(reqs, 1, [2, 1, 2], 2) == [2];
    assert [0, 1, 2][0 := 2] == [2, 1, 2];
    assert reqs[..2] == [Entry(2, []), Entry(AnyGeneralPurpose, [])];
    assert reqs[..2][..1] == [Entry(2, [])];
    assert reqs[..2][..1][..0] == [];
    assert WildcardPositions(reqs[..2][..1]) == [];
    assert WildcardPositions(reqs[..2]) == [1];
    assert reqs[..3] == reqs;
  }

  /** The same requests are valid: the corrected build accepts them and
      gives TIM2, TIM15 and TIM3. */
  lemma TwoNamedOneWildcardBuilds()
    ensures BuildOk(TwoNamedOneWildcard)
    ensures TimerFor(TwoNamedOneWildcard, 0) == 2 && TimerFor(TwoNamedOneWildcard, 1) == 15
    ensures TimerFor(TwoNamedOneWildcard, 2) == 3
  {
    TwoNamedOneWildcardCounts();
    Bits32Unused({2, 3});
    var reqs := TwoNamedOneWildcard;
    var usedGeneral := UsedTimers(reqs) + set x | x in Take(Pool32(reqs), Count(reqs, Any32bit));
    assert usedGeneral == {2, 3};
    GeneralStartsWith15(usedGeneral);
  }

  lemma TwoNamedOneWildcardCounts()
    ensures UsedTimers(TwoNamedOneWildcard) == {2, 3}
    ensures Count(TwoNamedOneWildcard, Any32bit) == 0 && Count(TwoNamedOneWildcard, AnyGeneralPurpose) == 1
    ensures Count(TwoNamedOneWildcard[..1], AnyGeneralPurpose) == 0
  {
    var a, b := Entry(2, []), Entry(AnyGeneralPurpose, []);
    assert TwoNamedOneWildcard[..2] == [a, b];
    assert [a, b][..1] == [a];
    assert [a][..0] == [];
    assert UsedTimers([a]) == {2} && Count([a], Any32bit) == 0 && Count([a], AnyGeneralPurpose) == 0;
    assert UsedTimers([a, b]) == {2} && Count([a, b], Any32bit) == 0 && Count([a, b], AnyGeneralPurpose) == 1;
    assert TwoNamedOneWildcard[..1] == [a];
  }


  /** Count and UsedTimers grow one request at a time. */
  lemma RequestsSnoc(reqs: seq<Entry>, e: Entry)
    ensures Count(reqs + [e], Any32bit) == Count(reqs, Any32bit) + (if e.request == Any32bit then 1 else 0)
    ensures Count(reqs + [e], AnyGeneralPurpose) ==
      Count(reqs, AnyGeneralPurpose) + (if e.request == AnyGeneralPurpose then 1 else 0)
    ensures UsedTimers(reqs + [e]) == UsedTimers(reqs) + (if Specific(e.request) then {e.request} else {})
  {
    assert (reqs + [e])[..|reqs|] == reqs;
  }

  /** Unused grows one pool timer at a time. */
  lemma UnusedSnoc(pool: seq<nat>, x: nat, used: set<nat>)
    ensures Unused(pool + [x], used) == Unused(pool, used) + (if x in used then [] else [x])
  {
    assert (pool + [x])[..|pool|] == pool;
  }

  /** The 32-bit pool, timer by timer. */
  lemma Bits32Unused(used: set<nat>)
    ensures Unused(Bits32Timers, used) ==
      (if 2 in used then [] else [2]) + (if 5 in used then [] else [5]) +
      (if 23 in used then [] else [23]) + (if 24 in used then [] else [24])
  {
    assert Bits32Timers == [2, 5, 23] + [24] && [2, 5, 23] == [2, 5] + [23] && [2, 5] == [2] + [5] && [2] == [] + [2];
    UnusedSnoc([], 2, used);
    UnusedSnoc([2], 5, used);
    UnusedSnoc([2, 5], 23, used);
    UnusedSnoc([2, 5, 23], 24, used);
  }

  /** While TIM15 is free it heads the general pool. */
  lemma GeneralStartsWith15(used: set<nat>)
    requires 15 !in used
    ensures |Unused(GeneralTimers, used)| > 0 && Unused(GeneralTimers, used)[0] == 15
  {
    UnusedPrefix(GeneralTimers, used, 1);
    assert GeneralTimers[..1] == [] + [15];
    UnusedSnoc([], 15, used);
  }

  /** Cutting the pool keeps a prefix of the unused timers. */
  lemma {:induction false} UnusedPrefix(pool: seq<nat>, used: set<nat>, k: nat)
    requires k <= |pool|
    ensures Unused(pool[..k], used) <= Unused(pool, used)
    decreases |pool| - k
  {
    if k < |pool| {
      var short := pool[..|pool| - 1];
      assert short[..k] == pool[..k];
      UnusedPrefix(short, used, k);
    } else {
      assert pool[..k] == pool;
    }
  }

  // ---------------------------------------------------------------------
  // build as written: configurations in the order they are found

  function NamedSlots(reqs: seq<Entry>): seq<U8>
    requires forall i :: 0 <= i < |reqs| ==> ValidRequest(reqs[i].request)
  {
    if |reqs| == 0 then []
    else
      var r := reqs[|reqs| - 1].request;
      NamedSlots(reqs[..|reqs| - 1]) + (if Specific(r) then [IdxMap(r)] else [])
  }

  function Slots(timers: seq<nat>): seq<U8>
  {
    if |timers| == 0 then [] else [IdxMap(timers[0])] + Slots(timers[1..])
  }

  /** The configurations build emits, as written, for requests its loops
      accept: the named timers' slots in request order, then the Any32bit
      slots (each the first unused 32-bit timer's, see Timer32AsWritten),
      then the AnyGeneralPurpose slots, while Init keeps them in
      that order and instance_of looks a request's instance up by the
      request's own position. */
  function ConfigsAsWritten(reqs: seq<Entry>): seq<U8>
    requires forall i :: 0 <= i < |reqs| ==> ValidRequest(reqs[i].request)
  {
    var pool32 := Pool32(reqs);
    var n32 := Count(reqs, Any32bit);
    var general := PoolGeneralAsWritten(reqs);
    var nAny := Count(reqs, AnyGeneralPurpose);
    NamedSlots(reqs) + Slots(seq(n32, _ => At(pool32, 0))) + Slots(Take(general, nAny))
  }

  /** The general pool as build writes it: the unused general timers.  The
      32-bit timers just given to Any32bit requests are never marked in
      used_timers, so they are still in this pool. */
  function PoolGeneralAsWritten(reqs: seq<Entry>): (r: seq<nat>)
    ensures forall x :: x in r <==> x in GeneralTimers && x !in UsedTimers(reqs)
  {
    UnusedSpec(GeneralTimers, UsedTimers(reqs));
    Unused(GeneralTimers, UsedTimers(reqs))
  }

  /** The timer an Any32bit request gets as written: count_32bit_requests is
      never incremented, so every Any32bit request reads the first unused
      32-bit timer, and the only refusal is when there is none. */
  function Timer32AsWritten(reqs: seq<Entry>): (r: Option<nat>)
    ensures r.None? <==> Pool32(reqs) == []
    ensures r.Some? ==> r.value in Bits32Timers && r.value !in UsedTimers(reqs)
  {
    PoolsSpec(reqs);
    if Pool32(reqs) == [] then None else Some(Pool32(reqs)[0])
  }

  const TwoAny32: seq<Entry> := [Entry(Any32bit, []), Entry(Any32bit, [])]

  /** Two Any32bit requests: as written both get TIM2; the corrected build
      gives them TIM2 and TIM5. */
  lemma TwoAny32AsWrittenShareTim2()
    ensures Timer32AsWritten(TwoAny32) == Some(2)
    ensures BuildOk(TwoAny32) && TimerFor(TwoAny32, 0) == 2 && TimerFor(TwoAny32, 1) == 5
  {
    var a := Entry(Any32bit, []);
    assert TwoAny32[..1] == [a] && [a][..0] == [] && TwoAny32[..0] == [];
    RequestsSnoc([], a);
    RequestsSnoc([a], a);
    assert TwoAny32 == [a] + [a];
    Bits32Unused({});
  }

  const Any32ThenSixAny: seq<Entry> :=
    [Entry(Any32bit, []), Entry(AnyGeneralPurpose, []), Entry(AnyGeneralPurpose, []), Entry(AnyGeneralPurpose, []),
     Entry(AnyGeneralPurpose, []), Entry(AnyGeneralPurpose, []), Entry(AnyGeneralPurpose, [])]

  /** One Any32bit request, then six AnyGeneralPurpose ones: the Any32bit
      request takes TIM2, and as written the sixth AnyGeneralPurpose request
      (position 6, after five others) takes the general pool's sixth timer,
      which is TIM2 again. */
  lemma GeneralPoolAsWrittenReusesTim2()
    ensures TimerFor(Any32ThenSixAny, 0) == 2
    ensures Count(Any32ThenSixAny[..6], AnyGeneralPurpose) == 5
    ensures |PoolGeneralAsWritten(Any32ThenSixAny)| == 9 && PoolGeneralAsWritten(Any32ThenSixAny)[5] == 2
  {
    Any32ThenSixAnyCounts();
    Bits32Unused({});
    GeneralUnused({});
  }

  /** The corrected build accepts the same requests and gives the sixth
      AnyGeneralPurpose request TIM5, the general pool without TIM2. */
  lemma Any32ThenSixAnyBuilds()
    ensures BuildOk(Any32ThenSixAny)
    ensures TimerFor(Any32ThenSixAny, 0) == 2 && TimerFor(Any32ThenSixAny, 6) == 5
  {
    Any32ThenSixAnyCounts();
    Bits32Unused({});
    var reqs := Any32ThenSixAny;
    assert Take(Pool32(reqs), 1) == [2];
    var usedGeneral := UsedTimers(reqs) + set x | x in Take(Pool32(reqs), Count(reqs, Any32bit));
    assert usedGeneral == {2};
    GeneralUnused(usedGeneral);
    Bits32Unused(usedGeneral);
    assert PoolGeneral(reqs) == [15, 16, 17, 3, 4, 5, 23, 24];
  }

  lemma Any32ThenSixAnyCounts()
    ensures UsedTimers(Any32ThenSixAny) == {}
    ensures Count(Any32ThenSixAny, Any32bit) == 1 && Count(Any32ThenSixAny, AnyGeneralPurpose) == 6
    ensures Count(Any32ThenSixAny[..0], Any32bit) == 0 && Count(Any32ThenSixAny[..6], AnyGeneralPurpose) == 5
  {
    var r := Any32ThenSixAny;
    var k := 0;
    while k < 6
      invariant k <= 6
      invariant UsedTimers(r[..k]) == {}
      invariant Count(r[..k], Any32bit) == (if k == 0 then 0 else 1)
      invariant Count(r[..k], AnyGeneralPurpose) == (if k == 0 then 0 else k - 1)
    {
      assert r[..k + 1] == r[..k] + [r[k]];
      RequestsSnoc(r[..k], r[k]);
      k := k + 1;
    }
    assert r == r[..6] + [r[6]];
    RequestsSnoc(r[..6], r[6]);
  }

  /** The general pool, timer by timer. */
  lemma GeneralUnused(used: set<nat>)
    ensures Unused(GeneralTimers, used) ==
      (if 15 in used then [] else [15]) + (if 16 in used then [] else [16]) + (if 17 in used then [] else [17]) +
      (if 3 in used then [] else [3]) + (if 4 in used then [] else [4]) + Unused(Bits32Timers, used)
  {
    var g := GeneralTimers;
    assert g[..1] == [] + [15] && g[..2] == g[..1] + [16] && g[..3] == g[..2] + [17];
    assert g[..4] == g[..3] + [3] && g[..5] == g[..4] + [4];
    UnusedSnoc([], 15, used);
    UnusedSnoc(g[..1], 16, used);
    UnusedSnoc(g[..2], 17, used);
    UnusedSnoc(g[..3], 3, used);
    UnusedSnoc(g[..4], 4, used);
    UnusedAppend(g[..5], Bits32Timers, used);
    assert g == g[..5] + Bits32Timers;
  }

  /** Unused distributes over concatenation. */
  lemma {:induction false} UnusedAppend(a: seq<nat>, b: seq<nat>, used: set<nat>)
    ensures Unused(a + b, used) == Unused(a, used) + Unused(b, used)
    decreases |b|
  {
    if |b| > 0 {
      var short := b[..|b| - 1];
      UnusedAppend(a, short, used);
      assert (a + b)[..|a + b| - 1] == a + short;
    } else {
      assert a + b == a;
    }
  }

  const WildcardThenTim1 := [Entry(AnyGeneralPurpose, []), Entry(1, [])]

  /** Any timer, then TIM1: as written the configurations are [TIM1's slot
      14, TIM15's slot 9], so the instance looked up for the TIM1 request
      (position 1) is TIM15, and the wildcard gets TIM1. */
  lemma ConfigsAsWrittenMisplaceNamed()
    ensures ConfigsAsWritten(WildcardThenTim1) == [14, 9] && IdxMap(15) == 9 && IdxMap(1) == 14
  {
    WildcardThenTim1Counts();
    var reqs := WildcardThenTim1;
    assert Slots(seq(0, _ => At(Pool32(reqs), 0))) == [];
    GeneralStartsWith15({1});
    assert Take(Unused(GeneralTimers, UsedTimers(reqs)), 1) == [15];
    assert [15][1..] == [];
  }

  lemma WildcardThenTim1Counts()
    ensures UsedTimers(WildcardThenTim1) == {1} && NamedSlots(WildcardThenTim1) == [14]
    ensures Count(WildcardThenTim1, Any32bit) == 0 && Count(WildcardThenTim1, AnyGeneralPurpose) == 1
    ensures Count(WildcardThenTim1[..0], AnyGeneralPurpose) == 0
  {
    var a := Entry(AnyGeneralPurpose, []);
    assert WildcardThenTim1[..1] == [a];
    assert [a][..0] == [];
    var none: seq<Entry> := [];
    assert NamedSlots(none) == [] && [a][..0] == none;
    assert !Specific(a.request);
    assert NamedSlots([a]) == NamedSlots(none) + [];
    assert UsedTimers([a]) == {} && NamedSlots([a]) == [];
    assert Count([a], Any32bit) == 0 && Count([a], AnyGeneralPurpose) == 1;
  }


  /** The corrected build gives position 1 its named timer and the
      wildcard TIM15. */
  lemma WildcardThenTim1Builds()
    ensures BuildOk(WildcardThenTim1) && TimerFor(WildcardThenTim1, 1) == 1 && TimerFor(WildcardThenTim1, 0) == 15
  {
    WildcardThenTim1Counts();
    Bits32Unused({1});
    var reqs := WildcardThenTim1;
    var usedGeneral := UsedTimers(reqs) + set x | x in Take(Pool32(reqs), Count(reqs, Any32bit));
    assert usedGeneral == {1};
    GeneralStartsWith15(usedGeneral);
  }

}
