// Watchdog: the independent watchdog's prescaler and reload for a refresh
// period.  The counter runs at 8 ticks per millisecond with prescaler 0,
// each prescaler step halves that rate, and the reload register holds 12
// bits.
module IndependentWatchdog {
  import opened Wrappers

  const MaxPeriodUs: int := 32000000
  const MinPeriodUs: int := 125
  const MaxReload: nat := 4095

  /** What start writes into the handle's Init: Prescaler, Reload, Window. */
  datatype IwdgInit = IwdgInit(prescaler: nat, reload: nat, window: nat)

  /** The reload for a period of ms milliseconds, ms * 8 - 1.  For ms = 0
      the source converts -1.0 to uint32_t; the model takes 0 there. */
  function Reload(ms: nat): (r: nat)
    ensures ms > 0 ==> r + 1 == ms * 8
    ensures r <= MaxReload <==> ms <= 512
  {
    if ms == 0 then 0 else ms * 8 - 1
  }

  /** ms halved k times, as the loop halves it. */
  function Halve(ms: nat, k: nat): nat
  {
    if k == 0 then ms else Halve(ms / 2, k - 1)
  }

  /** How many halvings bring the reload within 12 bits. */
  function Halvings(ms: nat): nat
    decreases ms
  {
    if Reload(ms) <= MaxReload then 0 else 1 + Halvings(ms / 2)
  }

  lemma {:induction false} HalveSucc(ms: nat, k: nat)
    ensures Halve(ms, k + 1) == Halve(ms, k) / 2
    decreases k
  {
    if k > 0 {
      HalveSucc(ms / 2, k - 1);
    }
  }

  /** The prescaler Halvings(ms) is the first that fits: the reload it gives
      is within 12 bits, and every smaller prescaler's is not. */
  lemma {:induction false} HalvingsLeast(ms: nat)
    ensures Reload(Halve(ms, Halvings(ms))) <= MaxReload
    ensures forall k :: 0 <= k < Halvings(ms) ==> Reload(Halve(ms, k)) > MaxReload
    decreases ms
  {
    if Reload(ms) > MaxReload {
      HalvingsLeast(ms / 2);
      forall k | 0 <= k < Halvings(ms) ensures Reload(Halve(ms, k)) > MaxReload {
        if k > 0 {
          assert Halve(ms, k) == Halve(ms / 2, k - 1);
        }
      }
    }
  }

  function Pow2(k: nat): (r: nat)
    ensures r >= 1
  {
    if k == 0 then 1 else 2 * Pow2(k - 1)
  }

  lemma {:induction false} HalvingsAtMost(ms: nat, j: nat)
    requires ms <= 512 * Pow2(j)
    ensures Halvings(ms) <= j
    decreases j
  {
    if ms > 512 {
      assert j > 0;
      assert ms / 2 <= 512 * Pow2(j - 1);
      HalvingsAtMost(ms / 2, j - 1);
    }
  }

  /** Every accepted period (at most 32 s, so at most 32000 ms) needs at
      most 6 halvings, the largest prescaler code the counter has. */
  lemma PrescalerAtMostSix(ms: nat)
    requires ms <= MaxPeriodUs / 1000
    ensures Halvings(ms) <= 6
  {
    assert Pow2(6) == 64;
    HalvingsAtMost(ms, 6);
  }

  /** start's computation: the period is refused above 32 s and below
      125 us; otherwise the reload starts at ms * 8 - 1 and ms is halved,
      raising the prescaler, until the reload fits in 12 bits.  The window
      equals the reload. */
  method ComputeInit(periodUs: int) returns (r: Result<IwdgInit>)
    ensures r.Success? <==> MinPeriodUs <= periodUs <= MaxPeriodUs
    ensures r.Success? ==>
      var ms := periodUs / 1000;
      r.value == IwdgInit(Halvings(ms), Reload(Halve(ms, Halvings(ms))), Reload(Halve(ms, Halvings(ms))))
  {
    if periodUs > MaxPeriodUs {
      return Failure("Watchdog refresh interval is too big");
    }
    if periodUs < MinPeriodUs {
      return Failure("Watchdog refresh interval is too short");
    }
    var ms: nat := periodUs / 1000;
    ghost var ms0 := ms;
    var rl := if ms == 0 then 0 else ms * 8 - 1;
    var prescaler: nat := 0;
    while rl > MaxReload
      invariant ms == Halve(ms0, prescaler) && rl == Reload(ms)
      invariant Halvings(ms0) == prescaler + Halvings(ms)
      decreases ms
    {
      HalveSucc(ms0, prescaler);
      ms := ms / 2;
      prescaler := prescaler + 1;
      rl := if ms == 0 then 0 else ms * 8 - 1;
    }
    return Success(IwdgInit(prescaler, rl, rl));
  }

  /** An accepted period yields a reload and window within 12 bits, equal
      to each other, and a prescaler of at most 6. */
  lemma InitInRange(periodUs: int)
    requires MinPeriodUs <= periodUs <= MaxPeriodUs
    ensures var ms := periodUs / 1000;
      Halvings(ms) <= 6 && Reload(Halve(ms, Halvings(ms))) <= MaxReload
  {
    PrescalerAtMostSix(periodUs / 1000);
    HalvingsLeast(periodUs / 1000);
  }

  /** The watchdog: the period set by the constructor and the handle start
      fills in (None until start has run). */
  class Watchdog {
    var periodUs: int
    var handle: Option<IwdgInit>

    constructor (periodUs: int)
      ensures this.periodUs == periodUs && handle == None
    {
      this.periodUs := periodUs;
      handle := None;
    }

    /** start: a refused period is reported (ErrorHandler, which halts) and
        leaves the handle alone; otherwise the handle gets the computed
        settings. */
    method Start() returns (r: Result<IwdgInit>)
      modifies this`handle
      ensures r.Success? <==> MinPeriodUs <= periodUs <= MaxPeriodUs
      ensures r.Success? ==> handle == Some(r.value) && r.value.reload <= MaxReload && r.value.window == r.value.reload && r.value.prescaler <= 6
      ensures r.Failure? ==> handle == old(handle)
    {
      r := ComputeInit(periodUs);
      if r.Success? {
        InitInRange(periodUs);
        handle := Some(r.value);
      }
    }
  }
}
