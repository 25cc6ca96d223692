/** The price as a function of time, its inverse, and exactly where the two agree. */
module Schedule {
  import opened Bounded

  const NANOS_PER_SEC: int := 1_000_000_000

  datatype Kind =
    | Stepped(stepDuration: U64, stepSize: I64)
    | Linear(ratePerSec: I64)

  datatype PriceSchedule = PriceSchedule(start: I64, floor: I64, kind: Kind) {

    /** What the constructors assert. */
    predicate WellFormed() {
      && floor <= start
      && (kind.Stepped? ==> kind.stepSize >= 0)
      && (kind.Linear? ==> kind.ratePerSec >= 0)
    }

    /** A stepped clock of zero-length steps jumps to the floor at once. */
    predicate Ticks() {
      kind.Stepped? ==> kind.stepDuration > 0
    }
  }

  function SaturatingDrop(steps: U64, stepSize: I64): I64 {
    ClampI64(Min(steps, I64_MAX) * stepSize)
  }

  /** How far the clock has fallen after `elapsed`, before clamping to the floor. */
  function Drop(s: PriceSchedule, elapsed: U64): I64
    requires s.WellFormed() && s.Ticks()
  {
    match s.kind
    case Stepped(duration, size) => SaturatingDrop(elapsed / duration, size)
    case Linear(rate) => Min(Min(elapsed * rate, I128_MAX) / NANOS_PER_SEC, I64_MAX)
  }

  function PriceAt(s: PriceSchedule, elapsed: U64): (p: I64)
    requires s.WellFormed()
    ensures s.floor <= p <= s.start
  {
    if !s.Ticks() then s.floor
    else Min(Max(ClampI64(s.start - Drop(s, elapsed)), s.floor), s.start)
  }

  function CeilDiv(n: nat, d: nat): nat
    requires d > 0
  {
    (n + d - 1) / d
  }

  function TimeToReach(s: PriceSchedule, target: I64): Option<U64>
    requires s.WellFormed()
  {
    if target > s.start then Some(0)
    else if target < s.floor then None
    else
      var needed := ClampI64(s.start - target);
      match s.kind
      case Stepped(duration, size) =>
        if size == 0 then (if needed == 0 then Some(0) else None)
        else Some(ClampU64(CeilDiv(needed, size) * Max(duration, 1)))
      case Linear(rate) =>
        if rate == 0 then (if needed == 0 then Some(0) else None)
        else Some(ClampU64(CeilDiv(needed * NANOS_PER_SEC, rate)))
  }

  predicate AtFloor(s: PriceSchedule, elapsed: U64)
    requires s.WellFormed()
  {
    PriceAt(s, elapsed) == s.floor
  }

  // ---------------------------------------------------------------- rounding

  lemma CeilReaches(n: nat, d: nat, k: nat)
    requires d > 0
    ensures CeilDiv(n, d) <= k <==> n <= k * d
  {
    FloorReaches(n + d - 1, d, k + 1);
  }

  // ---------------------------------------------------------------- the adjunction

  /** The instant the clock would reach `target` on unbounded integers; -1 if it never does. */
  function ExactTime(s: PriceSchedule, target: I64): int
    requires s.WellFormed() && s.Ticks()
    requires s.floor <= target < s.start
  {
    match s.kind
    case Stepped(duration, size) => if size == 0 then -1 else CeilDiv(s.start - target, size) * duration
    case Linear(rate) => if rate == 0 then -1 else CeilDiv((s.start - target) * NANOS_PER_SEC, rate)
  }

  lemma SteppedReaches(duration: U64, size: I64, needed: I64, e: U64)
    requires duration > 0 && size > 0 && needed > 0
    ensures SaturatingDrop(e / duration, size) >= needed <==> e >= CeilDiv(needed, size) * duration
  {
    var steps := e / duration;
    CeilReaches(needed, size, steps);
    FloorReaches(e, duration, CeilDiv(needed, size));
    if steps > I64_MAX {
      assert I64_MAX * size >= I64_MAX;
      assert steps * size >= steps;
    }
  }

  /** A linear drop never overflows i128 before it is scaled down. */
  lemma ScaledDropFits(rate: I64, e: U64)
    requires rate >= 0
    ensures 0 <= e * rate <= I128_MAX
  {
    assert e * rate <= U64_MAX * rate;
  }

  lemma LinearReaches(rate: I64, needed: I64, e: U64, product: nat)
    requires rate > 0 && needed > 0 && product == e * rate
    ensures Min(product / NANOS_PER_SEC, I64_MAX) >= needed <==>
            e >= CeilDiv(needed * NANOS_PER_SEC, rate)
  {
    CeilReaches(needed * NANOS_PER_SEC, rate, e);
    FloorReaches(product, NANOS_PER_SEC, needed);
  }

  /** Whether the fall to `target` fits an i64, as it does whenever the floor is not negative. */
  predicate Near(s: PriceSchedule, target: I64) {
    s.start - target <= I64_MAX
  }

  /** The drop saturates, so a target further down is never reached. */
  lemma TooFar(s: PriceSchedule, target: I64, e: U64)
    requires s.WellFormed() && s.Ticks()
    requires !Near(s, target)
    ensures PriceAt(s, e) > target
  {
    DropFits(s, e);
  }

  lemma DropFits(s: PriceSchedule, e: U64)
    requires s.WellFormed() && s.Ticks()
    ensures 0 <= Drop(s, e) <= I64_MAX
  {
    match s.kind
    case Stepped(duration, size) => MulMonotone(size, 0, Min(e / duration, I64_MAX));
    case Linear(rate) => ScaledDropFits(rate, e);
  }

  /** On a target inside the descent the clock is at or below it exactly from `ExactTime` on. */
  lemma ExactTimeIsFirst(s: PriceSchedule, target: I64, e: U64)
    requires s.WellFormed() && s.Ticks()
    requires s.floor <= target < s.start && Near(s, target)
    ensures PriceAt(s, e) <= target <==> 0 <= ExactTime(s, target) <= e
  {
    var needed := s.start - target;
    match s.kind {
      case Stepped(duration, size) =>
        if size > 0 {
          SteppedReaches(duration, size, needed, e);
        } else {
          assert Drop(s, e) == 0;
        }
      case Linear(rate) =>
        if rate > 0 {
          ScaledDropFits(rate, e);
          LinearReaches(rate, needed, e, e * rate);
        } else {
          assert Drop(s, e) == 0;
        }
    }
    assert PriceAt(s, e) <= target <==> Drop(s, e) >= needed;
  }

  /** The reported time is the exact one, saturated to u64. */
  lemma ReportedTime(s: PriceSchedule, target: I64)
    requires s.WellFormed() && s.Ticks()
    requires s.floor <= target < s.start && Near(s, target)
    ensures TimeToReach(s, target) ==
            if ExactTime(s, target) < 0 then None else Some(ClampU64(ExactTime(s, target)))
  {}

  lemma OutsideDescent(s: PriceSchedule, target: I64, e: U64)
    requires s.WellFormed()
    requires target < s.floor || s.start <= target
    ensures ReportsAt(s, target, e)
  {
    if target == s.start {
      assert TimeToReach(s, target) == Some(0) by {
        match s.kind
        case Stepped(duration, size) => assert CeilDiv(0, if size == 0 then 1 else size) == 0;
        case Linear(rate) => assert CeilDiv(0, if rate == 0 then 1 else rate) == 0;
      }
    }
  }

  /** `TimeToReach` answers for one instant `e`: at or below the target from the reported time on,
      and never when no time is reported. */
  ghost predicate ReportsAt(s: PriceSchedule, target: I64, e: U64)
    requires s.WellFormed()
  {
    PriceAt(s, e) <= target <==> (TimeToReach(s, target).Some? && TimeToReach(s, target).value <= e)
  }

  /** The wake-up time is exact at every instant short of the last one u64 can hold, saturated or
      not, for both kinds of schedule. */
  lemma ClockAdjunction(s: PriceSchedule, target: I64, e: U64)
    requires s.WellFormed() && s.Ticks() && Near(s, target)
    requires e < U64_MAX
    ensures ReportsAt(s, target, e)
  {
    if s.floor <= target < s.start {
      ExactTimeIsFirst(s, target, e);
      ReportedTime(s, target);
    } else {
      OutsideDescent(s, target, e);
    }
  }

  /** A price the clock gets down to has a time reported for it, saturated or not. */
  lemma ReachedIsReported(s: PriceSchedule, target: I64, e: U64)
    requires s.WellFormed() && s.Ticks()
    requires PriceAt(s, e) <= target
    ensures TimeToReach(s, target).Some?
  {
    if !Near(s, target) {
      TooFar(s, target, e);
    } else if s.floor <= target < s.start {
      ExactTimeIsFirst(s, target, e);
      ReportedTime(s, target);
    } else {
      OutsideDescent(s, target, e);
    }
  }

  lemma ZeroLengthSteps(s: PriceSchedule, target: I64)
    requires s.WellFormed() && !s.Ticks()
    requires s.floor <= target < s.start
    ensures !ReportsAt(s, target, 0)
  {
    var needed := ClampI64(s.start - target);
    if s.kind.stepSize > 0 {
      CeilReaches(needed, s.kind.stepSize, 0);
    }
  }

  /** A clock that moves is given a time for a target too far down, and is not there by then. */
  lemma TooFarIsPromised(s: PriceSchedule, target: I64)
    requires s.WellFormed() && s.Ticks()
    requires s.floor <= target && !Near(s, target)
    ensures ExactTime(s, target) >= 0 <==> TimeToReach(s, target).Some?
    ensures TimeToReach(s, target).Some? ==> !ReportsAt(s, target, TimeToReach(s, target).value)
    ensures TimeToReach(s, target).None? ==> forall e: U64 :: ReportsAt(s, target, e)
  {
    forall e: U64 ensures PriceAt(s, e) > target {
      TooFar(s, target, e);
    }
    match s.kind
    case Stepped(duration, size) => assert size > 0 ==> CeilDiv(s.start - target, size) * duration >= 0;
    case Linear(rate) => assert rate > 0 ==> CeilDiv((s.start - target) * NANOS_PER_SEC, rate) >= 0;
  }

  /** Exactly when the wake-up time is right at every instant there is: the target is outside the
      descent, or steps have length, the exact time fits u64, and the fall fits an i64 unless the
      clock never moves. */
  lemma ClockAdjunctionExactly(s: PriceSchedule, target: I64)
    requires s.WellFormed()
    ensures (forall e: U64 :: ReportsAt(s, target, e)) <==>
            (target < s.floor || s.start <= target
             || (s.Ticks() && ExactTime(s, target) <= U64_MAX && (Near(s, target) || ExactTime(s, target) < 0)))
  {
    if s.floor <= target < s.start {
      if !s.Ticks() {
        ZeroLengthSteps(s, target);
      } else if !Near(s, target) {
        TooFarIsPromised(s, target);
      } else {
        ReportedTime(s, target);
        forall e: U64 ensures ReportsAt(s, target, e) <==> (e == U64_MAX ==> ExactTime(s, target) <= e) {
          ExactTimeIsFirst(s, target, e);
        }
        var last: U64 := U64_MAX;
        assert ReportsAt(s, target, last) <==> ExactTime(s, target) <= last;
      }
    } else {
      forall e: U64 ensures ReportsAt(s, target, e) {
        OutsideDescent(s, target, e);
      }
    }
  }

  /** The clock only descends. */
  lemma PriceDescends(s: PriceSchedule, e1: U64, e2: U64)
    requires s.WellFormed()
    requires e1 <= e2
    ensures PriceAt(s, e1) >= PriceAt(s, e2)
  {
    if s.Ticks() && PriceAt(s, e1) < s.start {
      DropFits(s, e1);
      ExactTimeIsFirst(s, PriceAt(s, e1), e1);
      ExactTimeIsFirst(s, PriceAt(s, e1), e2);
    }
  }

  // ---------------------------------------------------------------- closed forms

  /** `q` is the quotient exactly when it is at most the ratio and its successor
      is not. */
  lemma QuotientIs(a: nat, b: nat, q: nat)
    requires b > 0
    ensures a / b == q <==> b * q <= a < b * (q + 1)
  {
    FloorReaches(a, b, q);
    FloorReaches(a, b, q + 1);
  }

  /** A linear clock in nanoseconds: until the floor, it has fallen by exactly the whole units that
      `rate` units per thousand million nanoseconds come to. */
  lemma LinearPriceExactly(s: PriceSchedule, e: U64)
    requires s.WellFormed() && s.kind.Linear? && PriceAt(s, e) > s.floor
    requires s.start - PriceAt(s, e) < 0x7FFF_FFFF_FFFF_FFFF
    ensures 1_000_000_000 * (s.start - PriceAt(s, e)) <= e * s.kind.ratePerSec
    ensures e * s.kind.ratePerSec < 1_000_000_000 * (s.start - PriceAt(s, e) + 1)
  {
    var fall: nat := s.start - PriceAt(s, e);
    ScaledDropFits(s.kind.ratePerSec, e);
    DropFits(s, e);
    assert Drop(s, e) == fall;
    QuotientIs(e * s.kind.ratePerSec, 1_000_000_000, fall);
  }

  /** Every whole second costs exactly `rate`, until the floor. */
  lemma LinearPriceBySeconds(s: PriceSchedule, seconds: nat)
    requires s.WellFormed() && s.kind.Linear? && s.floor >= 0
    requires 1_000_000_000 * seconds <= 0xFFFF_FFFF_FFFF_FFFF
    ensures PriceAt(s, 1_000_000_000 * seconds) == Max(s.floor, s.start - seconds * s.kind.ratePerSec)
  {
    var e, rate := 1_000_000_000 * seconds, s.kind.ratePerSec;
    ScaledDropFits(rate, e);
    MulMonotone(rate, 0, seconds);
    assert e * rate == 1_000_000_000 * (seconds * rate);
    QuotientIs(e * rate, 1_000_000_000, seconds * rate);
  }

  /** A stepped clock: until the floor, it has fallen by one `size` for every whole `duration`, and
      stands still in between. */
  lemma SteppedPriceExactly(s: PriceSchedule, k: nat, e: U64)
    requires s.WellFormed() && s.kind.Stepped? && s.floor >= 0
    requires k * s.kind.stepDuration <= e < (k + 1) * s.kind.stepDuration
    ensures PriceAt(s, e) == Max(s.floor, s.start - k * s.kind.stepSize)
  {
    var duration, size := s.kind.stepDuration, s.kind.stepSize;
    QuotientIs(e, duration, k);
    MulMonotone(size, 0, k);
    if k > I64_MAX && size > 0 {
      MulMonotone(size, I64_MAX, k);
      MulMonotone(I64_MAX, 1, size);
    }
  }

  /** Without a step's length there is nothing but the floor. */
  lemma NoStepsNoPrice(s: PriceSchedule, e: U64)
    requires s.WellFormed() && s.kind.Stepped? && s.kind.stepDuration == 0
    ensures PriceAt(s, e) == s.floor
  {}
}
