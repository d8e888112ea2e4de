/** The cost controller: one tick of the storage budget loop, and the loop it closes with
    the sampler, whose byte rate is proportional to the sampling floor. */
module CostController {

  const DEADBAND := 0.15
  const MAX_STEP := 0.5
  const FLOOR_MIN := 0.0001
  const FLOOR_MAX := 1.0
  const SIGNAL_CAPACITY := 64
  /** Ticks in the documented settling target: 30 minutes at one signal per minute. */
  const SETTLING_TICKS := 30

  datatype Watermark = WMNormal | WMWarn | WMHigh | WMCritical

  datatype CostSignal = CostSignal(tenant: string, observed: real, budget: real, currentFloor: real,
                                   recommendedFloor: real, diskUsedRatio: real, watermark: Watermark, emittedAt: int)

  function WatermarkFor(diskUsedRatio: real): Watermark {
    if diskUsedRatio >= 0.95 then WMCritical
    else if diskUsedRatio >= 0.85 then WMHigh
    else if diskUsedRatio >= 0.80 then WMWarn
    else WMNormal
  }

  /** The fuller the disk the higher the watermark, which changes at 80, 85 and 95 percent. */
  lemma WatermarkRises(x: real, y: real)
    ensures x <= y ==> Height(WatermarkFor(x)) <= Height(WatermarkFor(y))
    ensures 100.0 * x >= 80.0 <==> Height(WatermarkFor(x)) >= 1
    ensures 100.0 * x >= 85.0 <==> Height(WatermarkFor(x)) >= 2
    ensures 100.0 * x >= 95.0 <==> Height(WatermarkFor(x)) >= 3
  {
  }

  function Height(w: Watermark): nat {
    match w
    case WMNormal => 0
    case WMWarn => 1
    case WMHigh => 2
    case WMCritical => 3
  }

  function Ratio(observed: real, budget: real): real {
    if budget > 0.0 then observed / budget else 0.0
  }

  function NextFloor(ratio: real, floor: real): real {
    var diff := ratio - 1.0;
    if diff > DEADBAND || diff < -DEADBAND then
      var step := if floor * MAX_STEP <= 0.0 then FLOOR_MIN else floor * MAX_STEP;
      var moved := if ratio > 1.0 then floor - step else floor + step;
      if moved < FLOOR_MIN then FLOOR_MIN else if moved > FLOOR_MAX then FLOOR_MAX else moved
    else floor
  }

  class TieredStore {
    /** The buffered signal channel, oldest first. */
    var signals: seq<CostSignal>

    constructor ()
      ensures signals == []
    {
      signals := [];
    }

    method EmitCostSignal(tenant: string, observed: real, budget: real, currentFloor: real,
                          diskUsedRatio: real, now: int) returns (sig: CostSignal)
      modifies this
      ensures sig == CostSignal(tenant, observed, budget, currentFloor,
                                NextFloor(Ratio(observed, budget), currentFloor),
                                diskUsedRatio, WatermarkFor(diskUsedRatio), now)
      ensures signals == if |old(signals)| < SIGNAL_CAPACITY then old(signals) + [sig] else old(signals)
    {
      var ratio := 0.0;
      if budget > 0.0 {
        ratio := observed / budget;
      }
      var wm := WatermarkFor(diskUsedRatio);
      var newFloor := currentFloor;
      var diff := ratio - 1.0;
      if diff > DEADBAND || diff < -DEADBAND {
        var step := currentFloor * MAX_STEP;
        if step <= 0.0 {
          step := FLOOR_MIN;
        }
        if ratio > 1.0 {
          newFloor := currentFloor - step;
        } else {
          newFloor := currentFloor + step;
        }
        if newFloor < FLOOR_MIN {
          newFloor := FLOOR_MIN;
        }
        if newFloor > FLOOR_MAX {
          newFloor := FLOOR_MAX;
        }
      }
      sig := CostSignal(tenant, observed, budget, currentFloor, newFloor, diskUsedRatio, wm, now);
      if |signals| < SIGNAL_CAPACITY {
        signals := signals + [sig];
      }
    }
  }

  // ---------- The closed loop ----------

  ghost function Tick(g: real, f: real): real { NextFloor(g * f, f) }

  /** n ticks of the loop in which the observed-to-budget ratio is g times the floor. */
  ghost function Iterate(g: real, f: real, n: nat): real
    decreases n
  {
    if n == 0 then f else Tick(g, Iterate(g, f, n - 1))
  }

  predicate InRange(f: real) { FLOOR_MIN <= f <= FLOOR_MAX }

  predicate InBand(ratio: real) { 1.0 - DEADBAND <= ratio <= 1.0 + DEADBAND }

  /** On target, or pinned at the clamp on the side the budget asks for. */
  predicate Settled(g: real, f: real) {
    InBand(g * f) || (f == FLOOR_MIN && g * f > 1.0 + DEADBAND) || (f == FLOOR_MAX && g * f < 1.0 - DEADBAND)
  }

  ghost predicate Settles(g: real, f: real, n: nat) { Settled(g, Iterate(g, f, n)) }

  /** Between these ratios the lowest floor undershoots and the next floor up overshoots. */
  predicate Oscillates(g: real) { 23.0 / 30.0 < g * FLOOR_MIN < 17.0 / 20.0 }

  /** Settled floors are exactly the ones a tick leaves alone. */
  lemma SettledIsFixed(g: real, f: real)
    requires g > 0.0 && InRange(f)
    ensures Settled(g, f) <==> Tick(g, f) == f
    ensures InRange(Tick(g, f))
  {
  }

  /** A settled loop never moves again. */
  lemma {:induction false} SettledForever(g: real, f: real, n: nat, k: nat)
    requires g > 0.0 && InRange(f) && Settles(g, f, n) && n <= k
    ensures Iterate(g, f, k) == Iterate(g, f, n)
    decreases k
  {
    InRangeForever(g, f, n);
    SettledIsFixed(g, Iterate(g, f, n));
    if n < k {
      SettledForever(g, f, n, k - 1);
      assert Iterate(g, f, k) == Tick(g, Iterate(g, f, k - 1));
    }
  }

  lemma {:induction false} InRangeForever(g: real, f: real, n: nat)
    requires g > 0.0 && InRange(f)
    ensures InRange(Iterate(g, f, n))
    decreases n
  {
    if n > 0 {
      InRangeForever(g, f, n - 1);
      SettledIsFixed(g, Iterate(g, f, n - 1));
    }
  }

  /** A byte rate of g times the floor, in units of the budget, gives the loop's ratio. */
  lemma LoadGivesRatio(g: real, f: real, observed: real, budget: real)
    requires budget > 0.0 && observed == (g * f) * budget
    ensures Ratio(observed, budget) == g * f
  {
    var r := g * f;
    assert (r * budget) / budget == r;
  }

  // The same loop seen through the ratio alone. With m the ratio at the lowest floor, the
  // ratio at the highest floor is 10000 m, and a tick is linear.

  ghost function RatioTick(m: real, r: real): real {
    if r > 1.15 then (if 0.5 * r < m then m else 0.5 * r)
    else if r < 0.85 then (if 1.5 * r > 10000.0 * m then 10000.0 * m else 1.5 * r)
    else r
  }

  ghost function RatioIterate(m: real, r: real, n: nat): real
    decreases n
  {
    if n == 0 then r else RatioIterate(m, RatioTick(m, r), n - 1)
  }

  ghost predicate RatioSettled(m: real, r: real) {
    0.85 <= r <= 1.15 || (r == m && r > 1.15) || (r == 10000.0 * m && r < 0.85)
  }

  ghost predicate RatioSettles(m: real, r: real, n: nat) { RatioSettled(m, RatioIterate(m, r, n)) }

  ghost predicate RatioOk(m: real, r: real) { 0.0 < m <= r <= 10000.0 * m }

  lemma Products(g: real, x: real, y: real, gx: real, gy: real)
    requires g > 0.0 && gx == g * x && gy == g * y
    ensures (gx < gy <==> x < y) && (gx == gy <==> x == y)
  {
    if x < y { Positive(g, y - x); }
    if y < x { Positive(g, x - y); }
  }

  lemma Positive(a: real, b: real)
    requires a > 0.0 && b > 0.0
    ensures a * b > 0.0
  {
  }

  lemma Scaled(g: real, k: real, x: real)
    ensures g * (k * x) == k * (g * x)
  {
  }

  /** Multiplying a floor by g turns its comparisons with a bound into comparisons of ratios. */
  lemma Compare(g: real, k: real, f: real, r: real, bound: real, b: real)
    requires g > 0.0 && r == g * f && b == g * bound
    ensures (k * r < b <==> k * f < bound) && (k * r > b <==> k * f > bound) && (k * r == b <==> k * f == bound)
  {
    Scaled(g, k, f);
    Products(g, k * f, bound, k * r, b);
    Products(g, bound, k * f, b, k * r);
  }

  lemma HighestRatio(g: real, m: real)
    requires m == g * FLOOR_MIN
    ensures g * FLOOR_MAX == 10000.0 * m
  {
  }

  lemma Scales(g: real, f: real, m: real, r: real)
    requires g > 0.0 && InRange(f) && m == g * FLOOR_MIN && r == g * f
    ensures RatioOk(m, r)
    ensures (r == m <==> f == FLOOR_MIN) && (r == 10000.0 * m <==> f == FLOOR_MAX)
  {
    HighestRatio(g, m);
    Positive(g, FLOOR_MIN);
    Compare(g, 1.0, f, r, FLOOR_MIN, m);
    Compare(g, 1.0, f, r, FLOOR_MAX, 10000.0 * m);
  }

  lemma StepsDown(g: real, f: real, m: real, r: real)
    requires g > 0.0 && InRange(f) && m == g * FLOOR_MIN && r == g * f && r > 1.15
    ensures g * NextFloor(r, f) == RatioTick(m, r) && InRange(NextFloor(r, f))
  {
    Compare(g, 0.5, f, r, FLOOR_MIN, m);
    Scaled(g, 0.5, f);
    assert NextFloor(r, f) == if 0.5 * f < FLOOR_MIN then FLOOR_MIN else 0.5 * f;
  }

  lemma StepsUp(g: real, f: real, m: real, r: real)
    requires g > 0.0 && InRange(f) && m == g * FLOOR_MIN && r == g * f && r < 0.85
    ensures g * NextFloor(r, f) == RatioTick(m, r) && InRange(NextFloor(r, f))
  {
    HighestRatio(g, m);
    Compare(g, 1.5, f, r, FLOOR_MAX, 10000.0 * m);
    Scaled(g, 1.5, f);
    assert NextFloor(r, f) == if 1.5 * f > FLOOR_MAX then FLOOR_MAX else 1.5 * f;
  }

  lemma TickRefines(g: real, f: real, m: real, r: real)
    requires g > 0.0 && InRange(f) && m == g * FLOOR_MIN && r == g * f
    ensures g * NextFloor(r, f) == RatioTick(m, r) && InRange(NextFloor(r, f))
  {
    if r > 1.15 { StepsDown(g, f, m, r); }
    if r < 0.85 { StepsUp(g, f, m, r); }
  }

  lemma SettledRefines(g: real, f: real, m: real, r: real)
    requires g > 0.0 && InRange(f) && m == g * FLOOR_MIN && r == g * f
    ensures Settled(g, f) <==> RatioSettled(m, r)
  {
    Scales(g, f, m, r);
  }

  lemma {:induction false} RatioLast(m: real, r: real, n: nat)
    requires n > 0
    ensures RatioIterate(m, r, n) == RatioTick(m, RatioIterate(m, r, n - 1))
    decreases n
  {
    if n > 1 { RatioLast(m, RatioTick(m, r), n - 1); }
  }

  lemma TickInStep(g: real, f: real, m: real, r: real, next: real)
    requires g > 0.0 && InRange(f) && m == g * FLOOR_MIN && r == g * f && next == Tick(g, f)
    ensures InRange(next) && g * next == RatioTick(m, r)
  {
    TickRefines(g, f, m, r);
  }

  lemma {:induction false} IterateRefines(g: real, f: real, n: nat, m: real, r: real, last: real)
    requires g > 0.0 && InRange(f) && m == g * FLOOR_MIN && r == g * f && last == Iterate(g, f, n)
    ensures InRange(last) && g * last == RatioIterate(m, r, n)
    decreases n
  {
    if n > 0 {
      var x := Iterate(g, f, n - 1);
      IterateRefines(g, f, n - 1, m, r, x);
      var y := RatioIterate(m, r, n - 1);
      TickInStep(g, x, m, y, last);
      RatioLast(m, r, n);
    }
  }

  lemma SettlesRefines(g: real, f: real, n: nat, m: real, r: real)
    requires g > 0.0 && InRange(f) && m == g * FLOOR_MIN && r == g * f
    ensures Settles(g, f, n) <==> RatioSettles(m, r, n)
  {
    IterateRefines(g, f, n, m, r, Iterate(g, f, n));
    SettledRefines(g, Iterate(g, f, n), m, RatioIterate(m, r, n));
  }

  lemma {:induction false} StaysSettled(m: real, r: real, n: nat)
    requires RatioOk(m, r) && RatioSettled(m, r)
    ensures RatioIterate(m, r, n) == r
    decreases n
  {
    if n > 0 { StaysSettled(m, r, n - 1); }
  }

  lemma {:induction false} SettlesLater(m: real, r: real, n: nat, k: nat)
    requires RatioOk(m, r) && RatioSettles(m, r, n) && n <= k
    ensures RatioSettles(m, r, k)
    decreases n
  {
    if n == 0 {
      StaysSettled(m, r, k);
    } else {
      SettlesLater(m, RatioTick(m, r), n - 1, k - 1);
    }
  }

  ghost predicate RatioOscillates(m: real) { 23.0 / 30.0 < m < 0.85 }

  /** The lowest floor settles within a tick once it is not far below target. */
  lemma FromMinimum(m: real)
    requires m > 0.575 && !RatioOscillates(m)
    ensures RatioSettles(m, m, 1)
  {
    assert RatioIterate(m, m, 1) == RatioIterate(m, RatioTick(m, m), 0);
  }

  /** A slight overshoot is corrected by one halving and one step up. */
  lemma Overshoot(m: real, r: real)
    requires RatioOk(m, r) && 1.15 < r < 1.275 && !RatioOscillates(m)
    ensures RatioSettles(m, r, 2)
  {
    if 0.5 * r < m {
      FromMinimum(m);
    } else {
      assert RatioIterate(m, 0.5 * r, 1) == RatioIterate(m, 0.75 * r, 0);
    }
  }

  lemma Undershoot(m: real, r: real)
    requires RatioOk(m, r) && r <= 5000.0 * m && 0.575 < r < 0.85 && !RatioOscillates(m)
    ensures RatioSettles(m, r, 3)
  {
    if 1.5 * r <= 1.15 {
      StaysSettled(m, 1.5 * r, 2);
    } else {
      Overshoot(m, 1.5 * r);
    }
  }

  ghost function Doubled(x: real, n: nat): real {
    if n == 0 then x else 2.0 * Doubled(x, n - 1)
  }

  ghost function Grown(x: real, n: nat): real
    decreases n
  {
    if n == 0 then x else Grown(1.5 * x, n - 1)
  }

  lemma {:induction false} DownPhase(m: real, r: real, n: nat)
    requires RatioOk(m, r) && r > 1.15 && r <= Doubled(m, n) && !RatioOscillates(m)
    ensures RatioSettles(m, r, n + 3)
    decreases n
  {
    if n == 0 {
      StaysSettled(m, r, 3);
    } else if 0.5 * r < m {
      FromMinimum(m);
      SettlesLater(m, m, 1, n + 2);
    } else if 0.5 * r > 1.15 {
      DownPhase(m, 0.5 * r, n - 1);
    } else if 0.5 * r >= 0.85 {
      StaysSettled(m, 0.5 * r, n + 2);
    } else {
      Undershoot(m, 0.5 * r);
      SettlesLater(m, 0.5 * r, 3, n + 2);
    }
  }

  lemma {:induction false} UpPhase(m: real, r: real, n: nat)
    requires RatioOk(m, r) && r < 0.85 && Grown(r, n) >= 10000.0 * m && !RatioOscillates(m)
    ensures RatioSettles(m, r, n + 2)
    decreases n
  {
    var r' := RatioTick(m, r);
    if r == 10000.0 * m {
      StaysSettled(m, r, n + 2);
    } else if r' < 0.85 {
      if r' == 10000.0 * m {
        StaysSettled(m, r', n + 1);
      } else {
        UpPhase(m, r', n - 1);
      }
    } else if r' <= 1.15 {
      StaysSettled(m, r', n + 1);
    } else {
      Overshoot(m, r');
      SettlesLater(m, r', 2, n + 1);
    }
  }

  lemma {:induction false} GrownMonotone(x: real, y: real, n: nat)
    requires x <= y
    ensures Grown(x, n) <= Grown(y, n)
    decreases n
  {
    if n > 0 { GrownMonotone(1.5 * x, 1.5 * y, n - 1); }
  }

  /** Fourteen halvings or twenty-three steps up cross the whole range of floors. */
  lemma RangeCrossed(m: real)
    requires m > 0.0
    ensures Doubled(m, 14) >= 10000.0 * m && Grown(m, 23) >= 10000.0 * m
  {
    DoubledFour(m, 0);
    DoubledFour(m, 4);
    DoubledFour(m, 8);
    GrownFour(m, 19);
    GrownFour(5.0625 * m, 15);
    GrownFour(5.0625 * 5.0625 * m, 11);
    GrownFour(5.0625 * 5.0625 * 5.0625 * m, 7);
    GrownFour(5.0625 * 5.0625 * 5.0625 * 5.0625 * m, 3);
    GrownThree(5.0625 * 5.0625 * 5.0625 * 5.0625 * 5.0625 * m);
  }

  lemma GrownThree(x: real)
    ensures Grown(x, 3) == 3.375 * x
  {
    assert Grown(x, 3) == Grown(2.25 * x, 1);
  }

  lemma DoubledFour(x: real, n: nat)
    ensures Doubled(x, n + 4) == 16.0 * Doubled(x, n)
  {
    assert Doubled(x, n + 2) == 4.0 * Doubled(x, n);
  }

  lemma GrownFour(x: real, n: nat)
    ensures Grown(x, n + 4) == Grown(5.0625 * x, n)
  {
    assert Grown(x, n + 4) == Grown(2.25 * x, n + 2);
  }

  lemma SettlesInTime(m: real, r: real)
    requires RatioOk(m, r) && !RatioOscillates(m)
    ensures RatioSettles(m, r, SETTLING_TICKS)
  {
    RangeCrossed(m);
    if RatioSettled(m, r) {
      StaysSettled(m, r, SETTLING_TICKS);
    } else if r > 1.15 {
      DownPhase(m, r, 14);
      SettlesLater(m, r, 17, SETTLING_TICKS);
    } else {
      GrownMonotone(m, r, 23);
      UpPhase(m, r, 23);
      SettlesLater(m, r, 25, SETTLING_TICKS);
    }
  }

  lemma {:induction false} TwoCycle(m: real, n: nat)
    requires RatioOscillates(m)
    ensures RatioIterate(m, m, n) == if n % 2 == 0 then m else 1.5 * m
    ensures !RatioSettles(m, m, n)
    decreases n
  {
    if n == 1 {
      assert RatioIterate(m, m, 1) == RatioIterate(m, 1.5 * m, 0);
    } else if n > 1 {
      TwoCycle(m, n - 2);
      assert RatioIterate(m, m, n) == RatioIterate(m, 1.5 * m, n - 1) == RatioIterate(m, m, n - 2);
    }
  }

  /** In units of the budget: every floor settles in time exactly when the load does not put the
      lowest floor in the oscillating window; in that window the lowest floor never settles. */
  lemma SettlesByLoad(g: real)
    requires g > 0.0
    ensures (forall f :: InRange(f) ==> Settles(g, f, SETTLING_TICKS)) <==> !Oscillates(g)
    ensures Oscillates(g) ==> forall n: nat :: !Settles(g, FLOOR_MIN, n)
  {
    var m := g * FLOOR_MIN;
    if Oscillates(g) {
      forall n: nat ensures !Settles(g, FLOOR_MIN, n) {
        SettlesRefines(g, FLOOR_MIN, n, m, m);
        TwoCycle(m, n);
      }
      assert InRange(FLOOR_MIN) && !Settles(g, FLOOR_MIN, SETTLING_TICKS);
    } else {
      forall f | InRange(f) ensures Settles(g, f, SETTLING_TICKS) {
        var r := g * f;
        Scales(g, f, m, r);
        SettlesInTime(m, r);
        SettlesRefines(g, f, SETTLING_TICKS, m, r);
      }
    }
  }

  // ---------- The loop over bytes and budget ----------

  /** One tick when a floor of f lets through load * f bytes. */
  ghost function LoopTick(load: real, budget: real, f: real): real { NextFloor(Ratio(load * f, budget), f) }

  ghost function Loop(load: real, budget: real, f: real, n: nat): real
    decreases n
  {
    if n == 0 then f else LoopTick(load, budget, Loop(load, budget, f, n - 1))
  }

  /** After n ticks the floor no longer moves. */
  ghost predicate Still(load: real, budget: real, f: real, n: nat) {
    Loop(load, budget, f, n + 1) == Loop(load, budget, f, n)
  }

  lemma {:induction false} LoopIsIterate(load: real, budget: real, g: real, f: real, n: nat)
    requires budget > 0.0 && load == g * budget
    ensures Loop(load, budget, f, n) == Iterate(g, f, n)
    decreases n
  {
    hide LoopTick, Tick;
    if n > 0 {
      LoopIsIterate(load, budget, g, f, n - 1);
      TickIsTick(load, budget, g, Iterate(g, f, n - 1));
    }
  }

  lemma TickIsTick(load: real, budget: real, g: real, x: real)
    requires budget > 0.0 && load == g * budget
    ensures LoopTick(load, budget, x) == Tick(g, x)
  {
    hide NextFloor, Ratio;
    Regroup(g, budget, x);
    LoadGivesRatio(g, x, load * x, budget);
  }

  lemma Regroup(a: real, b: real, c: real)
    ensures (a * b) * c == (a * c) * b
  {
  }

  lemma StillIsSettled(load: real, budget: real, g: real, f: real, n: nat)
    requires budget > 0.0 && g > 0.0 && load == g * budget && InRange(f)
    ensures Still(load, budget, f, n) <==> Settles(g, f, n)
  {
    LoopIsIterate(load, budget, g, f, n);
    LoopIsIterate(load, budget, g, f, n + 1);
    InRangeForever(g, f, n);
    SettledIsFixed(g, Iterate(g, f, n));
  }

  /** The loads for which the lowest floor undershoots the budget and the next floor up
      overshoots it. */
  predicate Hunts(load: real, budget: real) {
    23.0 / 30.0 * budget < load * FLOOR_MIN < 17.0 / 20.0 * budget
  }

  lemma HuntsAtRatio(load: real, budget: real, g: real)
    requires budget > 0.0 && load == g * budget
    ensures Hunts(load, budget) <==> Oscillates(g)
  {
    var r := g * FLOOR_MIN;
    Regroup(g, budget, FLOOR_MIN);
    Compare(budget, 1.0, r, budget * r, 23.0 / 30.0, budget * (23.0 / 30.0));
    Compare(budget, 1.0, r, budget * r, 17.0 / 20.0, budget * (17.0 / 20.0));
  }

  /** The controller brings every floor to rest within its settling target exactly when the
      observed bytes at the lowest floor lie outside a window below the budget; inside it the
      lowest floor never comes to rest at all. */
  lemma SettlesExactly(load: real, budget: real)
    requires load > 0.0 && budget > 0.0
    ensures (forall f :: InRange(f) ==> Still(load, budget, f, SETTLING_TICKS)) <==> !Hunts(load, budget)
    ensures Hunts(load, budget) ==> forall n: nat :: !Still(load, budget, FLOOR_MIN, n)
  {
    var g := load / budget;
    assert load == g * budget;
    HuntsAtRatio(load, budget, g);
    SettlesByLoad(g);
    forall f, n: nat | InRange(f) ensures Still(load, budget, f, n) <==> Settles(g, f, n) {
      StillIsSettled(load, budget, g, f, n);
    }
    assert Hunts(load, budget) ==> !Still(load, budget, FLOOR_MIN, SETTLING_TICKS) && InRange(FLOOR_MIN);
  }

  /** There it alternates between the lowest floor and half as much again. */
  lemma {:induction false} FloorAlternates(load: real, budget: real, n: nat)
    requires budget > 0.0 && Hunts(load, budget)
    ensures Loop(load, budget, FLOOR_MIN, n) == if n % 2 == 0 then FLOOR_MIN else 1.5 * FLOOR_MIN
    decreases n
  {
    if n == 0 { return; }
    var g := load / budget;
    assert load == g * budget;
    HuntsAtRatio(load, budget, g);
    FloorAlternates(load, budget, n - 1);
    TickIsTick(load, budget, g, Loop(load, budget, FLOOR_MIN, n - 1));
    Scaled(g, 1.5, FLOOR_MIN);
  }

  /** With no budget set, or nothing observed, the floor climbs to the highest in that time. */
  lemma NothingToSpendRises(load: real, budget: real, f: real)
    requires (load == 0.0 || budget <= 0.0) && InRange(f)
    ensures Loop(load, budget, f, SETTLING_TICKS) == FLOOR_MAX
  {
    SettlesByLoad(0.5);
    LikeHalfLoad(load, budget, f, SETTLING_TICKS);
    InRangeForever(0.5, f, SETTLING_TICKS);
    assert Settles(0.5, f, SETTLING_TICKS);
  }

  lemma {:induction false} LikeHalfLoad(load: real, budget: real, f: real, n: nat)
    requires (load == 0.0 || budget <= 0.0) && InRange(f)
    ensures Loop(load, budget, f, n) == Iterate(0.5, f, n)
    decreases n
  {
    if n > 0 {
      LikeHalfLoad(load, budget, f, n - 1);
      InRangeForever(0.5, f, n - 1);
    }
  }
}
