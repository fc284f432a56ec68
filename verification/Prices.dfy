/** Prices, ticks and directions. Prices are exact; a tick is the last digit of a symbol. */
module Prices {
  import opened Arith

  datatype Direction = Buy | Sell

  /** What a unit of volume entered at `entry` gains if it leaves at `price`. */
  function Gain(d: Direction, entry: real, price: real): real {
    if d.Buy? then price - entry else entry - price
  }

  /** Price a protects at least as much as price b. */
  predicate AtLeast(d: Direction, a: real, b: real) { if d.Buy? then a >= b else a <= b }

  predicate MovesTowardProfit(d: Direction, current: real, desired: real) {
    if d.Buy? then desired > current else desired < current
  }

  function SignedPips(d: Direction, entry: real, price: real, pip: real): real
    requires pip > 0.0
  {
    Gain(d, entry, price) / pip
  }

  function TickSize(digits: nat): (tick: real)
    ensures tick > 0.0
  {
    if digits == 0 then 1.0 else TickSize(digits - 1) / 10.0
  }

  function Ceiling(x: real): int { -(-x).Floor }

  /** To the nearest integer, halves away from zero. */
  function RoundAway(x: real): int {
    if x >= 0.0 then (x + 0.5).Floor else -(-x + 0.5).Floor
  }

  function RoundToTick(x: real, tick: real): real
    requires tick > 0.0
  {
    RoundAway(x / tick) as real * tick
  }

  function CeilToTick(x: real, tick: real): real
    requires tick > 0.0
  {
    Ceiling(x / tick) as real * tick
  }

  function FloorToTick(x: real, tick: real): real
    requires tick > 0.0
  {
    (x / tick).Floor as real * tick
  }

  /** To the tick on the protective side. */
  function RoundProtective(d: Direction, x: real, tick: real): real
    requires tick > 0.0
  {
    if d.Buy? then CeilToTick(x, tick) else FloorToTick(x, tick)
  }

  ghost predicate OnGrid(x: real, tick: real)
    requires tick > 0.0
  {
    exists k: int :: IsTicks(x, k, tick)
  }

  predicate IsTicks(x: real, k: int, tick: real) { x == k as real * tick }

  lemma TicksDivide(x: real, k: int, tick: real)
    requires tick > 0.0 && IsTicks(x, k, tick)
    ensures x / tick == k as real
  {
    RealDivBound(x, k as real, tick);
  }

  /** A price on the grid is its own rounding. */
  lemma RoundOnGrid(x: real, tick: real)
    requires tick > 0.0 && OnGrid(x, tick)
    ensures RoundToTick(x, tick) == x
  {
    var k: int :| IsTicks(x, k, tick);
    TicksDivide(x, k, tick);
  }

  lemma RoundIsOnGrid(x: real, tick: real)
    requires tick > 0.0
    ensures OnGrid(RoundToTick(x, tick), tick) && OnGrid(CeilToTick(x, tick), tick)
        && OnGrid(FloorToTick(x, tick), tick)
  {
    assert IsTicks(RoundToTick(x, tick), RoundAway(x / tick), tick);
    assert IsTicks(CeilToTick(x, tick), Ceiling(x / tick), tick);
    assert IsTicks(FloorToTick(x, tick), (x / tick).Floor, tick);
  }

  lemma CeilAbove(x: real, tick: real)
    requires tick > 0.0
    ensures CeilToTick(x, tick) >= x
  {
    RealDivBound(x, Ceiling(x / tick) as real, tick);
  }

  lemma FloorBelow(x: real, tick: real)
    requires tick > 0.0
    ensures FloorToTick(x, tick) <= x
  {
    RealDivBound(x, (x / tick).Floor as real, tick);
  }

  lemma ProtectiveRounding(d: Direction, x: real, tick: real)
    requires tick > 0.0
    ensures AtLeast(d, RoundProtective(d, x, tick), x)
    ensures RoundToTick(RoundProtective(d, x, tick), tick) == RoundProtective(d, x, tick)
    ensures OnGrid(RoundProtective(d, x, tick), tick)
  {
    RoundIsOnGrid(x, tick);
    CeilAbove(x, tick);
    FloorBelow(x, tick);
    RoundOnGrid(RoundProtective(d, x, tick), tick);
  }

  /** No price on the grid that is less protective than the rounded one reaches x. */
  lemma ProtectiveIsLeast(d: Direction, x: real, tick: real, y: real)
    requires tick > 0.0 && OnGrid(y, tick) && MovesTowardProfit(d, y, RoundProtective(d, x, tick))
    ensures MovesTowardProfit(d, y, x)
  {
    var k: int :| IsTicks(y, k, tick);
    RealDivBound(x, k as real, tick);
    if d.Buy? {
      if k >= Ceiling(x / tick) { RealMulMonotone(Ceiling(x / tick) as real, k as real, tick); }
    } else {
      TicksBelow(x, k, tick);
      if k <= (x / tick).Floor { RealMulMonotone(k as real, (x / tick).Floor as real, tick); }
    }
  }

  lemma TicksBelow(x: real, k: int, tick: real)
    requires tick > 0.0
    ensures k as real <= x / tick <==> k as real * tick <= x
  {
    RealDivBound(-x, -(k as real), tick);
    assert -x / tick == -(x / tick);
  }

  /** Halves are rounded away from zero. */
  lemma HalvesGoAway(k: nat)
    ensures RoundAway(k as real + 0.5) == k + 1 && RoundAway(-(k as real + 0.5)) == -1 - k
  {
  }

  lemma RoundMonotone(x: real, y: real, tick: real)
    requires tick > 0.0 && x <= y
    ensures RoundToTick(x, tick) <= RoundToTick(y, tick)
  {
    RealDivBound(x, y / tick, tick);
    assert x / tick <= y / tick;
    RoundAwayMonotone(x / tick, y / tick);
    RealMulMonotone(RoundAway(x / tick) as real, RoundAway(y / tick) as real, tick);
  }

  lemma RoundAwayMonotone(a: real, b: real)
    requires a <= b
    ensures RoundAway(a) <= RoundAway(b)
  {
  }

  lemma NearInTicks(r: real, x: real, k: real, y: real, tick: real)
    requires tick > 0.0 && -0.5 <= k - y <= 0.5 && r == k * tick && x == y * tick
    ensures x - 0.5 * tick <= r <= x + 0.5 * tick
  {
    RealDistribute(tick, y, 0.5);
    RealMulMonotone(k, y + 0.5, tick);
    RealMulMonotone(y - 0.5, k, tick);
  }

  /** Rounding moves a price by at most half a tick. */
  lemma RoundNear(x: real, tick: real)
    requires tick > 0.0
    ensures x - 0.5 * tick <= RoundToTick(x, tick) <= x + 0.5 * tick
  {
    RealDivMul(x, tick);
    NearInTicks(RoundToTick(x, tick), x, RoundAway(x / tick) as real, x / tick, tick);
  }
}
