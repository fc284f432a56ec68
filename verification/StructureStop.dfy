/** The protective stop behind a market structure: how far from entry it may be, and how it
    stays out of opposing zones. */
module StructureStop {
  import opened Common
  import opened Arith
  import opened Prices

  datatype Inputs = Inputs(
    direction: Direction, entry: real, swing: real, atr: real, bufferAtr: real,
    sweep: Option<real>, wickBufferAtr: real, minPips: int, maxPips: int, pip: real, digits: nat)

  datatype Zone = Zone(low: real, high: real, executionGrade: bool, push: bool, bufferAtr: real)

  datatype StopPlan = StopPlan(stop: real, distance: real, pips: real, rawStop: real, clamped: bool, pushed: bool)

  datatype Planning = Planned(plan: StopPlan) | Refused(reason: string)

  /** A price this far on the losing side. */
  function Behind(d: Direction, price: real, distance: real): real {
    if d.Buy? then price - distance else price + distance
  }

  /** Price a is at b or farther on the losing side. */
  predicate Beyond(d: Direction, a: real, b: real) { if d.Buy? then a <= b else a >= b }

  function Farthest(d: Direction, a: real, b: real): real { if Beyond(d, a, b) then a else b }

  function InPips(n: int, pip: real): real { n as real * pip }

  function Scaled(factor: real, atr: real): real { factor * atr }

  function Clamp(x: real, low: real, high: real): real { if x < low then low else if x > high then high else x }

  function Abs(x: real): real { if x >= 0.0 then x else -x }

  predicate Valid(i: Inputs) {
    && i.entry > 0.0 && i.swing > 0.0 && i.atr > 0.0 && i.bufferAtr >= 0.0 && i.wickBufferAtr >= 0.0
    && 0 < i.minPips <= i.maxPips && i.pip > 0.0
  }

  function WickStop(i: Inputs): real
    requires i.sweep.Some?
  {
    Behind(i.direction, i.sweep.value, Scaled(i.wickBufferAtr, i.atr))
  }

  function StructureLevel(i: Inputs): real { Behind(i.direction, i.swing, Scaled(i.bufferAtr, i.atr)) }

  /** The structure and, after a sweep, its wick: whichever is farther. */
  function RawStop(i: Inputs): real {
    if i.sweep.Some? then Farthest(i.direction, StructureLevel(i), WickStop(i)) else StructureLevel(i)
  }

  function ClampedDistance(raw: real, minPips: int, maxPips: int, pip: real): real
    requires pip > 0.0
  {
    Clamp(raw / pip, minPips as real, maxPips as real) * pip
  }

  function BaseStop(i: Inputs): real
    requires Valid(i)
  {
    RoundToTick(Behind(i.direction, i.entry, ClampedDistance(Gain(i.direction, RawStop(i), i.entry), i.minPips,
                                                             i.maxPips, i.pip)),
                TickSize(i.digits))
  }

  function PlanBase(i: Inputs): Planning {
    if !Valid(i) then Refused("inputs")
    else if i.sweep.Some? && i.sweep.value <= 0.0 then Refused("sweep extreme")
    else if i.sweep.Some? && Gain(i.direction, WickStop(i), i.entry) <= 0.0 then Refused("sweep not on the losing side")
    else if i.sweep.Some? && Gain(i.direction, WickStop(i), i.entry) / i.pip > i.maxPips as real then
      Refused("stop_exceeds_envelope_after_wick")
    else if Gain(i.direction, RawStop(i), i.entry) <= 0.0 then Refused("structure not on the losing side")
    else
      var stop := BaseStop(i);
      var distance := Abs(i.entry - stop);
      Planned(StopPlan(stop, distance, distance / i.pip, RawStop(i),
                       distance / i.pip != Gain(i.direction, RawStop(i), i.entry) / i.pip, false))
  }

  function PushedStop(i: Inputs, z: Zone): real {
    RoundToTick(Behind(i.direction, if i.direction.Buy? then z.low else z.high, Scaled(z.bufferAtr, i.atr)),
                TickSize(i.digits))
  }

  /** A stop inside an execution-grade opposing zone is pushed behind the zone, or refused. */
  function ApplyOpposingZoneAdjustment(p: StopPlan, i: Inputs, zone: Option<Zone>): Planning
    requires i.pip > 0.0
  {
    if zone.None? || !zone.value.executionGrade then Planned(p) else
    var z := zone.value;
    if p.stop < z.low || p.stop > z.high then Planned(p)
    else if !z.push then Refused("stop_inside_opposing_zone")
    else
      var stop := PushedStop(i, z);
      var distance := Abs(i.entry - stop);
      if Beyond(i.direction, i.entry, stop) then Refused("push not on the losing side")
      else if distance / i.pip > i.maxPips as real then Refused("stop_inside_opposing_zone")
      else Planned(p.(stop := stop, distance := distance, pips := distance / i.pip, clamped := true, pushed := true))
  }

  function Plan(i: Inputs, zone: Option<Zone>): Planning {
    var base := PlanBase(i);
    if base.Refused? then base else ApplyOpposingZoneAdjustment(base.plan, i, zone)
  }

  // ----- distances --------------------------------------------------------------------------

  lemma ClampScaled(q: real, raw: real, low: real, high: real, lowest: real, highest: real, pip: real)
    requires pip > 0.0 && low <= high && q * pip == raw && low * pip == lowest && high * pip == highest
    ensures var distance := Clamp(q, low, high) * pip;
      && lowest <= distance <= highest
      && (raw <= highest ==> distance >= raw) && (raw >= lowest ==> distance <= raw)
  {
    RealMulMonotone(low, high, pip);
    if q <= low { RealMulMonotone(q, low, pip); } else { RealMulMonotone(low, q, pip); }
    if q <= high { RealMulMonotone(q, high, pip); } else { RealMulMonotone(high, q, pip); }
  }

  /** Clamping keeps the distance in the envelope and never makes it shorter than what it was,
      up to the maximum. */
  lemma ClampKeeps(raw: real, minPips: int, maxPips: int, pip: real)
    requires pip > 0.0 && minPips <= maxPips
    ensures var distance := ClampedDistance(raw, minPips, maxPips, pip);
      && InPips(minPips, pip) <= distance <= InPips(maxPips, pip)
      && (raw <= InPips(maxPips, pip) ==> distance >= raw)
      && (raw >= InPips(minPips, pip) ==> distance <= raw)
  {
    RealDivMul(raw, pip);
    ClampScaled(raw / pip, raw, minPips as real, maxPips as real, InPips(minPips, pip), InPips(maxPips, pip), pip);
  }

  /** Rounding a stop leaves it within half a tick of its distance, and inside any bounds that
      lie on the tick grid. */
  lemma RoundedStop(d: Direction, entry: real, distance: real, low: real, high: real, tick: real)
    requires tick > 0.0 && low <= distance <= high
    ensures var stop := RoundToTick(Behind(d, entry, distance), tick);
      && low - 0.5 * tick <= Gain(d, stop, entry) <= high + 0.5 * tick
      && (OnGrid(Behind(d, entry, low), tick) && OnGrid(Behind(d, entry, high), tick) ==>
            low <= Gain(d, stop, entry) <= high)
  {
    RoundNear(Behind(d, entry, distance), tick);
    if OnGrid(Behind(d, entry, low), tick) && OnGrid(Behind(d, entry, high), tick) {
      RoundOnGrid(Behind(d, entry, low), tick);
      RoundOnGrid(Behind(d, entry, high), tick);
      if d.Buy? {
        RoundMonotone(Behind(d, entry, high), Behind(d, entry, distance), tick);
        RoundMonotone(Behind(d, entry, distance), Behind(d, entry, low), tick);
      } else {
        RoundMonotone(Behind(d, entry, low), Behind(d, entry, distance), tick);
        RoundMonotone(Behind(d, entry, distance), Behind(d, entry, high), tick);
      }
    }
  }

  /** Entry and pip sit on the tick grid. */
  ghost predicate OnTicks(i: Inputs) {
    OnGrid(i.entry, TickSize(i.digits)) && OnGrid(i.pip, TickSize(i.digits))
  }

  /** The zone's edges sit on the tick grid. */
  ghost predicate ZoneOnTicks(i: Inputs, z: Zone) {
    z.bufferAtr >= 0.0 && OnGrid(z.low, TickSize(i.digits)) && OnGrid(z.high, TickSize(i.digits))
  }

  lemma PipsOnGrid(d: Direction, entry: real, n: int, pip: real, tick: real)
    requires tick > 0.0 && OnGrid(entry, tick) && OnGrid(pip, tick)
    ensures OnGrid(Behind(d, entry, InPips(n, pip)), tick)
  {
    var e: int :| IsTicks(entry, e, tick);
    var p: int :| IsTicks(pip, p, tick);
    Reassociate(n as real, p as real, tick);
    RealDistribute(tick, e as real, (n * p) as real);
    assert n as real * p as real == (n * p) as real;
    assert IsTicks(entry - InPips(n, pip), e - n * p, tick);
    assert IsTicks(entry + InPips(n, pip), e + n * p, tick);
  }

  lemma Reassociate(a: real, b: real, c: real)
    ensures a * (b * c) == a * b * c
  {
  }

  // ----- the geometry of a plan -------------------------------------------------------------

  /** A base plan: on the grid; on the losing side between the minimum and the maximum when
      entry and pip are on the grid, and within half a tick of that otherwise. */
  lemma BaseGeometry(i: Inputs)
    requires PlanBase(i).Planned?
    ensures Valid(i)
    ensures var p, tick := PlanBase(i).plan, TickSize(i.digits);
      var loss := Gain(i.direction, p.stop, i.entry);
      && p.stop == BaseStop(i) && OnGrid(p.stop, tick)
      && InPips(i.minPips, i.pip) - 0.5 * tick <= loss <= InPips(i.maxPips, i.pip) + 0.5 * tick
      && (OnTicks(i) ==> InPips(i.minPips, i.pip) <= loss <= InPips(i.maxPips, i.pip))
  {
    var raw := Gain(i.direction, RawStop(i), i.entry);
    var distance, tick := ClampedDistance(raw, i.minPips, i.maxPips, i.pip), TickSize(i.digits);
    ClampKeeps(raw, i.minPips, i.maxPips, i.pip);
    RoundedStop(i.direction, i.entry, distance, InPips(i.minPips, i.pip), InPips(i.maxPips, i.pip), tick);
    RoundIsOnGrid(Behind(i.direction, i.entry, distance), tick);
    if OnTicks(i) {
      PipsOnGrid(i.direction, i.entry, i.minPips, i.pip, tick);
      PipsOnGrid(i.direction, i.entry, i.maxPips, i.pip, tick);
    }
  }

  lemma WithinPips(distance: real, n: int, pip: real)
    requires pip > 0.0
    ensures distance / pip <= n as real <==> distance <= InPips(n, pip)
  {
    RealDivBound(distance, n as real, pip);
  }

  lemma WickIsWithin(i: Inputs)
    requires PlanBase(i).Planned? && i.sweep.Some?
    ensures Gain(i.direction, WickStop(i), i.entry) <= InPips(i.maxPips, i.pip)
    ensures Gain(i.direction, RawStop(i), i.entry) >= Gain(i.direction, WickStop(i), i.entry)
  {
    WithinPips(Gain(i.direction, WickStop(i), i.entry), i.maxPips, i.pip);
  }

  lemma RoundedKeepsWick(d: Direction, entry: real, distance: real, wick: real, tick: real)
    requires tick > 0.0 && distance >= wick
    ensures Gain(d, RoundToTick(Behind(d, entry, distance), tick), entry) >= wick - 0.5 * tick
  {
    RoundNear(Behind(d, entry, distance), tick);
  }

  lemma ClampKeepsWick(raw: real, wick: real, minPips: int, maxPips: int, pip: real)
    requires pip > 0.0 && minPips <= maxPips && wick <= raw && wick <= InPips(maxPips, pip)
    ensures ClampedDistance(raw, minPips, maxPips, pip) >= wick
  {
    ClampKeeps(raw, minPips, maxPips, pip);
  }

  lemma BaseKeepsWick(i: Inputs, wick: real)
    requires Valid(i) && wick <= Gain(i.direction, RawStop(i), i.entry) && wick <= InPips(i.maxPips, i.pip)
    ensures Gain(i.direction, BaseStop(i), i.entry) >= wick - 0.5 * TickSize(i.digits)
  {
    var raw := Gain(i.direction, RawStop(i), i.entry);
    ClampKeepsWick(raw, wick, i.minPips, i.maxPips, i.pip);
    RoundedKeepsWick(i.direction, i.entry, ClampedDistance(raw, i.minPips, i.maxPips, i.pip), wick, TickSize(i.digits));
  }

  /** The envelope never pulls a stop inside the wick of a sweep by more than half a tick. */
  lemma NotInsideTheWick(i: Inputs)
    requires PlanBase(i).Planned? && i.sweep.Some?
    ensures Gain(i.direction, PlanBase(i).plan.stop, i.entry)
         >= Gain(i.direction, WickStop(i), i.entry) - 0.5 * TickSize(i.digits)
  {
    WickIsWithin(i);
    BaseKeepsWick(i, Gain(i.direction, WickStop(i), i.entry));
  }

  /** The stop is not strictly inside the zone. */
  predicate Outside(stop: real, z: Zone) { stop <= z.low || stop >= z.high }

  /** A push lands at the zone's edge or behind it, so farther from entry than the base stop. */
  lemma PushLandsBehind(i: Inputs, z: Zone, base: real)
    requires i.atr > 0.0 && z.bufferAtr >= 0.0 && z.low <= base <= z.high
    requires OnGrid(z.low, TickSize(i.digits)) && OnGrid(z.high, TickSize(i.digits))
    ensures Outside(PushedStop(i, z), z) && Beyond(i.direction, PushedStop(i, z), base)
  {
    var tick, buffer := TickSize(i.digits), Scaled(z.bufferAtr, i.atr);
    RealMulMonotone(0.0, z.bufferAtr, i.atr);
    if i.direction.Buy? {
      RoundMonotone(z.low - buffer, z.low, tick);
      RoundOnGrid(z.low, tick);
    } else {
      RoundMonotone(z.high, z.high + buffer, tick);
      RoundOnGrid(z.high, tick);
    }
  }

  /** A push that is not refused stays on the losing side and within the maximum. */
  lemma PushedWithin(p: StopPlan, i: Inputs, z: Zone)
    requires i.pip > 0.0 && z.executionGrade && z.low <= p.stop <= z.high
    requires ApplyOpposingZoneAdjustment(p, i, Some(z)).Planned?
    ensures var q := ApplyOpposingZoneAdjustment(p, i, Some(z)).plan;
      var loss := Gain(i.direction, q.stop, i.entry);
      q.stop == PushedStop(i, z) && q.pushed && 0.0 < loss <= InPips(i.maxPips, i.pip) && q.distance == loss
      && OnGrid(q.stop, TickSize(i.digits))
  {
    WithinPips(Abs(i.entry - PushedStop(i, z)), i.maxPips, i.pip);
    RoundIsOnGrid(Behind(i.direction, if i.direction.Buy? then z.low else z.high, Scaled(z.bufferAtr, i.atr)),
                  TickSize(i.digits));
  }

  predicate Inside(stop: real, zone: Option<Zone>) {
    zone.Some? && zone.value.executionGrade && zone.value.low <= stop <= zone.value.high
  }

  lemma PlanOnTicks(i: Inputs, zone: Option<Zone>)
    requires Plan(i, zone).Planned? && OnTicks(i)
    requires zone.Some? ==> ZoneOnTicks(i, zone.value)
    ensures var p := Plan(i, zone).plan;
      var loss := Gain(i.direction, p.stop, i.entry);
      && InPips(i.minPips, i.pip) <= loss <= InPips(i.maxPips, i.pip) && loss > 0.0 && p.distance == loss
      && (zone.Some? && zone.value.executionGrade ==> Outside(p.stop, zone.value))
  {
    BaseGeometry(i);
    RealMulMonotone(1.0, i.minPips as real, i.pip);
    var base := PlanBase(i).plan;
    if Inside(base.stop, zone) {
      PushedWithin(base, i, zone.value);
      PushLandsBehind(i, zone.value, base.stop);
    }
  }

  /** The stop is not inside the zone by more than this. */
  predicate OutsideBy(stop: real, z: Zone, slack: real) { stop <= z.low + slack || stop >= z.high - slack }

  /** Off the grid a push may fall short of the zone's edge by half a tick. */
  lemma PushLandsNear(i: Inputs, z: Zone, base: real)
    requires i.atr > 0.0 && z.bufferAtr >= 0.0 && z.low <= base <= z.high
    ensures var tick := TickSize(i.digits);
      && OutsideBy(PushedStop(i, z), z, 0.5 * tick)
      && Gain(i.direction, PushedStop(i, z), i.entry) >= Gain(i.direction, base, i.entry) - 0.5 * tick
  {
    var buffer := Scaled(z.bufferAtr, i.atr);
    RealMulMonotone(0.0, z.bufferAtr, i.atr);
    RoundNear(if i.direction.Buy? then z.low - buffer else z.high + buffer, TickSize(i.digits));
  }

  lemma PlanNearTicks(i: Inputs, zone: Option<Zone>)
    requires Plan(i, zone).Planned? && (zone.Some? ==> zone.value.bufferAtr >= 0.0)
    ensures var p, tick := Plan(i, zone).plan, TickSize(i.digits);
      var loss := Gain(i.direction, p.stop, i.entry);
      && OnGrid(p.stop, tick)
      && InPips(i.minPips, i.pip) - tick <= loss <= InPips(i.maxPips, i.pip) + 0.5 * tick
      && (zone.Some? && zone.value.executionGrade ==> OutsideBy(p.stop, zone.value, 0.5 * tick))
  {
    BaseGeometry(i);
    var base := PlanBase(i).plan;
    if Inside(base.stop, zone) {
      PushedWithin(base, i, zone.value);
      PushLandsNear(i, zone.value, base.stop);
    }
  }

  /** A returned plan, pushed or not: its stop is on the grid, between minimum and maximum, and not
      inside an execution-grade zone. That is exact with entry, pip and zone edges on the grid,
      and then the stop is on the losing side; otherwise rounding may cost half a tick, twice
      after a push. */
  lemma PlanGeometry(i: Inputs, zone: Option<Zone>)
    requires Plan(i, zone).Planned? && (zone.Some? ==> zone.value.bufferAtr >= 0.0)
    ensures var p, tick := Plan(i, zone).plan, TickSize(i.digits);
      var loss, exact := Gain(i.direction, p.stop, i.entry), OnTicks(i) && (zone.Some? ==> ZoneOnTicks(i, zone.value));
      && OnGrid(p.stop, tick)
      && InPips(i.minPips, i.pip) - tick <= loss <= InPips(i.maxPips, i.pip) + 0.5 * tick
      && (exact ==> InPips(i.minPips, i.pip) <= loss <= InPips(i.maxPips, i.pip) && loss > 0.0 && p.distance == loss)
      && (zone.Some? && zone.value.executionGrade ==>
            OutsideBy(p.stop, zone.value, 0.5 * tick) && (exact ==> Outside(p.stop, zone.value)))
  {
    PlanNearTicks(i, zone);
    if OnTicks(i) && (zone.Some? ==> ZoneOnTicks(i, zone.value)) { PlanOnTicks(i, zone); }
  }

  // ----- which stop, and why none -----------------------------------------------------------

  /** The price that invalidates the trade: behind the structure by its buffer and, after a sweep, behind
      the wick by its own, whichever is farther from entry. */
  function Invalidation(i: Inputs): real {
    if i.direction.Buy? then
      var structure := i.swing - i.bufferAtr * i.atr;
      if i.sweep.Some? && i.sweep.value - i.wickBufferAtr * i.atr < structure
      then i.sweep.value - i.wickBufferAtr * i.atr else structure
    else
      var structure := i.swing + i.bufferAtr * i.atr;
      if i.sweep.Some? && i.sweep.value + i.wickBufferAtr * i.atr > structure
      then i.sweep.value + i.wickBufferAtr * i.atr else structure
  }

  /** What is lost between entry and this price. */
  function LossAt(i: Inputs, price: real): real { if i.direction.Buy? then i.entry - price else price - i.entry }

  function WickLoss(i: Inputs): real
    requires i.sweep.Some?
  {
    if i.direction.Buy? then i.entry - (i.sweep.value - i.wickBufferAtr * i.atr)
    else i.sweep.value + i.wickBufferAtr * i.atr - i.entry
  }

  lemma RawIsInvalidation(i: Inputs)
    ensures RawStop(i) == Invalidation(i)
    ensures i.sweep.Some? ==> Gain(i.direction, WickStop(i), i.entry) == WickLoss(i)
    ensures forall price :: LossAt(i, price) == Gain(i.direction, price, i.entry)
  {
  }

  /** A base stop is refused exactly for impossible inputs, a sweep that is not on the losing side or whose
      wick is farther than the maximum, or an invalidation that is not on the losing side. */
  lemma BasePlannedExactly(i: Inputs)
    ensures PlanBase(i).Planned? <==>
      && i.entry > 0.0 && i.swing > 0.0 && i.atr > 0.0 && i.bufferAtr >= 0.0 && i.wickBufferAtr >= 0.0
      && i.minPips > 0 && i.minPips <= i.maxPips && i.pip > 0.0
      && (i.sweep.Some? ==> i.sweep.value > 0.0 && 0.0 < WickLoss(i) <= i.maxPips as real * i.pip)
      && LossAt(i, Invalidation(i)) > 0.0
  {
    RawIsInvalidation(i);
    if i.pip > 0.0 && i.sweep.Some? { RealDivBound(WickLoss(i), i.maxPips as real, i.pip); }
  }

  /** A distance from entry, brought into the envelope. */
  function Enveloped(i: Inputs, wanted: real): real {
    var least, most := i.minPips as real * i.pip, i.maxPips as real * i.pip;
    if wanted < least then least else if wanted > most then most else wanted
  }

  /** A base plan states its distance, in price and in pips, and whether it is not the one asked for. */
  lemma BaseFields(i: Inputs, p: StopPlan)
    requires PlanBase(i) == Planned(p)
    ensures Valid(i) && p.stop == BaseStop(i) && p.rawStop == RawStop(i) && p.distance == Abs(LossAt(i, p.stop))
    ensures p.pips == p.distance / i.pip && !p.pushed
    ensures p.clamped <==> p.distance / i.pip != LossAt(i, p.rawStop) / i.pip
  {
  }

  lemma EnvelopedIs(i: Inputs, wanted: real)
    requires Valid(i)
    ensures ClampedDistance(wanted, i.minPips, i.maxPips, i.pip) == Enveloped(i, wanted)
  {
    ClampedIs(wanted, i.minPips, i.maxPips, i.pip);
  }

  /** A base stop lies where the trade is invalidated, or at the minimum or maximum when that is nearer or
      farther, up to half a tick. */
  lemma BaseStopIsInvalidation(i: Inputs, loss: real)
    requires Valid(i) && loss == Enveloped(i, Gain(i.direction, RawStop(i), i.entry))
    ensures loss - 0.5 * TickSize(i.digits) <= LossAt(i, BaseStop(i)) <= loss + 0.5 * TickSize(i.digits)
  {
    EnvelopedIs(i, Gain(i.direction, RawStop(i), i.entry));
    BaseStopNear(i, loss);
  }

  lemma BaseStopNear(i: Inputs, loss: real)
    requires Valid(i)
    requires loss == ClampedDistance(Gain(i.direction, RawStop(i), i.entry), i.minPips, i.maxPips, i.pip)
    ensures loss - 0.5 * TickSize(i.digits) <= LossAt(i, BaseStop(i)) <= loss + 0.5 * TickSize(i.digits)
  {
    RoundNear(Behind(i.direction, i.entry, loss), TickSize(i.digits));
  }

  lemma ClampedIs(raw: real, minPips: int, maxPips: int, pip: real)
    requires pip > 0.0 && minPips <= maxPips
    ensures var least, most := minPips as real * pip, maxPips as real * pip;
      ClampedDistance(raw, minPips, maxPips, pip) == if raw < least then least else if raw > most then most else raw
  {
    RealDivBound(raw, minPips as real, pip);
    RealDivBound(raw, maxPips as real, pip);
    RealDivMul(raw, pip);
    RealMulMonotone(minPips as real, maxPips as real, pip);
  }

  /** The edge an opposing zone pushes a stop behind, with its buffer. */
  function PushLevel(i: Inputs, z: Zone): real {
    if i.direction.Buy? then z.low - z.bufferAtr * i.atr else z.high + z.bufferAtr * i.atr
  }

  /** A pushed stop lies there, up to half a tick. */
  lemma PushedIs(i: Inputs, z: Zone)
    ensures PushedStop(i, z) == RoundToTick(PushLevel(i, z), TickSize(i.digits))
    ensures PushLevel(i, z) - 0.5 * TickSize(i.digits) <= PushedStop(i, z)
         <= PushLevel(i, z) + 0.5 * TickSize(i.digits)
  {
    var edge := if i.direction.Buy? then z.low else z.high;
    assert Behind(i.direction, edge, Scaled(z.bufferAtr, i.atr)) == PushLevel(i, z);
    RoundNear(PushLevel(i, z), TickSize(i.digits));
  }

  /** A zone that is not of execution grade or does not hold the base stop leaves it alone. */
  lemma OtherZonesLeaveIt(i: Inputs, z: Zone, base: StopPlan)
    requires PlanBase(i) == Planned(base)
    ensures i.pip > 0.0 && Plan(i, Some(z)) == ApplyOpposingZoneAdjustment(base, i, Some(z))
    ensures Plan(i, None) == Planned(base)
    ensures !z.executionGrade || base.stop < z.low || base.stop > z.high ==> Plan(i, Some(z)) == Planned(base)
  {
  }

  /** An opposing zone of execution grade that holds the base stop has it pushed, or refused: when it may
      not be pushed, or would then not lose or lose more than the maximum. */
  lemma PushedExactly(base: StopPlan, i: Inputs, z: Zone, pushed: real)
    requires i.pip > 0.0 && pushed == PushedStop(i, z) && z.executionGrade && z.low <= base.stop <= z.high
    ensures var plan := ApplyOpposingZoneAdjustment(base, i, Some(z));
      && (plan.Planned? <==> z.push && 0.0 < LossAt(i, pushed) <= i.maxPips as real * i.pip)
      && (plan.Planned? ==>
            && plan.plan == base.(stop := pushed, distance := LossAt(i, pushed), pips := plan.plan.pips,
                                  clamped := true, pushed := true)
            && plan.plan.pips * i.pip == plan.plan.distance)
  {
    RealDivMul(Abs(i.entry - pushed), i.pip);
    RealDivBound(Abs(i.entry - pushed), i.maxPips as real, i.pip);
  }
}
