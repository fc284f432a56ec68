/** Where a protective stop moves after a booked target. */
module StopTrail {
  import opened Common
  import opened Arith
  import opened Prices

  /** The part of a tracked position the planner reads. `ordinals` numbers the targets within
      the group's ladder; without it target i has number i + 1. `prices` are absolute targets. */
  datatype Clip = Clip(
    direction: Direction, entry: real, remaining: int,
    pips: seq<int>, ordinals: Option<seq<int>>, prices: Option<seq<real>>,
    stop: Option<real>, initialStop: Option<real>)

  datatype Planning<T> = Planned(move: T) | Refused(reason: string)

  // ----- one absolute stop for the whole group ----------------------------------------

  function Volumes(clips: seq<Clip>): seq<real> {
    seq(|clips|, i requires 0 <= i < |clips| => clips[i].remaining as real)
  }

  function Entries(clips: seq<Clip>): seq<real> {
    seq(|clips|, i requires 0 <= i < |clips| => clips[i].entry * clips[i].remaining as real)
  }

  function RemainingVolume(clips: seq<Clip>): real { RSum(Volumes(clips)) }

  /** Sum of entry price times remaining volume. */
  function EntryValue(clips: seq<Clip>): real { RSum(Entries(clips)) }

  function Boundary(c: Clip): Option<real> { if c.stop.Some? then c.stop else c.initialStop }

  /** The most protective of `desired` and the stops the clips already have. */
  function NeverLooser(d: Direction, desired: real, clips: seq<Clip>): (r: real)
    ensures AtLeast(d, r, desired)
    ensures forall c | c in clips && Boundary(c).Some? :: AtLeast(d, r, Boundary(c).value)
    ensures r == desired || exists c | c in clips :: Boundary(c) == Some(r)
  {
    if clips == [] then desired else
    var r := NeverLooser(d, desired, clips[..|clips| - 1]);
    assert forall c | c in clips :: c in clips[..|clips| - 1] || c == clips[|clips| - 1];
    var b := Boundary(clips[|clips| - 1]);
    if b.Some? && MovesTowardProfit(d, r, b.value) then b.value else r
  }

  predicate Holds(c: Clip, stop: real) {
    c.stop.Some? && !MovesTowardProfit(c.direction, c.stop.value, stop)
  }

  function TargetPipVolume(groupVolume: int, tick: real, pip: real, bufferTicks: int): real
    requires pip > 0.0
  {
    bufferTicks as real * tick / pip * groupVolume as real
  }

  /** Pip-volume that what is left has to bring in. */
  function Unfunded(groupVolume: int, booked: real, tick: real, pip: real, bufferTicks: int): real
    requires pip > 0.0
  {
    TargetPipVolume(groupVolume, tick, pip, bufferTicks) - booked
  }

  /** The price at which the clips, left together, bring in exactly what is unfunded. */
  function EvenPrice(clips: seq<Clip>, unfunded: real, pip: real): real
    requires clips != [] && RemainingVolume(clips) > 0.0
  {
    var volume := RemainingVolume(clips);
    if clips[0].direction.Buy? then EntryValue(clips) / volume + unfunded * pip / volume
    else EntryValue(clips) / volume - unfunded * pip / volume
  }

  /** The stop for all clips at which the group as a whole, with what it has booked, still
      makes the buffer: never looser than a stop a clip already has. */
  function GroupStop(clips: seq<Clip>, unfunded: real, tick: real, pip: real): real
    requires clips != [] && RemainingVolume(clips) > 0.0 && tick > 0.0
  {
    var d := clips[0].direction;
    RoundToTick(RoundProtective(d, NeverLooser(d, EvenPrice(clips, unfunded, pip), clips), tick), tick)
  }

  function PlanGroupEconomicBreakeven(clips: seq<Clip>, groupVolume: int, booked: real,
                                      digits: nat, pip: real, bufferTicks: int): Planning<Option<real>>
  {
    if clips == [] || groupVolume <= 0 then Planned(None)
    else if pip <= 0.0 then Refused("pip size")
    else if bufferTicks < 0 then Refused("buffer")
    else if exists c | c in clips :: c.direction != clips[0].direction then Refused("one trade direction")
    else if RemainingVolume(clips) <= 0.0 then Planned(None)
    else
      var tick := TickSize(digits);
      var stop := GroupStop(clips, Unfunded(groupVolume, booked, tick, pip, bufferTicks), tick, pip);
      if forall c | c in clips :: Holds(c, stop) then Planned(None) else Planned(Some(stop))
  }

  /** Applying a planned stop: clips that already hold it keep theirs. */
  function Protected(c: Clip, stop: real): Clip {
    if Holds(c, stop) then c else c.(stop := Some(stop))
  }

  function ProtectAll(clips: seq<Clip>, move: Option<real>): seq<Clip> {
    if move.None? then clips
    else seq(|clips|, i requires 0 <= i < |clips| => Protected(clips[i], move.value))
  }

  /** Pip-volume one clip brings in if it is stopped out. */
  function AtStop(c: Clip, pip: real): real
    requires pip > 0.0
  {
    if c.stop.Some? then SignedPips(c.direction, c.entry, c.stop.value, pip) * c.remaining as real else 0.0
  }

  function AtStops(clips: seq<Clip>, pip: real): seq<real>
    requires pip > 0.0
  {
    seq(|clips|, i requires 0 <= i < |clips| => AtStop(clips[i], pip))
  }

  /** Pip-volume the clips bring in if every one of them is stopped out. */
  function PipVolumeAtStops(clips: seq<Clip>, pip: real): real
    requires pip > 0.0
  {
    RSum(AtStops(clips, pip))
  }

  predicate StopsAtLeast(clips: seq<Clip>, d: Direction, stop: real) {
    forall i | 0 <= i < |clips| ::
      clips[i].direction == d && clips[i].remaining >= 0 && clips[i].stop.Some? && AtLeast(d, clips[i].stop.value, stop)
  }

  /** What `volume` units with entry value `value` gain at `stop`. */
  function GainAt(d: Direction, stop: real, volume: real, value: real): real {
    if d.Buy? then volume * stop - value else value - volume * stop
  }

  lemma OneClip(d: Direction, entry: real, held: real, stop: real, n: real, pip: real)
    requires pip > 0.0 && n >= 0.0 && AtLeast(d, held, stop)
    ensures SignedPips(d, entry, held, pip) * n * pip >= GainAt(d, stop, n, entry * n)
  {
    var gain := Gain(d, entry, held);
    RealDivMul(gain, pip);
    Commute(gain / pip, n, pip);
    RealMulMonotone(Gain(d, entry, stop), gain, n);
    RealDistribute(n, stop, entry);
    RealDistribute(n, entry, stop);
  }

  lemma ClipGain(c: Clip, d: Direction, stop: real, pip: real)
    requires pip > 0.0 && c.remaining >= 0 && c.direction == d && c.stop.Some? && AtLeast(d, c.stop.value, stop)
    ensures AtStop(c, pip) * pip >= GainAt(d, stop, c.remaining as real, c.entry * c.remaining as real)
  {
    OneClip(d, c.entry, c.stop.value, stop, c.remaining as real, pip);
  }

  lemma Commute(a: real, b: real, c: real)
    ensures a * b * c == a * c * b
  {
  }

  /** Gains clip by clip add up to the gain of the whole. */
  lemma GainsAddUp(d: Direction, stop: real, w: seq<real>, n: seq<real>, e: seq<real>)
    requires |w| == |n| == |e| && forall i | 0 <= i < |w| :: w[i] == GainAt(d, stop, n[i], e[i])
    ensures RSum(w) == GainAt(d, stop, RSum(n), RSum(e))
  {
    if d.Buy? {
      RSumAffine(w, n, e, stop);
    } else {
      var m := seq(|w|, i requires 0 <= i < |w| => -w[i]);
      RSumNegated(w, m);
      RSumAffine(m, n, e, stop);
    }
  }

  /** Stopped out at `stop` or better, the clips bring in at least what they would at `stop`. */
  lemma AtStopsAtLeast(clips: seq<Clip>, d: Direction, stop: real, pip: real)
    requires pip > 0.0 && StopsAtLeast(clips, d, stop)
    ensures PipVolumeAtStops(clips, pip) * pip >= GainAt(d, stop, RemainingVolume(clips), EntryValue(clips))
  {
    var n, e, v := Volumes(clips), Entries(clips), AtStops(clips, pip);
    var w := seq(|clips|, i requires 0 <= i < |clips| => GainAt(d, stop, n[i], e[i]));
    forall i | 0 <= i < |clips|
      ensures v[i] * pip >= w[i]
    {
      ClipGain(clips[i], d, stop, pip);
    }
    RSumScaled(v, w, pip);
    GainsAddUp(d, stop, w, n, e);
  }

  /** The arithmetic of the even price. */
  lemma EvenGain(d: Direction, v: real, value: real, need: real, even: real, stop: real)
    requires v > 0.0 && AtLeast(d, stop, even)
    requires even == if d.Buy? then value / v + need / v else value / v - need / v
    ensures GainAt(d, stop, v, value) >= need
  {
    RealDivMul(value, v);
    RealDivMul(need, v);
    RealDistribute(v, value / v, need / v);
    if d.Buy? {
      RealMulMonotone(even, stop, v);
    } else {
      RealMulMonotone(stop, even, v);
    }
  }

  /** The planned stop brings in what is unfunded, and loosens no stop. */
  lemma GroupStopSuffices(clips: seq<Clip>, unfunded: real, tick: real, pip: real)
    requires clips != [] && RemainingVolume(clips) > 0.0 && tick > 0.0
    ensures var d, stop := clips[0].direction, GroupStop(clips, unfunded, tick, pip);
      && GainAt(d, stop, RemainingVolume(clips), EntryValue(clips)) >= unfunded * pip
      && (forall c | c in clips :: !StartsBeyond(c, d, stop))
      && OnGrid(stop, tick)
  {
    var d := clips[0].direction;
    ProtectiveRounding(d, NeverLooser(d, EvenPrice(clips, unfunded, pip), clips), tick);
    EvenGain(d, RemainingVolume(clips), EntryValue(clips), unfunded * pip,
             EvenPrice(clips, unfunded, pip), GroupStop(clips, unfunded, tick, pip));
  }

  /** The planned stop is the least protective one that will do: at any price on the grid short of it
      the clips bring in less than what is unfunded, or some clip has a better stop already. */
  lemma GroupStopIsLeast(clips: seq<Clip>, unfunded: real, tick: real, pip: real, price: real)
    requires clips != [] && RemainingVolume(clips) > 0.0 && tick > 0.0
    requires OnGrid(price, tick) && MovesTowardProfit(clips[0].direction, price, GroupStop(clips, unfunded, tick, pip))
    ensures || GainAt(clips[0].direction, price, RemainingVolume(clips), EntryValue(clips)) < unfunded * pip
            || exists c | c in clips :: StartsBeyond(c, clips[0].direction, price)
  {
    var d, even := clips[0].direction, EvenPrice(clips, unfunded, pip);
    var wanted := NeverLooser(d, even, clips);
    ProtectiveRounding(d, wanted, tick);
    ProtectiveIsLeast(d, wanted, tick, price);
    if wanted == even {
      ShortOfEven(d, RemainingVolume(clips), EntryValue(clips), unfunded * pip, even, price);
    } else {
      var c :| c in clips && Boundary(c) == Some(wanted);
      assert StartsBeyond(c, d, price);
    }
  }

  /** The stop the clip has, or its first one when it has none, lies beyond this price. */
  predicate StartsBeyond(c: Clip, d: Direction, price: real) {
    || (c.stop.Some? && MovesTowardProfit(d, price, c.stop.value))
    || (c.stop.None? && c.initialStop.Some? && MovesTowardProfit(d, price, c.initialStop.value))
  }

  lemma ShortOfEven(d: Direction, v: real, value: real, need: real, even: real, price: real)
    requires v > 0.0 && MovesTowardProfit(d, price, even)
    requires even == if d.Buy? then value / v + need / v else value / v - need / v
    ensures GainAt(d, price, v, value) < need
  {
    RealDivMul(value, v);
    RealDivMul(need, v);
    RealDistribute(v, value / v, need / v);
    StrictlyMore(price, even, v);
  }

  lemma StrictlyMore(a: real, b: real, v: real)
    requires v > 0.0
    ensures a < b ==> v * a < v * b
    ensures b < a ==> v * b < v * a
  {
  }

  lemma AllProtected(clips: seq<Clip>, move: Option<real>, d: Direction, stop: real)
    requires forall c | c in clips :: c.remaining > 0 && c.direction == d
    requires move == Some(stop) || (move.None? && forall c | c in clips :: Holds(c, stop))
    ensures StopsAtLeast(ProtectAll(clips, move), d, stop)
    ensures Volumes(ProtectAll(clips, move)) == Volumes(clips)
    ensures Entries(ProtectAll(clips, move)) == Entries(clips)
  {
    var after := ProtectAll(clips, move);
    forall i | 0 <= i < |after|
      ensures after[i].direction == d && after[i].remaining >= 0
              && after[i].stop.Some? && AtLeast(d, after[i].stop.value, stop)
      ensures Volumes(after)[i] == Volumes(clips)[i] && Entries(after)[i] == Entries(clips)[i]
    {
      assert clips[i] in clips;
    }
  }

  lemma CancelThrough(a: real, b: real, d: real, between: real)
    requires d > 0.0 && between >= a * d && b * d >= between
    ensures b >= a
  {
    RealCancel(a, b, d);
  }

  lemma ProtectedGain(clips: seq<Clip>, d: Direction, stop: real, pip: real, move: Option<real>)
    requires pip > 0.0 && forall c | c in clips :: c.remaining > 0 && c.direction == d
    requires move == Some(stop) || (move.None? && forall c | c in clips :: Holds(c, stop))
    ensures PipVolumeAtStops(ProtectAll(clips, move), pip) * pip
         >= GainAt(d, stop, RemainingVolume(clips), EntryValue(clips))
  {
    AllProtected(clips, move, d, stop);
    AtStopsAtLeast(ProtectAll(clips, move), d, stop, pip);
  }

  lemma EnoughAtStops(clips: seq<Clip>, d: Direction, stop: real, unfunded: real, pip: real, move: Option<real>)
    requires pip > 0.0 && forall c | c in clips :: c.remaining > 0 && c.direction == d
    requires move == Some(stop) || (move.None? && forall c | c in clips :: Holds(c, stop))
    requires GainAt(d, stop, RemainingVolume(clips), EntryValue(clips)) >= unfunded * pip
    ensures PipVolumeAtStops(ProtectAll(clips, move), pip) >= unfunded
  {
    ProtectedGain(clips, d, stop, pip, move);
    CancelThrough(unfunded, PipVolumeAtStops(ProtectAll(clips, move), pip), pip,
                  GainAt(d, stop, RemainingVolume(clips), EntryValue(clips)));
  }

  lemma SomeVolume(clips: seq<Clip>)
    requires clips != [] && forall c | c in clips :: c.remaining > 0
    ensures RemainingVolume(clips) > 0.0
  {
    forall i | 0 <= i < |clips| ensures Volumes(clips)[i] > 0.0 { assert clips[i] in clips; }
    RSumPositive(Volumes(clips));
  }

  /** In price, each unit of a group of this volume has earned so many ticks. */
  predicate CoversBuffer(pipVolume: real, groupVolume: int, tick: real, pip: real, bufferTicks: int) {
    pipVolume * pip >= groupVolume as real * (bufferTicks as real * tick)
  }

  lemma TargetCoversBuffer(pipVolume: real, groupVolume: int, tick: real, pip: real, bufferTicks: int)
    requires pip > 0.0 && pipVolume >= TargetPipVolume(groupVolume, tick, pip, bufferTicks)
    ensures CoversBuffer(pipVolume, groupVolume, tick, pip, bufferTicks)
  {
    var buffer, volume := bufferTicks as real * tick, groupVolume as real;
    RealDivMul(buffer, pip);
    Commute(buffer / pip, volume, pip);
    RealMulMonotone(buffer / pip * volume, pipVolume, pip);
  }

  /** After a group protection, whether it moved stops or found them good enough already: what
      the group has booked plus everything that is left stopped out is at least the buffer on
      the whole original group, for both directions and after rounding to the tick. */
  lemma GroupLocksTheBuffer(clips: seq<Clip>, groupVolume: int, booked: real, digits: nat, pip: real, bufferTicks: int)
    requires clips != [] && groupVolume > 0 && pip > 0.0
    requires forall c | c in clips :: c.remaining > 0
    requires PlanGroupEconomicBreakeven(clips, groupVolume, booked, digits, pip, bufferTicks).Planned?
    ensures var move := PlanGroupEconomicBreakeven(clips, groupVolume, booked, digits, pip, bufferTicks).move;
      && CoversBuffer(booked + PipVolumeAtStops(ProtectAll(clips, move), pip), groupVolume, TickSize(digits), pip,
                      bufferTicks)
      && forall i | 0 <= i < |clips| :: ProtectAll(clips, move)[i].stop.Some?
  {
    SomeVolume(clips);
    var move := PlanGroupEconomicBreakeven(clips, groupVolume, booked, digits, pip, bufferTicks).move;
    var tick := TickSize(digits);
    var unfunded := Unfunded(groupVolume, booked, tick, pip, bufferTicks);
    GroupStopSuffices(clips, unfunded, tick, pip);
    EnoughAtStops(clips, clips[0].direction, GroupStop(clips, unfunded, tick, pip), unfunded, pip, move);
    AllProtected(clips, move, clips[0].direction, GroupStop(clips, unfunded, tick, pip));
    TargetCoversBuffer(booked + PipVolumeAtStops(ProtectAll(clips, move), pip), groupVolume, tick, pip, bufferTicks);
  }

  /** A stop that is planned is the least one for what is unfunded, and some clip does not hold it. */
  lemma PlannedGroupStop(clips: seq<Clip>, groupVolume: int, booked: real, digits: nat, pip: real, bufferTicks: int,
                         stop: real)
    requires PlanGroupEconomicBreakeven(clips, groupVolume, booked, digits, pip, bufferTicks) == Planned(Some(stop))
    ensures clips != [] && RemainingVolume(clips) > 0.0 && pip > 0.0
    ensures stop == GroupStop(clips, Unfunded(groupVolume, booked, TickSize(digits), pip, bufferTicks),
                              TickSize(digits), pip)
    ensures exists c | c in clips :: !Holds(c, stop)
  {
  }

  /** What is unfunded is, in price, the buffer on the whole group less what it has booked. */
  lemma UnfundedInPrice(groupVolume: int, booked: real, tick: real, pip: real, bufferTicks: int)
    requires pip > 0.0
    ensures Unfunded(groupVolume, booked, tick, pip, bufferTicks) * pip
         == groupVolume as real * (bufferTicks as real * tick) - booked * pip
  {
    var target := TargetPipVolume(groupVolume, tick, pip, bufferTicks);
    RealDistribute(pip, target, booked);
    RealDivMul(bufferTicks as real * tick, pip);
    Commute(bufferTicks as real * tick / pip, groupVolume as real, pip);
  }

  // ----- one clip at a time -------------------------------------------------------------

  /** The group-wide number of a clip's target. */
  function Ordinal(c: Clip, row: nat): int {
    if c.ordinals.Some? && row < |c.ordinals.value| then c.ordinals.value[row] else row + 1
  }

  predicate IsRow(c: Clip, ordinal: int, row: nat) {
    && row < |c.pips| && Ordinal(c, row) == ordinal
    && forall i | 0 <= i < row :: Ordinal(c, i) != ordinal
  }

  /** The first target row of a clip with a group-wide number. */
  function RowFrom(c: Clip, ordinal: int, start: nat): (r: Option<nat>)
    requires start <= |c.pips| && forall i | 0 <= i < start :: Ordinal(c, i) != ordinal
    ensures r.Some? ==> IsRow(c, ordinal, r.value)
    ensures r.None? ==> forall i | 0 <= i < |c.pips| :: Ordinal(c, i) != ordinal
    decreases |c.pips| - start
  {
    if start == |c.pips| then None
    else if Ordinal(c, start) == ordinal then Some(start)
    else RowFrom(c, ordinal, start + 1)
  }

  method FindRow(c: Clip, ordinal: int) returns (r: Option<nat>)
    ensures r == RowFrom(c, ordinal, 0)
  {
    for i := 0 to |c.pips|
      invariant forall j | 0 <= j < i :: Ordinal(c, j) != ordinal
      invariant RowFrom(c, ordinal, 0) == RowFrom(c, ordinal, i)
    {
      if Ordinal(c, i) == ordinal { return Some(i); }
    }
    return None;
  }

  method RequireTickSize(digits: nat) returns (tick: real)
    ensures tick == TickSize(digits) && tick * PowerOfTen(digits) as real == 1.0
  {
    tick := 1.0;
    for i := 0 to digits
      invariant tick == TickSize(i) && tick * PowerOfTen(i) as real == 1.0
    {
      Scale(tick, PowerOfTen(i));
      tick := tick / 10.0;
    }
  }

  function PowerOfTen(n: nat): (p: int)
    ensures p > 0
  {
    if n == 0 then 1 else 10 * PowerOfTen(n - 1)
  }

  lemma Scale(tick: real, power: int)
    requires tick * power as real == 1.0
    ensures tick / 10.0 * (10 * power) as real == 1.0
  {
    assert (10 * power) as real == 10.0 * power as real;
  }

  function TargetPips(c: Clip, ordinal: int): Option<int> {
    if ordinal < 1 then None else
    var row := RowFrom(c, ordinal, 0);
    if row.Some? then Some(c.pips[row.value]) else None
  }

  /** Prices that match the rows are looked up by row, a full group ladder by number. */
  function AbsoluteTargetPrice(c: Clip, ordinal: int): Option<real> {
    if ordinal < 1 || c.prices.None? then None
    else if |c.prices.value| == |c.pips| then
      var row := RowFrom(c, ordinal, 0);
      if row.Some? then Some(c.prices.value[row.value]) else None
    else if ordinal <= |c.prices.value| then Some(c.prices.value[ordinal - 1])
    else None
  }

  function Distance(units: int, size: real): real { units as real * size }

  function Ahead(d: Direction, entry: real, distance: real): real {
    if d.Buy? then entry + distance else entry - distance
  }

  /** Breakeven plus the buffer, on the profit side. */
  function ProtectedBreakevenStop(d: Direction, entry: real, digits: nat, bufferTicks: nat): real {
    RoundToTick(Ahead(d, entry, Distance(bufferTicks, TickSize(digits))), TickSize(digits))
  }

  predicate IsAtLeastProtectedBreakeven(d: Direction, entry: real, stop: real, digits: nat, bufferTicks: nat) {
    AtLeast(d, stop, ProtectedBreakevenStop(d, entry, digits, bufferTicks))
  }

  /** The number of the target whose price a stop moves to. */
  function TrailOrdinal(completed: int): int { if completed == 2 then 1 else completed - 2 }

  /** Where a clip's stop belongs once the target with this number is booked. */
  function Desired(c: Clip, completed: int, digits: nat, pip: real, bufferTicks: int): Planning<Option<real>> {
    if completed <= 0 then Planned(None)
    else if completed == 1 then
      if bufferTicks < 0 then Refused("buffer")
      else Planned(Some(ProtectedBreakevenStop(c.direction, c.entry, digits, bufferTicks)))
    else
      var absolute := AbsoluteTargetPrice(c, TrailOrdinal(completed));
      if absolute.Some? then Planned(Some(absolute.value)) else
      var pips := TargetPips(c, TrailOrdinal(completed));
      if pips.None? then Planned(None)
      else Planned(Some(Ahead(c.direction, c.entry, Distance(pips.value, pip))))
  }

  function PlanForTargetOrdinal(c: Clip, completed: int, digits: nat, pip: real,
                                bufferTicks: int): Planning<Option<real>>
  {
    var desired := Desired(c, completed, digits, pip, bufferTicks);
    if desired.Refused? || desired.move.None? then desired else
    var stop := RoundToTick(desired.move.value, TickSize(digits));
    if Holds(c, stop) then Planned(None) else Planned(Some(stop))
  }

  /** After the last target there is nothing left to protect. */
  function Plan(c: Clip, completedRow: int, digits: nat, pip: real, bufferTicks: int): Planning<Option<real>> {
    if completedRow < 0 || completedRow >= |c.pips| - 1 then Planned(None)
    else PlanForTargetOrdinal(c, Ordinal(c, completedRow), digits, pip, bufferTicks)
  }

  /** A planned stop is on the grid and strictly better than the one in place; without a plan
      the stop in place already was at least as good as the one the target calls for. */
  lemma TrailOnlyImproves(c: Clip, completed: int, digits: nat, pip: real, bufferTicks: int)
    requires PlanForTargetOrdinal(c, completed, digits, pip, bufferTicks).Planned?
    ensures var move := PlanForTargetOrdinal(c, completed, digits, pip, bufferTicks).move;
      && (move.Some? ==>
            && OnGrid(move.value, TickSize(digits))
            && (c.stop.Some? ==> MovesTowardProfit(c.direction, c.stop.value, move.value)))
      && (move.None? && Desired(c, completed, digits, pip, bufferTicks).move.Some? ==>
            Holds(c, RoundToTick(Desired(c, completed, digits, pip, bufferTicks).move.value, TickSize(digits))))
  {
    var desired := Desired(c, completed, digits, pip, bufferTicks);
    if desired.move.Some? {
      RoundIsOnGrid(desired.move.value, TickSize(digits));
    }
  }

  /** A clip with the stop a target calls for. */
  function After(c: Clip, move: Option<real>): Clip {
    if move.None? then c else c.(stop := move)
  }

  lemma PlanHolds(c: Clip, completed: int, digits: nat, pip: real, bufferTicks: int, wanted: real)
    requires Desired(c, completed, digits, pip, bufferTicks) == Planned(Some(wanted))
    ensures PlanForTargetOrdinal(c, completed, digits, pip, bufferTicks).Planned?
    ensures var stop := After(c, PlanForTargetOrdinal(c, completed, digits, pip, bufferTicks).move).stop;
      stop.Some? && AtLeast(c.direction, stop.value, RoundToTick(wanted, TickSize(digits)))
  {
  }

  lemma AheadGain(d: Direction, entry: real, distance: real, held: real, tick: real)
    requires tick > 0.0 && AtLeast(d, held, RoundToTick(Ahead(d, entry, distance), tick))
    ensures Gain(d, entry, held) >= distance - 0.5 * tick
    ensures OnGrid(Ahead(d, entry, distance), tick) ==> Gain(d, entry, held) >= distance
  {
    RoundNear(Ahead(d, entry, distance), tick);
    if OnGrid(Ahead(d, entry, distance), tick) {
      RoundOnGrid(Ahead(d, entry, distance), tick);
    }
  }

  lemma GridAhead(d: Direction, entry: real, ticks: nat, tick: real)
    requires tick > 0.0 && OnGrid(entry, tick)
    ensures OnGrid(Ahead(d, entry, Distance(ticks, tick)), tick)
  {
    var k: int :| IsTicks(entry, k, tick);
    RealDistribute(tick, k as real, ticks as real);
    assert IsTicks(entry + ticks as real * tick, k + ticks, tick);
    assert IsTicks(entry - ticks as real * tick, k - ticks, tick);
  }

  /** Once the first target is booked the clip cannot lose: stopped out it gains its buffer, up
      to the half tick that rounding an off-grid entry can cost. */
  lemma FirstTargetProtectsTheEntry(c: Clip, digits: nat, pip: real, bufferTicks: nat)
    ensures PlanForTargetOrdinal(c, 1, digits, pip, bufferTicks).Planned?
    ensures var tick := TickSize(digits);
      var stop := After(c, PlanForTargetOrdinal(c, 1, digits, pip, bufferTicks).move).stop;
      && stop.Some?
      && IsAtLeastProtectedBreakeven(c.direction, c.entry, stop.value, digits, bufferTicks)
      && Gain(c.direction, c.entry, stop.value) >= Distance(bufferTicks, tick) - 0.5 * tick
      && (OnGrid(c.entry, tick) ==> Gain(c.direction, c.entry, stop.value) >= Distance(bufferTicks, tick))
  {
    var tick, distance := TickSize(digits), Distance(bufferTicks, TickSize(digits));
    var wanted := ProtectedBreakevenStop(c.direction, c.entry, digits, bufferTicks);
    RoundIsOnGrid(Ahead(c.direction, c.entry, distance), tick);
    RoundOnGrid(wanted, tick);
    PlanHolds(c, 1, digits, pip, bufferTicks, wanted);
    var stop := After(c, PlanForTargetOrdinal(c, 1, digits, pip, bufferTicks).move).stop;
    AheadGain(c.direction, c.entry, distance, stop.value, tick);
    if OnGrid(c.entry, tick) { GridAhead(c.direction, c.entry, bufferTicks, tick); }
  }

  lemma PriceGain(d: Direction, entry: real, price: real, held: real, tick: real)
    requires tick > 0.0 && AtLeast(d, held, RoundToTick(price, tick))
    ensures Gain(d, entry, held) >= Gain(d, entry, price) - 0.5 * tick
    ensures OnGrid(price, tick) ==> Gain(d, entry, held) >= Gain(d, entry, price)
  {
    RoundNear(price, tick);
    if OnGrid(price, tick) { RoundOnGrid(price, tick); }
  }

  /** Whatever price the trail target is worth, the stop holds it: stopped out, the clip gains what it
      would there, exactly for a price on the grid and up to half a tick otherwise. */
  lemma LockedIsHeld(c: Clip, completed: int, digits: nat, pip: real, bufferTicks: int)
    requires completed >= 2
    ensures PlanForTargetOrdinal(c, completed, digits, pip, bufferTicks).Planned?
    ensures var locked := LockedPrice(c, TrailOrdinal(completed), pip);
      var move := PlanForTargetOrdinal(c, completed, digits, pip, bufferTicks).move;
      if locked.None? then move.None? else HoldsPrice(After(c, move), locked.value, TickSize(digits))
  {
    var locked := LockedPrice(c, TrailOrdinal(completed), pip);
    if locked.Some? {
      PlanHolds(c, completed, digits, pip, bufferTicks, locked.value);
      var stop := After(c, PlanForTargetOrdinal(c, completed, digits, pip, bufferTicks).move).stop;
      PriceGain(c.direction, c.entry, locked.value, stop.value, TickSize(digits));
    }
  }

  /** Stopped out, the clip gains what it would at this price, up to half a tick off the grid. */
  ghost predicate HoldsPrice(c: Clip, price: real, tick: real)
    requires tick > 0.0
  {
    && c.stop.Some?
    && Gain(c.direction, c.entry, c.stop.value) >= Gain(c.direction, c.entry, price) - 0.5 * tick
    && (OnGrid(price, tick) ==> Gain(c.direction, c.entry, c.stop.value) >= Gain(c.direction, c.entry, price))
  }

  /** The n-th price of a full group ladder. */
  predicate HasPriceFor(c: Clip, n: int) {
    c.prices.Some? && |c.prices.value| != |c.pips| && 1 <= n <= |c.prices.value|
  }

  /** What the target with number n is worth: its row's own absolute price when prices go by row, else
      the group's price with its number, else its row's pips from the entry. */
  ghost predicate Worth(c: Clip, n: int, pip: real, price: real) {
    || (HasPriceFor(c, n) && price == c.prices.value[n - 1])
    || (exists row: nat :: IsRow(c, n, row) && c.prices.Some? && |c.prices.value| == |c.pips|
                           && price == c.prices.value[row])
    || (exists row: nat :: IsRow(c, n, row) && !HasPriceFor(c, n) && price == FromEntry(c, row, pip)
                           && (c.prices.Some? ==> |c.prices.value| != |c.pips|))
  }

  function FromEntry(c: Clip, row: nat, pip: real): real
    requires row < |c.pips|
  {
    if c.direction.Buy? then c.entry + c.pips[row] as real * pip else c.entry - c.pips[row] as real * pip
  }

  lemma WorthIsLocked(c: Clip, n: int, pip: real)
    requires n >= 1
    ensures forall price :: LockedPrice(c, n, pip) == Some(price) <==> Worth(c, n, pip, price)
  {
    forall row: nat | IsRow(c, n, row) ensures RowFrom(c, n, 0) == Some(row) { OneRow(c, n, row); }
    var row := RowFrom(c, n, 0);
    assert row.Some? ==> IsRow(c, n, row.value);
  }

  /** From the second target on the stop locks an earlier one: the first after the second, and from the
      third on the one two numbers behind. A clip that knows no price for it keeps its stop. */
  lemma LaterTargetsLockEarlierOnes(c: Clip, completed: int, digits: nat, pip: real, bufferTicks: int)
    requires completed >= 2
    ensures PlanForTargetOrdinal(c, completed, digits, pip, bufferTicks).Planned?
    ensures var n := if completed == 2 then 1 else completed - 2;
      var move := PlanForTargetOrdinal(c, completed, digits, pip, bufferTicks).move;
      && (forall price | Worth(c, n, pip, price) :: HoldsPrice(After(c, move), price, TickSize(digits)))
      && ((forall price :: !Worth(c, n, pip, price)) ==> move.None?)
  {
    var n := if completed == 2 then 1 else completed - 2;
    LockedIsHeld(c, completed, digits, pip, bufferTicks);
    WorthIsLocked(c, n, pip);
    if LockedPrice(c, n, pip).Some? { assert Worth(c, n, pip, LockedPrice(c, n, pip).value); }
  }

  lemma OneRow(c: Clip, n: int, row: nat)
    requires IsRow(c, n, row)
    ensures RowFrom(c, n, 0) == Some(row)
  {
    var found := RowFrom(c, n, 0);
    assert found.Some?;
    assert IsRow(c, n, found.value);
  }

  /** What a row is worth when prices, if there are any, go by row. */
  function RowPrice(c: Clip, row: nat, pip: real): real
    requires row < |c.pips|
  {
    if c.prices.Some? && row < |c.prices.value| then c.prices.value[row]
    else Ahead(c.direction, c.entry, Distance(c.pips[row], pip))
  }

  /** The targets of a ladder lie one beyond the other, and their numbers go up. */
  predicate Climbing(c: Clip, pip: real) {
    && (c.prices.Some? ==> |c.prices.value| == |c.pips|)
    && (forall i, j | 0 <= i < j < |c.pips| ::
          MovesTowardProfit(c.direction, RowPrice(c, i, pip), RowPrice(c, j, pip)) && Ordinal(c, i) <= Ordinal(c, j))
  }

  lemma DesiredIsRowPrice(c: Clip, completed: int, row: nat, digits: nat, pip: real, bufferTicks: int)
    requires Climbing(c, pip) && completed >= 2 && IsRow(c, if completed == 2 then 1 else completed - 2, row)
    ensures Desired(c, completed, digits, pip, bufferTicks) == Planned(Some(RowPrice(c, row, pip)))
  {
    OneRow(c, if completed == 2 then 1 else completed - 2, row);
  }

  /** On a climbing ladder each target from the third on locks more than the one before, and what is
      locked always lies behind the price of the target just booked. */
  lemma EachTargetLocksMore(c: Clip, completed: int, row: nat, next: nat, booked: nat, digits: nat, pip: real,
                            bufferTicks: int)
    requires Climbing(c, pip) && completed >= 3
    requires IsRow(c, completed - 2, row) && IsRow(c, completed - 1, next) && IsRow(c, completed, booked)
    ensures var a := Desired(c, completed, digits, pip, bufferTicks);
      var b := Desired(c, completed + 1, digits, pip, bufferTicks);
      && a.Planned? && a.move.Some? && b.Planned? && b.move.Some?
      && MovesTowardProfit(c.direction, a.move.value, b.move.value)
      && MovesTowardProfit(c.direction, b.move.value, RowPrice(c, booked, pip))
  {
    DesiredIsRowPrice(c, completed, row, digits, pip, bufferTicks);
    DesiredIsRowPrice(c, completed + 1, next, digits, pip, bufferTicks);
  }

  /** A ladder that is a position's own, with pips only: once its n-th target but the last is booked,
      the clip stopped out gains the buffer after the first, the first target's pips after the second,
      and those of the target two before from the third on. */
  lemma PlainLadderLocks(c: Clip, n: nat, digits: nat, pip: real, bufferTicks: nat)
    requires c.ordinals.None? && c.prices.None? && 1 <= n < |c.pips|
    ensures Plan(c, n - 1, digits, pip, bufferTicks).Planned?
    ensures var after, tick := After(c, Plan(c, n - 1, digits, pip, bufferTicks).move), TickSize(digits);
      && after.stop.Some?
      && if n == 1 then Gain(c.direction, c.entry, after.stop.value) >= bufferTicks as real * tick - 0.5 * tick
         else HoldsPrice(after, FromEntry(c, if n == 2 then 0 else n - 3, pip), tick)
  {
    if n == 1 {
      FirstTargetProtectsTheEntry(c, digits, pip, bufferTicks);
    } else {
      PlainRowHeld(c, n, if n == 2 then 0 else n - 3, digits, pip, bufferTicks);
    }
  }

  /** A leg of a group has the group's price list and its own part of the targets, by number. Once its row
      numbered n is booked, n at least 3 and not its last, the clip stopped out gains what the group's
      price n - 2 is worth, whether or not the leg books anything there itself. */
  lemma GroupLadderLocks(c: Clip, row: nat, digits: nat, pip: real, bufferTicks: nat)
    requires row < |c.pips| - 1 && c.ordinals.Some? && c.prices.Some?
    requires |c.ordinals.value| == |c.pips| && |c.prices.value| != |c.pips|
    requires 3 <= c.ordinals.value[row] <= |c.prices.value| + 2
    ensures Plan(c, row, digits, pip, bufferTicks).Planned?
    ensures HoldsPrice(After(c, Plan(c, row, digits, pip, bufferTicks).move), c.prices.value[c.ordinals.value[row] - 3],
                       TickSize(digits))
  {
    var n := c.ordinals.value[row];
    LaterTargetsLockEarlierOnes(c, n, digits, pip, bufferTicks);
    assert Worth(c, n - 2, pip, c.prices.value[n - 3]);
  }

  lemma PlainRowHeld(c: Clip, n: nat, row: nat, digits: nat, pip: real, bufferTicks: nat)
    requires c.ordinals.None? && c.prices.None? && 2 <= n < |c.pips| && row == if n == 2 then 0 else n - 3
    ensures PlanForTargetOrdinal(c, n, digits, pip, bufferTicks).Planned?
    ensures HoldsPrice(After(c, PlanForTargetOrdinal(c, n, digits, pip, bufferTicks).move), FromEntry(c, row, pip),
                       TickSize(digits))
  {
    assert IsRow(c, row + 1, row);
    assert Worth(c, row + 1, pip, FromEntry(c, row, pip));
    LaterTargetsLockEarlierOnes(c, n, digits, pip, bufferTicks);
  }

  /** What the target with this number is worth to a clip, as a price. */
  function LockedPrice(c: Clip, ordinal: int, pip: real): Option<real> {
    if AbsoluteTargetPrice(c, ordinal).Some? then AbsoluteTargetPrice(c, ordinal)
    else if TargetPips(c, ordinal).Some?
        then Some(Ahead(c.direction, c.entry, Distance(TargetPips(c, ordinal).value, pip)))
    else None
  }

  lemma {:induction false} RowIgnoresStop(c: Clip, stop: Option<real>, ordinal: int, start: nat)
    requires start <= |c.pips|
    requires forall i | 0 <= i < start :: Ordinal(c, i) != ordinal && Ordinal(c.(stop := stop), i) != ordinal
    ensures RowFrom(c.(stop := stop), ordinal, start) == RowFrom(c, ordinal, start)
    decreases |c.pips| - start
  {
    if start < |c.pips| && Ordinal(c, start) != ordinal { RowIgnoresStop(c, stop, ordinal, start + 1); }
  }

  /** Where a stop belongs does not depend on where it is. */
  lemma DesiredIgnoresStop(c: Clip, stop: Option<real>, completed: int, digits: nat, pip: real, bufferTicks: int)
    ensures Desired(c.(stop := stop), completed, digits, pip, bufferTicks)
        == Desired(c, completed, digits, pip, bufferTicks)
  {
    RowIgnoresStop(c, stop, TrailOrdinal(completed), 0);
  }
}
