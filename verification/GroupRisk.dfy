/** The group loss ceiling over whole runs of adds, stop moves and closes. */
module GroupRisk {
  import opened Common
  import opened Arith
  import opened Prices
  import opened ScaleIn
  import V = VolumePlanner

  datatype Account = Account(balance: real, riskPercent: real, pip: real, pipValue: real, symbol: V.Symbol)

  /** `booked` is what the engine carries as the group's booked money. A close that reconcile
      finds or the owner makes is not added to it: its money goes to `unbooked`. `tranches` counts
      the group's tranches over its life, `first` is where the first one stands while it is open,
      and `reached` tells whether it has booked a target. */
  datatype Group = Group(
    booked: real, open: seq<Tranche>, unbooked: real, tranches: nat, first: Option<nat>, reached: bool)

  datatype Event =
    | Add(s: Sizing, t: Tranche, targets: seq<int>, weights: seq<int>)
    | MoveStop(i: nat, stop: real)
    | TargetClose(i: nat, volume: int, fill: real)
    | Vanish(i: nat, fill: real)

  function Pnl(a: Account, t: Tranche, fill: real, volume: int): real
    requires a.pip > 0.0
  {
    Earn(Gain(t.direction, t.entry, fill), Lots(volume, a.symbol.lotSize), a.pip, a.pipValue)
  }

  function Worst(a: Account, booked: real, open: seq<Tranche>): real
    requires a.pip > 0.0
  {
    WorstCase(booked, open, a.pip, a.pipValue, a.symbol.lotSize)
  }

  /** What the group really ends with if every open tranche is stopped out. */
  function TrueWorst(a: Account, g: Group): real
    requires a.pip > 0.0
  {
    Worst(a, g.booked + g.unbooked, g.open)
  }

  predicate Sane(a: Account) { a.pip > 0.0 && a.pipValue > 0.0 && a.symbol.lotSize > 0 }

  predicate SizedFor(a: Account, s: Sizing) {
    s.balance == a.balance && s.riskPercent == a.riskPercent && s.pip == a.pip && s.pipValue == a.pipValue
  }

  /** The planner allows an add of the tranche's size, and it is filled at plan. */
  predicate Addable(a: Account, g: Group, s: Sizing, t: Tranche, targets: seq<int>, weights: seq<int>) {
    && SizedFor(a, s) && Gain(t.direction, t.entry, t.stop) == -s.addStopPips * s.pip
    && Plan(s, g.booked, g.open, a.symbol, targets, weights).Allowed?
    && Plan(s, g.booked, g.open, a.symbol, targets, weights).volume == t.remaining
  }

  /** Adds go to a group with open tranches, all in one direction. Stops only move toward profit,
      and closes fill no worse than the stop. */
  predicate Enabled(a: Account, g: Group, e: Event) {
    match e
    case Add(s, t, targets, weights) =>
      && g.open != [] && (forall i | 0 <= i < |g.open| :: g.open[i].direction == t.direction)
      && Addable(a, g, s, t, targets, weights)
    case MoveStop(i, stop) => i < |g.open| && AtLeast(g.open[i].direction, stop, g.open[i].stop)
    case TargetClose(i, volume, fill) =>
      i < |g.open| && 0 < volume <= g.open[i].remaining && AtLeast(g.open[i].direction, fill, g.open[i].stop)
    case Vanish(i, fill) => i < |g.open| && AtLeast(g.open[i].direction, fill, g.open[i].stop)
  }

  function Without(open: seq<Tranche>, i: nat): seq<Tranche>
    requires i < |open|
  {
    open[..i] + open[i + 1..]
  }

  function Reduced(open: seq<Tranche>, i: nat, volume: int): seq<Tranche>
    requires i < |open|
  {
    if volume == open[i].remaining then Without(open, i)
    else open[i := open[i].(remaining := open[i].remaining - volume)]
  }

  /** Where the first tranche stands once tranche i has gone. */
  function Shifted(first: Option<nat>, i: nat): Option<nat> {
    if first.None? || first.value < i then first else if first.value == i then None else Some(first.value - 1)
  }

  function Started(t: Tranche): Group { Group(0.0, [t], 0.0, 1, Some(0), false) }

  function Next(a: Account, g: Group, e: Event): Group
    requires Sane(a) && Enabled(a, g, e)
  {
    match e
    case Add(_, t, _, _) => g.(open := g.open + [t], tranches := g.tranches + 1)
    case MoveStop(i, stop) => g.(open := g.open[i := g.open[i].(stop := stop)])
    case TargetClose(i, volume, fill) =>
      g.(booked := g.booked + Pnl(a, g.open[i], fill, volume), open := Reduced(g.open, i, volume),
         first := if volume == g.open[i].remaining then Shifted(g.first, i) else g.first,
         reached := g.reached || g.first == Some(i))
    case Vanish(i, fill) =>
      g.(unbooked := g.unbooked + Pnl(a, g.open[i], fill, g.open[i].remaining), open := Without(g.open, i),
         first := Shifted(g.first, i))
  }

  ghost predicate Run(a: Account, groups: seq<Group>, events: seq<Event>) {
    && |groups| == |events| + 1 && Sane(a)
    && forall k | 0 <= k < |events| :: Enabled(a, groups[k], events[k])
        && groups[k + 1] == Next(a, groups[k], events[k])
  }

  /** Tranches hold volume, and no more of it than the account's table allows. */
  predicate Sound(a: Account, g: Group) {
    && Sane(a)
    && (forall i | 0 <= i < |g.open| :: g.open[i].remaining > 0)
    && OpenLots(g.open, a.symbol.lotSize) <= LotsForEquity(a.balance)
  }

  predicate WithinCeiling(a: Account, g: Group)
    requires a.pip > 0.0
  {
    TrueWorst(a, g) >= -Budget(a.balance, a.riskPercent)
  }

  predicate Inv(a: Account, g: Group) { Sound(a, g) && WithinCeiling(a, g) }

  /** What the group has left to lose before it reaches its budget. */
  function Headroom(a: Account, g: Group): real
    requires a.pip > 0.0
  {
    Budget(a.balance, a.riskPercent) + TrueWorst(a, g)
  }

  /** What an add puts at risk. */
  function RiskOf(a: Account, s: Sizing, t: Tranche): real { AddRisk(Lots(t.remaining, a.symbol.lotSize), s) }

  // ----- arithmetic of one tranche ------------------------------------------------------

  lemma EarnMonotone(low: real, high: real, lots: real, pip: real, pipValue: real)
    requires pip > 0.0 && pipValue > 0.0 && lots >= 0.0 && low <= high
    ensures Earn(low, lots, pip, pipValue) <= Earn(high, lots, pip, pipValue)
  {
    RealDivBound(low, high / pip, pip);
    RealDivMul(high, pip);
    RealMulMonotone(low / pip, high / pip, lots);
    RealMulMonotone(low / pip * lots, high / pip * lots, pipValue);
  }

  lemma EarnAdds(gain: real, a: real, b: real, pip: real, pipValue: real)
    requires pip > 0.0
    ensures Earn(gain, a + b, pip, pipValue) == Earn(gain, a, pip, pipValue) + Earn(gain, b, pip, pipValue)
    ensures Earn(gain, 0.0, pip, pipValue) == 0.0
  {
    RealDistribute(gain / pip, a, b);
    RealDistribute(pipValue, gain / pip * a, gain / pip * b);
  }

  lemma LotsAdd(a: int, b: int, lotSize: int)
    requires lotSize > 0
    ensures Lots(a + b, lotSize) == Lots(a, lotSize) + Lots(b, lotSize)
    ensures Lots(0, lotSize) == 0.0
    ensures a >= 0 ==> Lots(a, lotSize) >= 0.0
  {
  }

  lemma RiskIsStopPnl(lots: real, stopPips: real, pip: real, pipValue: real)
    requires pip > 0.0
    ensures Earn(-stopPips * pip, lots, pip, pipValue) == -(lots * stopPips * pipValue)
  {
    QuotientOfProduct(-stopPips, pip);
    NegatedProduct(stopPips, lots, pipValue);
  }

  lemma QuotientOfProduct(x: real, d: real)
    requires d > 0.0
    ensures x * d / d == x
  {
  }

  lemma NegatedProduct(x: real, y: real, z: real)
    ensures -x * y * z == -(y * x * z)
  {
    assert -x * y == -(y * x);
  }

  /** Closing part of a tranche at a price no worse than its stop cannot hurt. */
  lemma CloseIsNoWorse(a: Account, t: Tranche, fill: real, volume: int)
    requires Sane(a) && 0 <= volume && AtLeast(t.direction, fill, t.stop)
    ensures Pnl(a, t, fill, volume) + StopPnl(t.(remaining := t.remaining - volume), a.pip, a.pipValue,
                                              a.symbol.lotSize)
            >= StopPnl(t, a.pip, a.pipValue, a.symbol.lotSize)
    ensures StopPnl(t.(remaining := 0), a.pip, a.pipValue, a.symbol.lotSize) == 0.0
  {
    var size := a.symbol.lotSize;
    LotsAdd(volume, t.remaining - volume, size);
    EarnAdds(Gain(t.direction, t.entry, t.stop), Lots(volume, size), Lots(t.remaining - volume, size), a.pip,
             a.pipValue);
    EarnMonotone(Gain(t.direction, t.entry, t.stop), Gain(t.direction, t.entry, fill), Lots(volume, size), a.pip,
                 a.pipValue);
  }

  // ----- sums over the group --------------------------------------------------------------

  function OpenLotsOf(open: seq<Tranche>, lotSize: int): seq<real> {
    seq(|open|, i requires 0 <= i < |open| => Lots(open[i].remaining, lotSize))
  }

  lemma Appended(a: Account, open: seq<Tranche>, t: Tranche)
    requires Sane(a)
    ensures Worst(a, 0.0, open + [t]) == Worst(a, 0.0, open) + StopPnl(t, a.pip, a.pipValue, a.symbol.lotSize)
    ensures OpenLots(open + [t], a.symbol.lotSize) == OpenLots(open, a.symbol.lotSize)
        + Lots(t.remaining, a.symbol.lotSize)
  {
    var size := a.symbol.lotSize;
    RSumAppend(StopPnls(open, a.pip, a.pipValue, size), StopPnl(t, a.pip, a.pipValue, size));
    assert StopPnls(open + [t], a.pip, a.pipValue, size)
        == StopPnls(open, a.pip, a.pipValue, size) + [StopPnl(t, a.pip, a.pipValue, size)];
    RSumAppend(OpenLotsOf(open, size), Lots(t.remaining, size));
    assert OpenLotsOf(open + [t], size) == OpenLotsOf(open, size) + [Lots(t.remaining, size)];
  }

  lemma Replaced(a: Account, open: seq<Tranche>, i: nat, t: Tranche)
    requires Sane(a) && i < |open|
    ensures Worst(a, 0.0, open[i := t])
         == Worst(a, 0.0, open) - StopPnl(open[i], a.pip, a.pipValue, a.symbol.lotSize)
             + StopPnl(t, a.pip, a.pipValue, a.symbol.lotSize)
    ensures OpenLots(open[i := t], a.symbol.lotSize)
         == OpenLots(open, a.symbol.lotSize) - Lots(open[i].remaining, a.symbol.lotSize)
             + Lots(t.remaining, a.symbol.lotSize)
  {
    var size := a.symbol.lotSize;
    RSumUpdate(StopPnls(open, a.pip, a.pipValue, size), i, StopPnl(t, a.pip, a.pipValue, size));
    assert StopPnls(open[i := t], a.pip, a.pipValue, size)
        == StopPnls(open, a.pip, a.pipValue, size)[i := StopPnl(t, a.pip, a.pipValue, size)];
    RSumUpdate(OpenLotsOf(open, size), i, Lots(t.remaining, size));
    assert OpenLotsOf(open[i := t], size) == OpenLotsOf(open, size)[i := Lots(t.remaining, size)];
  }

  lemma Removed(a: Account, open: seq<Tranche>, i: nat)
    requires Sane(a) && i < |open|
    ensures Worst(a, 0.0, Without(open, i))
        == Worst(a, 0.0, open) - StopPnl(open[i], a.pip, a.pipValue, a.symbol.lotSize)
    ensures OpenLots(Without(open, i), a.symbol.lotSize)
        == OpenLots(open, a.symbol.lotSize) - Lots(open[i].remaining, a.symbol.lotSize)
  {
    var size := a.symbol.lotSize;
    var pnls, lots := StopPnls(open, a.pip, a.pipValue, size), OpenLotsOf(open, size);
    RSumRemove(pnls, i);
    assert StopPnls(Without(open, i), a.pip, a.pipValue, size) == pnls[..i] + pnls[i + 1..];
    RSumRemove(lots, i);
    assert OpenLotsOf(Without(open, i), size) == lots[..i] + lots[i + 1..];
  }

  // ----- the steps -----------------------------------------------------------------------

  lemma PlannedStop(a: Account, s: Sizing, t: Tranche)
    requires Sane(a) && SizedFor(a, s) && Gain(t.direction, t.entry, t.stop) == -s.addStopPips * s.pip
    ensures StopPnl(t, a.pip, a.pipValue, a.symbol.lotSize) == -RiskOf(a, s, t)
  {
    RiskIsStopPnl(Lots(t.remaining, a.symbol.lotSize), s.addStopPips, a.pip, a.pipValue);
  }

  /** What the planner promises about an allowed add, in terms of the figures it sees. */
  lemma AllowedFits(a: Account, g: Group, s: Sizing, t: Tranche, targets: seq<int>, weights: seq<int>)
    requires Sane(a) && Addable(a, g, s, t, targets, weights)
    ensures t.remaining > 0 && RiskOf(a, s, t) <= Budget(a.balance, a.riskPercent) + Worst(a, g.booked, g.open)
    ensures OpenLots(g.open, a.symbol.lotSize) + Lots(t.remaining, a.symbol.lotSize) <= LotsForEquity(a.balance)
  {
    PlanKeepsTheCeiling(s, g.booked, g.open, a.symbol, targets, weights);
  }

  /** One allowed add, exactly: the planner's headroom is off by what was never booked, and the
      group stays within its ceiling if and only if the add's risk fits the true headroom. */
  lemma AddFitsExactly(a: Account, g: Group, s: Sizing, t: Tranche, targets: seq<int>, weights: seq<int>)
    requires Sound(a, g) && Addable(a, g, s, t, targets, weights)
    ensures var after := g.(open := g.open + [t], tranches := g.tranches + 1);
      && Sound(a, after) && TrueWorst(a, after) == TrueWorst(a, g) - RiskOf(a, s, t)
      && (WithinCeiling(a, after) <==> RiskOf(a, s, t) <= Headroom(a, g))
      && RiskOf(a, s, t) <= Headroom(a, g) - g.unbooked
  {
    AllowedFits(a, g, s, t, targets, weights);
    PlannedStop(a, s, t);
    Appended(a, g.open, t);
  }

  /** Moving a stop toward profit, or closing no worse than it, never lowers the worst case. */
  lemma MoveRaises(a: Account, g: Group, e: Event)
    requires Sound(a, g) && Enabled(a, g, e) && e.MoveStop?
    ensures Sound(a, Next(a, g, e)) && TrueWorst(a, Next(a, g, e)) >= TrueWorst(a, g)
  {
    var t := g.open[e.i];
    LotsAdd(t.remaining, 0, a.symbol.lotSize);
    EarnMonotone(Gain(t.direction, t.entry, t.stop), Gain(t.direction, t.entry, e.stop),
                 Lots(t.remaining, a.symbol.lotSize), a.pip, a.pipValue);
    Replaced(a, g.open, e.i, t.(stop := e.stop));
  }

  lemma CloseRaises(a: Account, g: Group, e: Event)
    requires Sound(a, g) && Enabled(a, g, e) && e.TargetClose?
    ensures Sound(a, Next(a, g, e)) && TrueWorst(a, Next(a, g, e)) >= TrueWorst(a, g)
  {
    var t := g.open[e.i];
    CloseIsNoWorse(a, t, e.fill, e.volume);
    LotsAdd(t.remaining - e.volume, e.volume, a.symbol.lotSize);
    LotsAdd(e.volume, 0, a.symbol.lotSize);
    if e.volume == t.remaining {
      Removed(a, g.open, e.i);
    } else {
      Replaced(a, g.open, e.i, t.(remaining := t.remaining - e.volume));
    }
  }

  lemma VanishRaises(a: Account, g: Group, e: Event)
    requires Sound(a, g) && Enabled(a, g, e) && e.Vanish?
    ensures Sound(a, Next(a, g, e)) && TrueWorst(a, Next(a, g, e)) >= TrueWorst(a, g)
  {
    var t := g.open[e.i];
    CloseIsNoWorse(a, t, e.fill, t.remaining);
    LotsAdd(t.remaining, 0, a.symbol.lotSize);
    Removed(a, g.open, e.i);
  }

  lemma StepExactly(a: Account, g: Group, e: Event)
    requires Sound(a, g) && Enabled(a, g, e)
    ensures Sound(a, Next(a, g, e))
    ensures !e.Add? ==> TrueWorst(a, Next(a, g, e)) >= TrueWorst(a, g)
    ensures e.Add? ==> && TrueWorst(a, Next(a, g, e)) == TrueWorst(a, g) - RiskOf(a, e.s, e.t)
                       && RiskOf(a, e.s, e.t) <= Headroom(a, g) - g.unbooked
  {
    match e
    case Add(s, t, targets, weights) => AddFitsExactly(a, g, s, t, targets, weights);
    case MoveStop(_, _) => MoveRaises(a, g, e);
    case TargetClose(_, _, _) => CloseRaises(a, g, e);
    case Vanish(_, _) => VanishRaises(a, g, e);
  }

  // ----- whole runs -----------------------------------------------------------------------

  /** The add at step j risks no more than the true headroom, booked or not. */
  predicate AddFits(a: Account, groups: seq<Group>, events: seq<Event>, j: nat)
    requires a.pip > 0.0 && j < |events| && |groups| == |events| + 1
  {
    events[j].Add? ==> RiskOf(a, events[j].s, events[j].t) <= Headroom(a, groups[j])
  }

  lemma {:induction false} StaysSound(a: Account, groups: seq<Group>, events: seq<Event>, k: nat)
    requires Run(a, groups, events) && Sound(a, groups[0]) && k < |groups|
    ensures Sound(a, groups[k])
  {
    if k > 0 {
      StaysSound(a, groups, events, k - 1);
      StepExactly(a, groups[k - 1], events[k - 1]);
    }
  }

  lemma {:induction false} FittingAddsHold(a: Account, groups: seq<Group>, events: seq<Event>, k: nat)
    requires Run(a, groups, events) && Inv(a, groups[0]) && k < |groups|
    requires forall j | 0 <= j < k :: AddFits(a, groups, events, j)
    ensures WithinCeiling(a, groups[k])
  {
    if k > 0 {
      FittingAddsHold(a, groups, events, k - 1);
      StaysSound(a, groups, events, k - 1);
      StepExactly(a, groups[k - 1], events[k - 1]);
      assert AddFits(a, groups, events, k - 1);
    }
  }

  lemma AddThatHolds(a: Account, groups: seq<Group>, events: seq<Event>, j: nat)
    requires Run(a, groups, events) && Inv(a, groups[0]) && j < |events| && WithinCeiling(a, groups[j + 1])
    ensures AddFits(a, groups, events, j)
  {
    StaysSound(a, groups, events, j);
    StepExactly(a, groups[j], events[j]);
  }

  /** Over every run of adds, profit-ward stop moves and closes no worse than the stop: the group
      stays within its loss ceiling throughout if and only if every add fits the true headroom
      when it is made. It holds no more lots than the account's table in any case. */
  lemma CeilingHolds(a: Account, groups: seq<Group>, events: seq<Event>)
    requires Run(a, groups, events) && Inv(a, groups[0])
    ensures (forall k | 0 <= k < |groups| :: WithinCeiling(a, groups[k]))
       <==> (forall j | 0 <= j < |events| :: AddFits(a, groups, events, j))
    ensures forall k | 0 <= k < |groups| :: Sound(a, groups[k])
  {
    forall k | 0 <= k < |groups| ensures Sound(a, groups[k]) {
      StaysSound(a, groups, events, k);
    }
    if forall j | 0 <= j < |events| :: AddFits(a, groups, events, j) {
      forall k | 0 <= k < |groups| ensures WithinCeiling(a, groups[k]) {
        FittingAddsHold(a, groups, events, k);
      }
    }
    if forall k | 0 <= k < |groups| :: WithinCeiling(a, groups[k]) {
      forall j | 0 <= j < |events| ensures AddFits(a, groups, events, j) {
        AddThatHolds(a, groups, events, j);
      }
    }
  }

  /** The deepest net loss that was not booked when one of the first k events added a tranche. */
  function Shortfall(groups: seq<Group>, events: seq<Event>, k: nat): (d: real)
    requires k <= |events| < |groups|
    ensures d >= 0.0
    ensures forall j | 0 <= j < k && events[j].Add? :: d >= -groups[j].unbooked
    ensures d == 0.0 || exists j | 0 <= j < k :: events[j].Add? && d == -groups[j].unbooked
  {
    if k == 0 then 0.0
    else
      var before := Shortfall(groups, events, k - 1);
      if events[k - 1].Add? && -groups[k - 1].unbooked > before then -groups[k - 1].unbooked else before
  }

  /** The ceiling is missed by at most what was not booked, net, at some add: gains that were not
      booked make up for losses, and losses after the last add do not count. */
  lemma {:induction false} MissedByTheUnbooked(a: Account, groups: seq<Group>, events: seq<Event>, k: nat)
    requires Run(a, groups, events) && Inv(a, groups[0]) && k < |groups|
    ensures Headroom(a, groups[k]) >= -Shortfall(groups, events, k)
  {
    if k > 0 {
      MissedByTheUnbooked(a, groups, events, k - 1);
      StaysSound(a, groups, events, k - 1);
      StepExactly(a, groups[k - 1], events[k - 1]);
    }
  }

  /** When nothing is lost unbooked, net, at any add, the ceiling is the budget throughout. */
  lemma NothingUnbookedHolds(a: Account, groups: seq<Group>, events: seq<Event>, k: nat)
    requires Run(a, groups, events) && Inv(a, groups[0]) && k < |groups|
    requires forall j | 0 <= j < k && events[j].Add? :: groups[j].unbooked >= 0.0
    ensures WithinCeiling(a, groups[k])
  {
    MissedByTheUnbooked(a, groups, events, k);
  }

  /** In particular when every close is booked at its target. */
  lemma {:induction false} BookedClosesForgetNothing(a: Account, groups: seq<Group>, events: seq<Event>, k: nat)
    requires Run(a, groups, events) && Inv(a, groups[0]) && groups[0].unbooked >= 0.0 && k < |groups|
    requires forall j | 0 <= j < |events| :: !events[j].Vanish?
    ensures groups[k].unbooked == groups[0].unbooked && WithinCeiling(a, groups[k])
  {
    forall j | 0 <= j < k && events[j].Add? ensures groups[j].unbooked >= 0.0 {
      BookedClosesForgetNothing(a, groups, events, j);
    }
    if k > 0 { BookedClosesForgetNothing(a, groups, events, k - 1); }
    NothingUnbookedHolds(a, groups, events, k);
  }

  // ----- where a group starts --------------------------------------------------------------

  datatype SizingMode = ByTable | ByRisk | BySmaller

  function InitialLots(mode: SizingMode, table: real, risk: real): real {
    match mode
    case ByTable => table
    case ByRisk => risk
    case BySmaller => Lower(risk, table)
  }

  /** `perLot` is what one lot loses at its stop. */
  function InitialVolume(a: Account, mode: SizingMode, perLot: real): int
    requires perLot > 0.0
  {
    V.VolumeForLots(InitialLots(mode, LotsForEquity(a.balance), Budget(a.balance, a.riskPercent) / perLot), a.symbol)
  }

  lemma LoneTranche(a: Account, t: Tranche, risk: real)
    requires Sane(a) && t.remaining > 0 && risk <= Budget(a.balance, a.riskPercent)
    requires StopPnl(t, a.pip, a.pipValue, a.symbol.lotSize) == -risk
    requires Lots(t.remaining, a.symbol.lotSize) <= LotsForEquity(a.balance)
    ensures Inv(a, Started(t))
  {
    Appended(a, [], t);
    assert [] + [t] == [t];
  }

  lemma SmallerIsCapped(symbol: V.Symbol, table: real, byRisk: real, volume: int)
    requires volume == V.VolumeForLots(InitialLots(BySmaller, table, byRisk), symbol) > 0
    ensures Lots(volume, symbol.lotSize) <= table && Lots(volume, symbol.lotSize) <= byRisk
  {
    V.VolumeForLotsRoundsDown(InitialLots(BySmaller, table, byRisk), symbol);
  }

  lemma PlannedLoss(a: Account, t: Tranche, stopPips: real, perLot: real, budget: real)
    requires Sane(a) && perLot > 0.0 && perLot == stopPips * a.pipValue
    requires Gain(t.direction, t.entry, t.stop) == -stopPips * a.pip
    requires Lots(t.remaining, a.symbol.lotSize) <= budget / perLot
    ensures StopPnl(t, a.pip, a.pipValue, a.symbol.lotSize) >= -budget
  {
    var lots := Lots(t.remaining, a.symbol.lotSize);
    CapHolds(lots, stopPips, a.pipValue, perLot, budget);
    RiskIsStopPnl(lots, stopPips, a.pip, a.pipValue);
  }

  /** A first tranche sized by the smaller of risk and table starts a group within its ceiling;
      the other two modes each drop one of the two caps. */
  lemma InitialTrancheFits(a: Account, stopPips: real, perLot: real, t: Tranche)
    requires Sane(a) && perLot == stopPips * a.pipValue && perLot > 0.0
    requires t.remaining == InitialVolume(a, BySmaller, perLot) > 0
    requires Gain(t.direction, t.entry, t.stop) == -stopPips * a.pip
    ensures Inv(a, Started(t))
  {
    var budget := Budget(a.balance, a.riskPercent);
    SmallerIsCapped(a.symbol, LotsForEquity(a.balance), budget / perLot, t.remaining);
    PlannedLoss(a, t, stopPips, perLot, budget);
    LoneTranche(a, t, -StopPnl(t, a.pip, a.pipValue, a.symbol.lotSize));
  }

  lemma TwoTranches(a: Account, t: Tranche, u: Tranche)
    requires Sane(a)
    ensures Worst(a, 0.0, [t, u]) == Worst(a, 0.0, [t]) + StopPnl(u, a.pip, a.pipValue, a.symbol.lotSize)
    ensures OpenLots([t, u], a.symbol.lotSize) == OpenLots([t], a.symbol.lotSize) + Lots(u.remaining, a.symbol.lotSize)
  {
    Appended(a, [t], u);
    assert [t] + [u] == [t, u];
  }
}
