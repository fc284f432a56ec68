/** When the engine lets a group grow at all, and a run of allowed adds that overruns the group's
    loss ceiling. */
module AddLimits {
  import opened Common
  import opened Arith
  import opened Prices
  import opened ScaleIn
  import opened GroupRisk
  import S = StopTrail
  import V = VolumePlanner

  datatype AddRules = AddRules(maxTranches: nat, digits: nat, bufferTicks: nat)

  function Floats(a: Account, open: seq<Tranche>, exit: real): seq<real>
    requires a.pip > 0.0
  {
    seq(|open|, i requires 0 <= i < |open| => Pnl(a, open[i], exit, open[i].remaining))
  }

  /** The group's money if it left at the quote: booked and floating. */
  function GroupPnl(a: Account, g: Group, exit: real): real
    requires a.pip > 0.0
  {
    g.booked + RSum(Floats(a, g.open, exit))
  }

  /** The conditions an add of either mode must meet: the first tranche is still open, has booked a
      target and stands at breakeven; the group is in profit; and the add enters at a price better
      than the first tranche's. */
  predicate Triggers(a: Account, g: Group, t: Tranche, rules: AddRules, exit: real)
    requires a.pip > 0.0
  {
    && g.first.Some? && g.first.value < |g.open|
    && (forall i | 0 <= i < |g.open| :: g.open[i].direction == t.direction)
    && g.tranches < rules.maxTranches
    && (var first := g.open[g.first.value];
        && g.reached
        && S.IsAtLeastProtectedBreakeven(first.direction, first.entry, first.stop, rules.digits, rules.bufferTicks)
        && MovesTowardProfit(t.direction, first.entry, t.entry))
    && GroupPnl(a, g, exit) > 0.0
  }

  /** A group that may be added to risks nothing with its first tranche any more: stopped out, that gains
      the buffer, up to half a tick. It has booked a target, the group is in profit, and the add enters in
      the group's direction at a better price, so no add averages down. */
  lemma NoAddAveragesDown(a: Account, g: Group, t: Tranche, rules: AddRules, exit: real)
    requires a.pip > 0.0 && Triggers(a, g, t, rules, exit)
    ensures g.first.Some? && g.first.value < |g.open| && g.reached && g.tranches + 1 <= rules.maxTranches
    ensures var first, tick := g.open[g.first.value], TickSize(rules.digits);
      && Gain(first.direction, first.entry, first.stop) >= rules.bufferTicks as real * tick - 0.5 * tick
      && first.direction == t.direction && Gain(t.direction, first.entry, t.entry) > 0.0
    ensures g.booked + RSum(Floats(a, g.open, exit)) > 0.0
  {
    var first, tick := g.open[g.first.value], TickSize(rules.digits);
    var price := S.Ahead(first.direction, first.entry, S.Distance(rules.bufferTicks, tick));
    RoundNear(price, tick);
  }

  /** A close at some price leaves only tranches open whose stops that price has not reached. */
  predicate StopsStand(g: Group, e: Event) {
    match e
    case TargetClose(i, _, fill) => NotReached(g.open, i, fill)
    case Vanish(i, fill) => NotReached(g.open, i, fill)
    case _ => true
  }

  predicate NotReached(open: seq<Tranche>, but: nat, price: real) {
    forall k | 0 <= k < |open| && k != but :: MovesTowardProfit(open[k].direction, open[k].stop, price)
  }

  // ----- a forgotten loss -----------------------------------------------------------------

  const EXAMPLE := Account(1000.0, 1.0, 1.0, 1.0, V.Symbol(1000, 1000, 1000000, 100000))
  const RULES := AddRules(3, 0, 1)

  /** A fifth is booked 20 pips ahead, the rest 500 pips ahead. */
  const TARGETS := [20, 500]
  const WEIGHTS := [1, 4]

  /** The first tranche, in at 1000. */
  function First(stop: real, remaining: int): Tranche { Tranche(Buy, 1000.0, stop, remaining) }

  /** An add at 1300 that risks x. */
  function Late(x: real): Tranche { Tranche(Buy, 1300.0, 1300.0 - 20.0 * x, 5000) }

  function SizingOf(x: real): Sizing { Sizing(1000.0, 1.0, 1.0, 1.0, 1.0, 20.0 * x, Some(0.05), 1.0, false) }

  function AddOf(x: real): Event { Add(SizingOf(x), Late(x), TARGETS, WEIGHTS) }

  /** The first tranche books its first target and goes to breakeven, a second one is added far
      ahead and stopped out, a third is added. */
  function ForgetfulRun(loss: real): seq<Group> {
    [Started(First(900.0, 5000)),
     Group(0.2, [First(900.0, 4000)], 0.0, 1, Some(0), true),
     Group(0.2, [First(1001.0, 4000)], 0.0, 1, Some(0), true),
     Group(0.2, [First(1001.0, 4000), Late(loss)], 0.0, 2, Some(0), true),
     Group(0.2, [First(1001.0, 4000)], -loss, 2, Some(0), true),
     Group(0.2, [First(1001.0, 4000), Late(10.0)], -loss, 3, Some(0), true)]
  }

  function ForgetfulEvents(loss: real): seq<Event> {
    [TargetClose(0, 1000, 1020.0), MoveStop(0, 1001.0), AddOf(loss), Vanish(1, 1300.0 - 20.0 * loss), AddOf(10.0)]
  }

  lemma ExampleTable()
    ensures LotsForEquity(1000.0) == 0.1 && Budget(1000.0, 1.0) == 10.0
  {
    assert TickSize(1) == 0.1;
    assert TickSize(2) == 0.01;
  }

  lemma FirstFigures(stop: real, remaining: int)
    ensures StopPnl(First(stop, remaining), 1.0, 1.0, 100000) == (stop - 1000.0) * (remaining as real / 100000.0)
    ensures Lots(remaining, 100000) == remaining as real / 100000.0
  {
  }

  lemma LateFigures(x: real)
    ensures StopPnl(Late(x), 1.0, 1.0, 100000) == -x && Lots(5000, 100000) == 0.05
  {
  }

  lemma Alone(t: Tranche)
    ensures Worst(EXAMPLE, 0.0, [t]) == StopPnl(t, 1.0, 1.0, 100000)
    ensures OpenLots([t], 100000) == Lots(t.remaining, 100000)
  {
    Appended(EXAMPLE, [], t);
    assert [] + [t] == [t];
  }

  lemma FirstAlone()
    ensures Worst(EXAMPLE, 0.0, [First(1001.0, 4000)]) == 0.04 && OpenLots([First(1001.0, 4000)], 100000) == 0.04
  {
    FirstFigures(1001.0, 4000);
    Alone(First(1001.0, 4000));
  }

  // ----- what the planner answers ---------------------------------------------------------

  /** What the planner reads off a sizing. */
  predicate Figures(s: Sizing, x: real) {
    && ValidInputs(s) && !s.riskFree && RatioCap(s) == Some(0.05) && RiskPerLot(s) == 20.0 * x && 20.0 * x > 0.0
    && AddCap(s) == 10.0 && AddRisk(0.05, s) == x && Budget(s.balance, s.riskPercent) == 10.0
  }

  predicate Buys(symbol: V.Symbol, x: real) {
    && 20.0 * x > 0.0 && V.VolumeForLots(RawLots(0.06, 10.24, 10.0, 20.0 * x, Some(0.05)), symbol) == 5000
    && V.Plannable(5000, symbol, TARGETS, WEIGHTS) && Lots(5000, symbol.lotSize) == 0.05
  }

  predicate Ready(s: Sizing, open: seq<Tranche>, symbol: V.Symbol, x: real) {
    && 0.0 < x <= 10.0 && LotsForEquity(s.balance) == 0.1 && Figures(s, x)
    && OpenLots(open, symbol.lotSize) == 0.04 && WorstCase(0.2, open, s.pip, s.pipValue, symbol.lotSize) == 0.24
    && Buys(symbol, x)
  }

  lemma AddFrom(s: Sizing, open: seq<Tranche>, symbol: V.Symbol, x: real)
    requires Ready(s, open, symbol, x)
    ensures Plan(s, 0.2, open, symbol, TARGETS, WEIGHTS) == Allowed(5000, 0.24 - x)
  {
    assert 0.1 - 0.04 == 0.06 && 10.0 + 0.24 == 10.24;
    PlanAllows(s, 0.2, open, symbol, TARGETS, WEIGHTS, 0.1, 0.04, 10.0, 0.24, 20.0 * x, 10.0, Some(0.05), 5000,
               0.05, x);
  }

  lemma CapsAllow(x: real)
    requires 0.0 < x <= 10.0
    ensures RawLots(0.06, 10.24, 10.0, 20.0 * x, Some(0.05)) == 0.05
  {
    RealDivBound(10.0, 0.05, 20.0 * x);
    RealDivBound(10.24, 0.05, 20.0 * x);
  }

  lemma LateVolume(x: real)
    requires 0.0 < x <= 10.0
    ensures Buys(EXAMPLE.symbol, x)
  {
    CapsAllow(x);
    assert V.WholeVolume(0.05, 100000) == 5000 && V.ToStep(5000, 1000) == 5000;
    assert V.MinimumSteps(EXAMPLE.symbol) == 1 && V.AvailableExits(5000, EXAMPLE.symbol) == 5;
  }

  lemma SizingFigures(s: Sizing, x: real)
    requires 0.0 < x <= 10.0 && s == SizingOf(x)
    ensures Figures(s, x)
  {
  }

  lemma LateReady(x: real)
    requires 0.0 < x <= 10.0
    ensures Ready(SizingOf(x), [First(1001.0, 4000)], EXAMPLE.symbol, x)
  {
    ExampleTable();
    FirstAlone();
    SizingFigures(SizingOf(x), x);
    LateVolume(x);
  }

  /** The planner allows the add, whatever was lost before. */
  lemma LateAllowed(x: real)
    requires 0.0 < x <= 10.0
    ensures Plan(SizingOf(x), 0.2, [First(1001.0, 4000)], EXAMPLE.symbol, TARGETS, WEIGHTS) == Allowed(5000, 0.24 - x)
  {
    LateReady(x);
    AddFrom(SizingOf(x), [First(1001.0, 4000)], EXAMPLE.symbol, x);
  }

  // ----- step by step ---------------------------------------------------------------------

  lemma BookFirst()
    ensures var g, e := ForgetfulRun(1.0)[0], TargetClose(0, 1000, 1020.0);
      Enabled(EXAMPLE, g, e) && Next(EXAMPLE, g, e) == ForgetfulRun(1.0)[1] && StopsStand(g, e)
  {
    assert Pnl(EXAMPLE, First(900.0, 5000), 1020.0, 1000) == 0.2;
  }

  lemma MoveFirst()
    ensures var g, e := ForgetfulRun(1.0)[1], MoveStop(0, 1001.0);
      Enabled(EXAMPLE, g, e) && Next(EXAMPLE, g, e) == ForgetfulRun(1.0)[2] && StopsStand(g, e)
  {
  }

  /** Two tranches are ahead of the first one's stop, and the group with them. */
  lemma LateTriggers(g: Group, x: real, exit: real)
    requires g.booked == 0.2 && g.open == [First(1001.0, 4000)] && g.first == Some(0) && g.reached && g.tranches < 3
    requires exit > 1001.0
    ensures Triggers(EXAMPLE, g, Late(x), RULES, exit)
  {
    var t := First(1001.0, 4000);
    assert Floats(EXAMPLE, g.open, exit) == [Pnl(EXAMPLE, t, exit, 4000)];
    OneSum(Pnl(EXAMPLE, t, exit, 4000));
    assert Pnl(EXAMPLE, t, exit, 4000) == (exit - 1000.0) * 0.04;
    assert TickSize(0) == 1.0 && RoundToTick(1001.0, 1.0) == 1001.0;
    assert S.ProtectedBreakevenStop(Buy, 1000.0, 0, 1) == 1001.0;
  }

  lemma OneSum(x: real)
    ensures RSum([x]) == x
  {
    assert [x][..0] == [];
  }

  lemma AddLate(g: Group, x: real)
    requires 0.0 < x <= 10.0 && g.booked == 0.2 && g.open == [First(1001.0, 4000)]
    ensures Enabled(EXAMPLE, g, AddOf(x))
    ensures Next(EXAMPLE, g, AddOf(x))
         == g.(open := [First(1001.0, 4000), Late(x)], tranches := g.tranches + 1)
  {
    LateAllowed(x);
  }

  lemma VanishLate(loss: real)
    requires 0.0 < loss <= 10.0
    ensures var g, e := ForgetfulRun(loss)[3], Vanish(1, 1300.0 - 20.0 * loss);
      Enabled(EXAMPLE, g, e) && Next(EXAMPLE, g, e) == ForgetfulRun(loss)[4] && StopsStand(g, e)
  {
    assert Without([First(1001.0, 4000), Late(loss)], 1) == [First(1001.0, 4000)];
    assert Pnl(EXAMPLE, Late(loss), 1300.0 - 20.0 * loss, 5000) == -loss;
  }

  /** One step of the run: the group moves on, an add meets its triggers at any quote ahead of the
      first tranche's stop, and a close reaches no stop of a tranche that stays open. */
  predicate GoodStep(groups: seq<Group>, events: seq<Event>, k: nat, exit: real)
    requires k < |events| < |groups|
  {
    && Enabled(EXAMPLE, groups[k], events[k]) && groups[k + 1] == Next(EXAMPLE, groups[k], events[k])
    && StopsStand(groups[k], events[k])
    && (events[k].Add? ==> Triggers(EXAMPLE, groups[k], events[k].t, RULES, exit))
  }

  lemma ForgetfulStep(loss: real, k: nat, exit: real)
    requires 0.0 < loss <= 10.0 && k < 5 && exit > 1001.0
    ensures GoodStep(ForgetfulRun(loss), ForgetfulEvents(loss), k, exit)
  {
    if k == 0 { BookFirst(); }
    else if k == 1 { MoveFirst(); }
    else if k == 2 { FirstAdd(loss, exit); }
    else if k == 3 { VanishLate(loss); }
    else { SecondAdd(loss, exit); }
  }

  lemma FirstAdd(loss: real, exit: real)
    requires 0.0 < loss <= 10.0 && exit > 1001.0
    ensures GoodStep(ForgetfulRun(loss), ForgetfulEvents(loss), 2, exit)
  {
    AddLate(ForgetfulRun(loss)[2], loss);
    LateTriggers(ForgetfulRun(loss)[2], loss, exit);
  }

  lemma SecondAdd(loss: real, exit: real)
    requires 0.0 < loss <= 10.0 && exit > 1001.0
    ensures GoodStep(ForgetfulRun(loss), ForgetfulEvents(loss), 4, exit)
  {
    AddLate(ForgetfulRun(loss)[4], 10.0);
    LateTriggers(ForgetfulRun(loss)[4], 10.0, exit);
  }

  /** A run all of whose steps are good. */
  ghost predicate GoodRun(groups: seq<Group>, events: seq<Event>, exit: real) {
    Run(EXAMPLE, groups, events) && forall k | 0 <= k < |events| :: GoodStep(groups, events, k, exit)
  }

  lemma ForgetfulIsGood(loss: real, exit: real)
    requires 0.0 < loss <= 10.0 && exit > 1001.0
    ensures GoodRun(ForgetfulRun(loss), ForgetfulEvents(loss), exit)
  {
    var groups, events := ForgetfulRun(loss), ForgetfulEvents(loss);
    forall k | 0 <= k < |events| ensures GoodStep(groups, events, k, exit) {
      ForgetfulStep(loss, k, exit);
    }
    AllStepsRun(groups, events, exit);
  }

  lemma AllStepsRun(groups: seq<Group>, events: seq<Event>, exit: real)
    requires |groups| == |events| + 1 && forall k | 0 <= k < |events| :: GoodStep(groups, events, k, exit)
    ensures GoodRun(groups, events, exit)
  {
    forall k | 0 <= k < |events|
      ensures Enabled(EXAMPLE, groups[k], events[k]) && groups[k + 1] == Next(EXAMPLE, groups[k], events[k])
    {
      assert GoodStep(groups, events, k, exit);
    }
  }

  lemma ForgetfulStarts(loss: real)
    ensures Inv(EXAMPLE, ForgetfulRun(loss)[0])
  {
    ExampleTable();
    FirstFigures(900.0, 5000);
    Alone(First(900.0, 5000));
  }

  lemma ForgetfulEnds(loss: real)
    ensures Headroom(EXAMPLE, ForgetfulRun(loss)[5]) == 0.24 - loss
    ensures WithinCeiling(EXAMPLE, ForgetfulRun(loss)[5]) <==> loss <= 0.24
  {
    ExampleTable();
    FirstAlone();
    LateFigures(10.0);
    TwoTranches(EXAMPLE, First(1001.0, 4000), Late(10.0));
  }

  lemma ForgetfulShortfall(loss: real)
    requires loss > 0.0
    ensures Shortfall(ForgetfulRun(loss), ForgetfulEvents(loss), 5) == loss
  {
    var groups, events := ForgetfulRun(loss), ForgetfulEvents(loss);
    assert Shortfall(groups, events, 1) == 0.0;
    assert Shortfall(groups, events, 2) == 0.0;
    assert Shortfall(groups, events, 3) == 0.0;
    assert Shortfall(groups, events, 4) == 0.0;
  }

  /** A stop-out that is not booked lets the next add risk the whole budget again: for every loss up
      to the budget a run in which every add meets its triggers and every close respects the stops
      of the tranches it leaves, and which ends `loss` deeper than the planner believes. The
      ceiling is overrun exactly when the loss exceeds the 0.24 the first tranche has secured. */
  lemma ForgottenLossIsRiskedAgain(loss: real, exit: real)
    requires 0.0 < loss <= 10.0 && exit > 1001.0
    ensures GoodRun(ForgetfulRun(loss), ForgetfulEvents(loss), exit) && Inv(EXAMPLE, ForgetfulRun(loss)[0])
    ensures Headroom(EXAMPLE, ForgetfulRun(loss)[5]) == 0.24 - loss
    ensures Shortfall(ForgetfulRun(loss), ForgetfulEvents(loss), 5) == loss
    ensures WithinCeiling(EXAMPLE, ForgetfulRun(loss)[5]) <==> loss <= 0.24
  {
    ForgetfulIsGood(loss, exit);
    ForgetfulStarts(loss);
    ForgetfulEnds(loss);
    ForgetfulShortfall(loss);
  }
}
