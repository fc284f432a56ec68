/** What an answer to an add means in terms of its inputs: why it was refused, and that an allowed one is
    as large as its caps let it be. */
module ScaleInRules {
  import opened Common
  import opened Arith
  import opened Prices
  import opened ScaleIn
  import opened VolumeRules
  import G = GroupRisk
  import V = VolumePlanner

  // ----- lots by equity ---------------------------------------------------------------------

  /** The bands of the table; the two ramps are rounded to a hundredth of a lot. */
  lemma EquityBands(equity: real)
    ensures var lots := LotsForEquity(equity);
      && (equity < 200.0 ==> lots == 0.0)
      && (200.0 <= equity < 600.0 ==> -0.005 <= lots - (0.02 + (equity - 200.0) * 0.04 / 700.0) <= 0.005)
      && (600.0 <= equity <= 1000.0 ==> lots == 0.1)
      && (1000.0 < equity < 2000.0 ==> lots == 0.12)
      && (2000.0 <= equity < 3000.0 ==> lots == 0.15)
      && (3000.0 <= equity < 5000.0 ==> -0.005 <= lots - (0.25 + (equity - 3000.0) * 0.05 / 2000.0) <= 0.005)
      && (5000.0 <= equity ==> lots == 0.3)
  {
    Hundredth();
    if 200.0 <= equity < 600.0 { RoundNear(0.02 + (equity - 200.0) * 0.04 / 700.0, TickSize(2)); }
    if 3000.0 <= equity < 5000.0 { RoundNear(0.25 + (equity - 3000.0) * 0.05 / 2000.0, TickSize(2)); }
  }

  lemma Hundredth()
    ensures TickSize(2) == 0.01
  {
    assert TickSize(1) == 0.1;
  }

  // ----- refusals ---------------------------------------------------------------------------

  /** Why an add is refused, first reason first. */
  lemma RefusedExactly(s: Sizing, booked: real, group: seq<Tranche>, symbol: V.Symbol, targets: seq<int>,
                       weights: seq<int>)
    ensures var d := Plan(s, booked, group, symbol, targets, weights);
      var valid := && s.balance > 0.0 && s.riskPercent > 0.0 && s.pipValue > 0.0 && s.addStopPips > 0.0
                   && 0.0 < s.addFraction <= 1.0 && s.pip > 0.0 && 0.0 < s.addRatio <= 1.0;
      && (d == Rejected(InvalidInputs) <==> !valid)
      && (valid ==>
            var headroom := s.balance * s.riskPercent / 100.0
                            + WorstCase(booked, group, s.pip, s.pipValue, symbol.lotSize);
            && (d == Rejected(CeilingExhausted) <==> headroom <= 0.0)
            && (headroom > 0.0 ==>
                  (d == Rejected(ExposureReached) <==>
                     LotsForEquity(s.balance) <= OpenLots(group, symbol.lotSize))))
  {
    if ValidInputs(s) { RiskPerLotPositive(s); }
  }

  // ----- the size ---------------------------------------------------------------------------

  /** The four caps on an add: room in the table, what the group may still lose, what the add may lose,
      and its ratio to the first tranche when that is known. */
  datatype Caps = Caps(room: real, headroom: real, risk: real, lots: Option<real>)

  function CapsOf(s: Sizing, booked: real, group: seq<Tranche>, symbol: V.Symbol): Caps
    requires s.pip > 0.0
  {
    var budget := s.balance * s.riskPercent / 100.0;
    Caps(LotsForEquity(s.balance) - OpenLots(group, symbol.lotSize),
         budget + WorstCase(booked, group, s.pip, s.pipValue, symbol.lotSize),
         s.addFraction * budget, OfFirst(s))
  }

  function OfFirst(s: Sizing): Option<real> {
    match s.initialLots
    case Some(lots) => Some(lots * s.addRatio)
    case None => None
  }

  /** What stopping out the add costs. */
  function Loss(s: Sizing, lots: real): real { lots * (s.addStopPips * s.pipValue) }

  predicate Under(s: Sizing, caps: Caps, lots: real) {
    && lots <= caps.room && Loss(s, lots) <= caps.headroom && Loss(s, lots) <= caps.risk
    && (caps.lots.Some? ==> lots <= caps.lots.value)
  }

  /** A volume that fits all caps. */
  predicate Fits(s: Sizing, booked: real, group: seq<Tranche>, symbol: V.Symbol, volume: int)
    requires s.pip > 0.0 && symbol.lotSize > 0
  {
    Under(s, CapsOf(s, booked, group, symbol), volume as real / symbol.lotSize as real)
  }

  function RawOf(s: Sizing, caps: Caps): real
    requires RiskPerLot(s) > 0.0
  {
    RawLots(caps.room, caps.headroom, caps.risk, RiskPerLot(s), caps.lots)
  }

  lemma SizedByCaps(s: Sizing, booked: real, group: seq<Tranche>, symbol: V.Symbol)
    requires s.pip > 0.0 && RiskPerLot(s) > 0.0
    ensures RawSize(s, booked, group, symbol.lotSize) == RawOf(s, CapsOf(s, booked, group, symbol))
  {
    CapsAre(s, booked, group, symbol);
  }

  lemma SameNumbers(s: Sizing)
    ensures s.balance * s.riskPercent / 100.0 == Budget(s.balance, s.riskPercent)
    ensures s.addFraction * (s.balance * s.riskPercent / 100.0) == AddCap(s)
    ensures OfFirst(s) == RatioCap(s)
  {
  }

  lemma CapsAre(s: Sizing, booked: real, group: seq<Tranche>, symbol: V.Symbol)
    requires s.pip > 0.0
    ensures CapsOf(s, booked, group, symbol)
         == Caps(LotsForEquity(s.balance) - OpenLots(group, symbol.lotSize),
                 Budget(s.balance, s.riskPercent) + WorstCase(booked, group, s.pip, s.pipValue, symbol.lotSize),
                 AddCap(s), RatioCap(s))
  {
    SameNumbers(s);
  }

  lemma CapsExactly(s: Sizing, lots: real, caps: Caps)
    requires RiskPerLot(s) > 0.0
    ensures Under(s, caps, lots) <==> lots <= RawOf(s, caps)
  {
    RiskWithin(lots, s, caps.headroom);
    RiskWithin(lots, s, caps.risk);
    LeastOf(lots, caps.room, caps.headroom / RiskPerLot(s), caps.risk / RiskPerLot(s), caps.lots);
  }

  lemma LeastOf(x: real, a: real, b: real, c: real, d: Option<real>)
    ensures var caps := Lower(a, Lower(b, c));
      (x <= if d.Some? then Lower(caps, d.value) else caps)
      <==> x <= a && x <= b && x <= c && (d.Some? ==> x <= d.value)
  {
  }

  lemma RiskWithin(lots: real, s: Sizing, cap: real)
    requires RiskPerLot(s) > 0.0
    ensures Loss(s, lots) <= cap <==> lots <= cap / RiskPerLot(s)
  {
    RealDivBound(cap, lots, RiskPerLot(s));
  }

  lemma FitsExactly(s: Sizing, booked: real, group: seq<Tranche>, symbol: V.Symbol, volume: int)
    requires s.pip > 0.0 && symbol.lotSize > 0 && RiskPerLot(s) > 0.0
    ensures Fits(s, booked, group, symbol, volume) <==>
      volume as real / symbol.lotSize as real <= RawSize(s, booked, group, symbol.lotSize)
  {
    SizedByCaps(s, booked, group, symbol);
    CapsExactly(s, volume as real / symbol.lotSize as real, CapsOf(s, booked, group, symbol));
  }

  /** An allowed add fits its caps, and no larger volume the broker takes does. One refused as too small
      leaves none that fits, unless the caps pay for more than the broker takes at once. */
  lemma AddIsTheLargestThatFits(s: Sizing, booked: real, group: seq<Tranche>, symbol: V.Symbol, targets: seq<int>,
                                weights: seq<int>, volume: int)
    requires ValidInputs(s) && symbol.lotSize > 0 && symbol.stepVolume > 0 && symbol.minVolume > 0
    requires Tradable(volume, symbol) && volume <= symbol.maxVolume
    ensures var d := Plan(s, booked, group, symbol, targets, weights);
      && (d.Allowed? ==> Tradable(d.volume, symbol) && d.volume <= symbol.maxVolume
                         && Fits(s, booked, group, symbol, d.volume)
                         && (Fits(s, booked, group, symbol, volume) ==> volume <= d.volume))
      && (d == Rejected(BelowMinimum) && Fits(s, booked, group, symbol, volume) ==>
            Fits(s, booked, group, symbol, symbol.maxVolume + 1))
  {
    RiskPerLotPositive(s);
    var raw := RawSize(s, booked, group, symbol.lotSize);
    PlannedVolume(s, booked, group, symbol, targets, weights);
    LargestFor(raw, symbol, volume);
    FitsExactly(s, booked, group, symbol, volume);
    FitsExactly(s, booked, group, symbol, V.VolumeForLots(raw, symbol));
    FitsExactly(s, booked, group, symbol, symbol.maxVolume + 1);
  }

  lemma LargestFor(lots: real, symbol: V.Symbol, volume: int)
    requires symbol.lotSize > 0 && symbol.stepVolume > 0 && symbol.minVolume > 0
    requires Tradable(volume, symbol) && volume <= symbol.maxVolume
    ensures var v := V.VolumeForLots(lots, symbol);
      && (v > 0 ==> Tradable(v, symbol) && v <= symbol.maxVolume && v as real / symbol.lotSize as real <= lots
                    && (volume as real / symbol.lotSize as real <= lots ==> volume <= v))
      && (v <= 0 && volume as real / symbol.lotSize as real <= lots ==>
            (symbol.maxVolume + 1) as real / symbol.lotSize as real <= lots)
  {
    V.VolumeForLotsRoundsDown(lots, symbol);
    RealDivBound((symbol.maxVolume + 1) as real, lots, symbol.lotSize as real);
    if volume as real / symbol.lotSize as real <= lots { VolumeForLotsIsLargest(lots, symbol, volume); }
  }

  lemma PlannedVolume(s: Sizing, booked: real, group: seq<Tranche>, symbol: V.Symbol, targets: seq<int>,
                      weights: seq<int>)
    requires ValidInputs(s) && RiskPerLot(s) > 0.0
    ensures var d, v := Plan(s, booked, group, symbol, targets, weights),
                        V.VolumeForLots(RawSize(s, booked, group, symbol.lotSize), symbol);
      (d.Allowed? ==> d.volume == v && v > 0) && (d == Rejected(BelowMinimum) ==> v <= 0)
  {
  }

  /** What an allowed add leaves: the group, stopped out, loses no more than the budget, or nothing at all
      in the mode that asks for that. An add that fits is refused only for its ladder or that mode. */
  lemma AllowedKeeps(s: Sizing, booked: real, group: seq<Tranche>, symbol: V.Symbol, targets: seq<int>,
                     weights: seq<int>)
    requires symbol.lotSize > 0 && Plan(s, booked, group, symbol, targets, weights).Allowed?
    ensures var d := Plan(s, booked, group, symbol, targets, weights);
      && s.pip > 0.0
      && d.worst == WorstCase(booked, group, s.pip, s.pipValue, symbol.lotSize)
                    - Loss(s, d.volume as real / symbol.lotSize as real)
      && d.worst >= -(s.balance * s.riskPercent / 100.0) && (s.riskFree ==> d.worst >= 0.0)
  {
    PlanKeepsTheCeiling(s, booked, group, symbol, targets, weights);
    Regroup(Lots(Plan(s, booked, group, symbol, targets, weights).volume, symbol.lotSize), s.addStopPips, s.pipValue);
  }

  lemma OtherRefusals(s: Sizing, booked: real, group: seq<Tranche>, symbol: V.Symbol, targets: seq<int>,
                      weights: seq<int>)
    ensures var d := Plan(s, booked, group, symbol, targets, weights);
      && !d.Threw? && (d.Rejected? ==> d.reason in {InvalidInputs, CeilingExhausted, ExposureReached, BelowMinimum,
                                                   LadderInfeasible, NotRiskFree})
      && (d == Rejected(NotRiskFree) ==> s.riskFree)
      && (d == Rejected(LadderInfeasible) ==>
            ValidInputs(s) && RiskPerLot(s) > 0.0
            && !V.Plannable(V.VolumeForLots(RawSize(s, booked, group, symbol.lotSize), symbol), symbol, targets,
                            weights))
  {
    PlanKeepsTheCeiling(s, booked, group, symbol, targets, weights);
    if ValidInputs(s) { RiskPerLotPositive(s); }
  }

  // ----- the first tranche ------------------------------------------------------------------

  /** A size within the caps its mode asks for: the table, the budget, or both. */
  predicate WithinMode(mode: G.SizingMode, table: real, budget: real, perLot: real, lots: real) {
    (mode != G.ByRisk ==> lots <= table) && (mode != G.ByTable ==> lots * perLot <= budget)
  }

  predicate InitialFits(a: G.Account, mode: G.SizingMode, perLot: real, lots: real) {
    WithinMode(mode, LotsForEquity(a.balance), a.balance * a.riskPercent / 100.0, perLot, lots)
  }

  lemma ModeExactly(mode: G.SizingMode, table: real, budget: real, perLot: real, lots: real)
    requires perLot > 0.0
    ensures WithinMode(mode, table, budget, perLot, lots) <==> lots <= G.InitialLots(mode, table, budget / perLot)
  {
    RealDivBound(budget, lots, perLot);
  }

  lemma InitialFitsExactly(a: G.Account, mode: G.SizingMode, perLot: real, lots: real, budget: real)
    requires perLot > 0.0 && budget == Budget(a.balance, a.riskPercent)
    ensures InitialFits(a, mode, perLot, lots) <==>
      lots <= G.InitialLots(mode, LotsForEquity(a.balance), budget / perLot)
  {
    ModeExactly(mode, LotsForEquity(a.balance), budget, perLot, lots);
  }

  /** A first tranche is the largest volume the broker takes within the caps of its mode; there is none
      only when none fits, or when the caps pay for more than the broker takes at once. */
  lemma InitialIsLargest(a: G.Account, mode: G.SizingMode, perLot: real, volume: int)
    requires perLot > 0.0 && a.symbol.lotSize > 0 && a.symbol.stepVolume > 0 && a.symbol.minVolume > 0
    requires Tradable(volume, a.symbol) && volume <= a.symbol.maxVolume
    ensures var v, lotSize := G.InitialVolume(a, mode, perLot), a.symbol.lotSize as real;
      && (v > 0 ==> Tradable(v, a.symbol) && v <= a.symbol.maxVolume
                    && InitialFits(a, mode, perLot, v as real / lotSize)
                    && (InitialFits(a, mode, perLot, volume as real / lotSize) ==> volume <= v))
      && (v <= 0 && InitialFits(a, mode, perLot, volume as real / lotSize) ==>
            InitialFits(a, mode, perLot, (a.symbol.maxVolume + 1) as real / lotSize))
  {
    var budget := Budget(a.balance, a.riskPercent);
    var lots := G.InitialLots(mode, LotsForEquity(a.balance), budget / perLot);
    var lotSize := a.symbol.lotSize as real;
    LargestFor(lots, a.symbol, volume);
    InitialFitsExactly(a, mode, perLot, volume as real / lotSize, budget);
    InitialFitsExactly(a, mode, perLot, V.VolumeForLots(lots, a.symbol) as real / lotSize, budget);
    InitialFitsExactly(a, mode, perLot, (a.symbol.maxVolume + 1) as real / lotSize, budget);
  }

  /** Closed at its stop a tranche earns what sizing expects of it. */
  lemma ClosedAtItsStop(a: G.Account, t: Tranche)
    requires a.pip > 0.0
    ensures G.Pnl(a, t, t.stop, t.remaining) == StopPnl(t, a.pip, a.pipValue, a.symbol.lotSize)
  {
  }
}
