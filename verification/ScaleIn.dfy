/** Adding to a trade: how large an add may be, and why the group never risks more than its
    budget. Money, lots and prices are exact. */
module ScaleIn {
  import opened Common
  import opened Arith
  import opened Prices
  import V = VolumePlanner

  datatype Tranche = Tranche(direction: Direction, entry: real, stop: real, remaining: int)

  /** What an add is sized from. `balance` and `riskPercent` are the group's, the rest the add's. */
  datatype Sizing = Sizing(
    balance: real, riskPercent: real, pipValue: real, pip: real,
    addFraction: real, addStopPips: real, initialLots: Option<real>, addRatio: real, riskFree: bool)

  datatype Reason =
    | InvalidInputs | CeilingExhausted | ExposureReached | BelowMinimum
    | LadderInfeasible | CeilingBreached | NotRiskFree

  datatype Decision =
    | Allowed(volume: int, worst: real)
    | Rejected(reason: Reason)
    | Threw(message: string)

  // ----- money ------------------------------------------------------------------------

  function Lots(volume: int, lotSize: int): real {
    if lotSize > 0 then volume as real / lotSize as real else 0.0
  }

  /** What `lots` lots earn over a price gain. */
  function Earn(gain: real, lots: real, pip: real, pipValue: real): real
    requires pip > 0.0
  {
    gain / pip * lots * pipValue
  }

  function StopPnl(t: Tranche, pip: real, pipValue: real, lotSize: int): real
    requires pip > 0.0
  {
    Earn(Gain(t.direction, t.entry, t.stop), Lots(t.remaining, lotSize), pip, pipValue)
  }

  function StopPnls(group: seq<Tranche>, pip: real, pipValue: real, lotSize: int): seq<real>
    requires pip > 0.0
  {
    seq(|group|, i requires 0 <= i < |group| => StopPnl(group[i], pip, pipValue, lotSize))
  }

  /** What the group has made once every open tranche is stopped out. */
  function WorstCase(booked: real, group: seq<Tranche>, pip: real, pipValue: real, lotSize: int): real
    requires pip > 0.0
  {
    booked + RSum(StopPnls(group, pip, pipValue, lotSize))
  }

  function OpenLots(group: seq<Tranche>, lotSize: int): real {
    RSum(seq(|group|, i requires 0 <= i < |group| => Lots(group[i].remaining, lotSize)))
  }

  function Budget(balance: real, riskPercent: real): real { balance * riskPercent / 100.0 }

  /** The table of lots an account may hold; its jumps are intended. */
  function LotsForEquity(equity: real): real {
    if equity < 200.0 then 0.0 else
    RoundToTick(
      if equity >= 5000.0 then 0.30
      else if equity >= 3000.0 then 0.25 + (equity - 3000.0) * 0.05 / 2000.0
      else if equity >= 2000.0 then 0.15
      else if equity > 1000.0 then 0.12
      else if equity >= 600.0 then 0.10
      else 0.02 + (equity - 200.0) * 0.04 / 700.0,
      TickSize(2))
  }

  // ----- sizing one add ---------------------------------------------------------------

  function Lower(a: real, b: real): real { if a <= b then a else b }

  /** What losing the add's stop on one lot costs. */
  function RiskPerLot(s: Sizing): real { s.addStopPips * s.pipValue }

  function AddRisk(lots: real, s: Sizing): real { lots * s.addStopPips * s.pipValue }

  predicate ValidInputs(s: Sizing) {
    && s.balance > 0.0 && s.riskPercent > 0.0 && s.pipValue > 0.0
    && 0.0 < s.addFraction <= 1.0 && s.addStopPips > 0.0 && s.pip > 0.0
    && 0.0 < s.addRatio <= 1.0
  }

  lemma RiskPerLotPositive(s: Sizing)
    requires ValidInputs(s)
    ensures RiskPerLot(s) > 0.0
  {
  }

  /** The tightest of the four caps. */
  function RawLots(headroomLots: real, headroomRisk: real, addCap: real, perLot: real,
                   ratioCap: Option<real>): (r: real)
    requires perLot > 0.0
    ensures r <= headroomLots && r <= headroomRisk / perLot && r <= addCap / perLot
    ensures ratioCap.Some? ==> r <= ratioCap.value
  {
    var caps := Lower(headroomLots, Lower(headroomRisk / perLot, addCap / perLot));
    if ratioCap.Some? then Lower(caps, ratioCap.value) else caps
  }

  function AddCap(s: Sizing): real { s.addFraction * Budget(s.balance, s.riskPercent) }

  function RatioCap(s: Sizing): Option<real> {
    if s.initialLots.Some? then Some(s.initialLots.value * s.addRatio) else None
  }

  /** What an add is sized to before it is rounded down to the broker's steps. */
  function RawSize(s: Sizing, booked: real, group: seq<Tranche>, lotSize: int): real
    requires s.pip > 0.0 && RiskPerLot(s) > 0.0
  {
    RawLots(LotsForEquity(s.balance) - OpenLots(group, lotSize),
            Budget(s.balance, s.riskPercent) + WorstCase(booked, group, s.pip, s.pipValue, lotSize),
            AddCap(s), RiskPerLot(s), RatioCap(s))
  }

  const EPSILON := 0.000001

  function AssertInvariants(table: real, postLots: real, budget: real, post: real, cap: real,
                            risk: real): Option<string> {
    if postLots > table + EPSILON then Some("exposure")
    else if post < -budget - EPSILON then Some("group loss")
    else if risk > cap + EPSILON then Some("add risk cap")
    else None
  }

  /** The checks behind the size. */
  function Judge(volume: int, lots: real, risk: real, table: real, open: real, budget: real, worst: real,
                 addCap: real, riskFree: bool): Decision
  {
    var post := worst - risk;
    if post < -budget then Rejected(CeilingBreached)
    else if riskFree && post < 0.0 then Rejected(NotRiskFree)
    else
      var broken := AssertInvariants(table, open + lots, budget, post, addCap, risk);
      if broken.Some? then Threw(broken.value) else Allowed(volume, post)
  }

  function Plan(s: Sizing, booked: real, group: seq<Tranche>, symbol: V.Symbol, targets: seq<int>,
                weights: seq<int>): Decision
  {
    if !ValidInputs(s) then Rejected(InvalidInputs) else
    RiskPerLotPositive(s);
    var budget := Budget(s.balance, s.riskPercent);
    var table := LotsForEquity(s.balance);
    var open := OpenLots(group, symbol.lotSize);
    var worst := WorstCase(booked, group, s.pip, s.pipValue, symbol.lotSize);
    if budget + worst <= 0.0 then Rejected(CeilingExhausted)
    else if table - open <= 0.0 then Rejected(ExposureReached)
    else
      var volume := V.VolumeForLots(RawSize(s, booked, group, symbol.lotSize), symbol);
      if volume <= 0 then Rejected(BelowMinimum)
      else if !V.Plannable(volume, symbol, targets, weights) then Rejected(LadderInfeasible)
      else
        var lots := Lots(volume, symbol.lotSize);
        Judge(volume, lots, AddRisk(lots, s), table, open, budget, worst, AddCap(s), s.riskFree)
  }

  /** An allowed add comes with a ladder that closes exactly its volume. */
  method PlanWithLadder(s: Sizing, booked: real, group: seq<Tranche>, symbol: V.Symbol, targets: seq<int>,
                        weights: seq<int>)
    returns (d: Decision, ladder: Option<V.TargetPlan>)
    ensures d == Plan(s, booked, group, symbol, targets, weights)
    ensures d.Allowed? <==> ladder.Some?
    ensures ladder.Some? ==> V.Executable(ladder.value, d.volume, symbol)
  {
    d := Plan(s, booked, group, symbol, targets, weights);
    ladder := None;
    if d.Allowed? {
      ladder := V.BuildTargetPlan(d.volume, symbol, targets, weights);
    }
  }

  /** Lots within `cap / perLot` cost at most the cap. */
  lemma CapHolds(lots: real, stopPips: real, pipValue: real, perLot: real, cap: real)
    requires perLot > 0.0 && perLot == stopPips * pipValue && lots <= cap / perLot
    ensures lots * stopPips * pipValue <= cap
  {
    RealDivMul(cap, perLot);
    RealMulMonotone(lots, cap / perLot, perLot);
    Regroup(lots, stopPips, pipValue);
  }

  lemma Regroup(a: real, b: real, c: real)
    ensures a * b * c == a * (b * c)
  {
  }

  /** What the caps mean for the volume that is bought. */
  lemma SizeWithinCaps(s: Sizing, headroomLots: real, headroomRisk: real, addCap: real, perLot: real,
                       ratioCap: Option<real>, symbol: V.Symbol)
    requires perLot > 0.0 && perLot == RiskPerLot(s)
    requires V.VolumeForLots(RawLots(headroomLots, headroomRisk, addCap, perLot, ratioCap), symbol) > 0
    ensures symbol.lotSize > 0
    ensures var lots := Lots(V.VolumeForLots(RawLots(headroomLots, headroomRisk, addCap, perLot, ratioCap), symbol),
                             symbol.lotSize);
      && lots <= headroomLots
      && AddRisk(lots, s) <= headroomRisk && AddRisk(lots, s) <= addCap
      && (ratioCap.Some? ==> lots <= ratioCap.value)
  {
    var raw := RawLots(headroomLots, headroomRisk, addCap, perLot, ratioCap);
    V.VolumeForLotsRoundsDown(raw, symbol);
    var lots := Lots(V.VolumeForLots(raw, symbol), symbol.lotSize);
    CapHolds(lots, s.addStopPips, s.pipValue, perLot, headroomRisk);
    CapHolds(lots, s.addStopPips, s.pipValue, perLot, addCap);
  }

  lemma JudgeAllows(volume: int, lots: real, risk: real, table: real, open: real, budget: real, worst: real,
                    addCap: real, riskFree: bool)
    requires lots <= table - open && risk <= budget + worst && risk <= addCap
    ensures var d := Judge(volume, lots, risk, table, open, budget, worst, addCap, riskFree);
      d == if riskFree && worst - risk < 0.0 then Rejected(NotRiskFree) else Allowed(volume, worst - risk)
  {
  }

  /** The internal assertions never fire, the check for a breached ceiling is dead code, and an
      allowed add keeps the exposure, the ceiling, the add's own cap and its size ratio. */
  lemma PlanKeepsTheCeiling(s: Sizing, booked: real, group: seq<Tranche>, symbol: V.Symbol, targets: seq<int>,
                            weights: seq<int>)
    ensures var d := Plan(s, booked, group, symbol, targets, weights);
      && !d.Threw? && d != Rejected(CeilingBreached)
      && (d.Allowed? ==>
            && ValidInputs(s) && symbol.lotSize > 0 && d.volume > 0
            && d.worst == WorstCase(booked, group, s.pip, s.pipValue,
                                    symbol.lotSize) - AddRisk(Lots(d.volume, symbol.lotSize), s)
            && d.worst >= -Budget(s.balance, s.riskPercent)
            && (s.riskFree ==> d.worst >= 0.0)
            && OpenLots(group, symbol.lotSize) + Lots(d.volume, symbol.lotSize) <= LotsForEquity(s.balance)
            && AddRisk(Lots(d.volume, symbol.lotSize), s) <= AddCap(s)
            && (RatioCap(s).Some? ==> Lots(d.volume, symbol.lotSize) <= RatioCap(s).value))
  {
    if ValidInputs(s) {
      RiskPerLotPositive(s);
      var budget, table, open := Budget(s.balance, s.riskPercent), LotsForEquity(s.balance),
          OpenLots(group, symbol.lotSize);
      var worst := WorstCase(booked, group, s.pip, s.pipValue, symbol.lotSize);
      var raw := RawLots(table - open, budget + worst, AddCap(s), RiskPerLot(s), RatioCap(s));
      var volume := V.VolumeForLots(raw, symbol);
      if volume > 0 {
        SizeWithinCaps(s, table - open, budget + worst, AddCap(s), RiskPerLot(s), RatioCap(s), symbol);
        JudgeAllows(volume, Lots(volume, symbol.lotSize), AddRisk(Lots(volume, symbol.lotSize), s),
                    table, open, budget, worst, AddCap(s), s.riskFree);
      }
    }
  }

  /** A plan worked out by hand. */
  lemma PlanAllows(s: Sizing, booked: real, group: seq<Tranche>, symbol: V.Symbol, targets: seq<int>, weights: seq<int>,
                   table: real, open: real, budget: real, worst: real, perLot: real, addCap: real,
                   ratioCap: Option<real>, volume: int, lots: real, risk: real)
    requires ValidInputs(s) && !s.riskFree && perLot == RiskPerLot(s) && perLot > 0.0
    requires addCap == AddCap(s) && ratioCap == RatioCap(s)
    requires budget == Budget(s.balance, s.riskPercent) && table == LotsForEquity(s.balance)
    requires open == OpenLots(group, symbol.lotSize)
    requires worst == WorstCase(booked, group, s.pip, s.pipValue, symbol.lotSize)
    requires budget + worst > 0.0 && table - open > 0.0
    requires volume == V.VolumeForLots(RawLots(table - open, budget + worst, addCap, perLot, ratioCap), symbol)
    requires volume > 0 && V.Plannable(volume, symbol, targets, weights)
    requires lots == Lots(volume, symbol.lotSize) && risk == AddRisk(lots, s)
    requires lots <= table - open && risk <= budget + worst && risk <= addCap
    ensures Plan(s, booked, group, symbol, targets, weights) == Allowed(volume, worst - risk)
  {
    JudgeAllows(volume, lots, risk, table, open, budget, worst, addCap, s.riskFree);
  }
}
