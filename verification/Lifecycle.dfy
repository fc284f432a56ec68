/** The lifecycle state recorded for a candidate or group, event by event. */
module Lifecycle {
  import opened Common

  /** `Other` is a state found in the store that no table lists. */
  datatype State =
    | ExecutorReceived | RoutingSelected | OrderPlanned | WaitingForPrice | OrderSubmitted | OrderAccepted
    | OrderFilled | Managing | PartiallyClosed | RetryableError | BrokerOutcomeUnknown
    | Closed | Rejected | Expired | Cancelled | Invalidated | Error | IntegrityError
    | Other(name: string)

  datatype EventType =
    | Received | Routed | Planned | ZonePlanned | ManualPlanned | Submitted | Accepted
    | Opened | ManualOpened | Added | IsManaging | TakeProfit | PositionClosed | ManualClosed | GroupResult
    | WasRejected | ZoneExpired | ManualExpired | ManualCancelled | WasCancelled | WasInvalidated
    | CandidateRetryable | LeaseLost | OutcomeUnknown | IntegrityBroken | TerminalError
    | ManualCommandError | ConfigFatal | ServiceError | Telemetry

  /** An event about one owner; `readable` tells whether the recorded state could be read. */
  datatype Event = Event(kind: EventType, remaining: Option<int>, readable: bool)

  function Rank(s: State): int {
    match s
    case ExecutorReceived => 10
    case RoutingSelected => 20
    case OrderPlanned => 30
    case WaitingForPrice => 35
    case OrderSubmitted => 40
    case OrderAccepted => 50
    case OrderFilled => 60
    case Managing => 70
    case PartiallyClosed => 80
    case RetryableError => 5
    case BrokerOutcomeUnknown => 45
    case Other(_) => 0
    case _ => 100
  }

  predicate Recovering(s: State) { s.RetryableError? || s.BrokerOutcomeUnknown? }

  predicate Terminal(s: State) {
    s.Closed? || s.Rejected? || s.Expired? || s.Cancelled? || s.Invalidated? || s.Error? || s.IntegrityError?
  }

  /** The state an event leads to; None for telemetry and for events that leave the state alone. */
  function Target(e: Event): Option<State> {
    match e.kind
    case Received => Some(ExecutorReceived)
    case Routed => Some(RoutingSelected)
    case Planned => Some(OrderPlanned)
    case ZonePlanned => Some(WaitingForPrice)
    case ManualPlanned => Some(WaitingForPrice)
    case Submitted => Some(OrderSubmitted)
    case Accepted => Some(OrderAccepted)
    case Opened => Some(OrderFilled)
    case ManualOpened => Some(OrderFilled)
    case Added => Some(OrderFilled)
    case IsManaging => Some(Managing)
    case TakeProfit => if e.remaining.Some? && e.remaining.value > 0 then Some(PartiallyClosed) else Some(Closed)
    case PositionClosed => Some(Closed)
    case ManualClosed => Some(Closed)
    case GroupResult => Some(Closed)
    case WasRejected => Some(Rejected)
    case ZoneExpired => Some(Expired)
    case ManualExpired => Some(Expired)
    case ManualCancelled => Some(Cancelled)
    case WasCancelled => Some(Cancelled)
    case WasInvalidated => Some(Invalidated)
    case CandidateRetryable => Some(RetryableError)
    case OutcomeUnknown => Some(BrokerOutcomeUnknown)
    case IntegrityBroken => Some(IntegrityError)
    case TerminalError => Some(Error)
    case ManualCommandError => Some(Error)
    case ConfigFatal => Some(Error)
    case LeaseLost => None
    case ServiceError => None
    case Telemetry => None
  }

  datatype Outcome = Applied | Duplicate | Invalid | Recovery

  predicate RecoveryTransition(current: State, target: State) {
    || (current.ExecutorReceived? && target.OrderFilled?)
    || (current.OrderSubmitted? && target.OrderFilled?)
    || (current.OrderAccepted? && target.OrderFilled?)
    || Recovering(current)
    || (Recovering(target) && !Terminal(current))
    || (target.Managing? && !Terminal(current) && Rank(current) < Rank(Managing))
  }

  predicate InvalidTransition(current: State, target: State) {
    || (current.Closed? && target.Managing?)
    || (current.Rejected? && target.OrderSubmitted?)
    || (current.OrderFilled? && target.RoutingSelected?)
    || (Terminal(current) && !Terminal(target))
    || (Rank(target) < Rank(current) && !RecoveryTransition(current, target))
  }

  function EvaluateTransition(current: Option<State>, target: State): Outcome {
    if current.None? then Applied
    else if current.value == target then Duplicate
    else if RecoveryTransition(current.value, target) then Recovery
    else if InvalidTransition(current.value, target) then Invalid
    else Applied
  }

  /** The recorded state after an event. A state that cannot be read counts as none. */
  function Step(current: Option<State>, e: Event): Option<State> {
    if Target(e).None? then current else
    var outcome := EvaluateTransition(if e.readable then current else None, Target(e).value);
    if outcome.Applied? || outcome.Recovery? then Target(e) else current
  }

  predicate Run(states: seq<Option<State>>, events: seq<Event>) {
    |states| == |events| + 1 && forall i | 0 <= i < |events| :: states[i + 1] == Step(states[i], events[i])
  }

  /** What the tables come to: a readable state gives way to another one exactly when it is a
      recovery state, or it is not terminal and the other is a recovery state, or the other
      ranks no lower and does not reopen a terminal state. */
  lemma GivesWay(current: State, target: State)
    requires current != target
    ensures EvaluateTransition(Some(current), target).Invalid? <==>
      !(|| Recovering(current)
        || (!Terminal(current) && Recovering(target))
        || (Rank(target) >= Rank(current) && (Terminal(current) ==> Terminal(target))))
  {
  }

  /** The stages of a trade, in order. */
  const STAGES: seq<State> := [
    ExecutorReceived, RoutingSelected, OrderPlanned, WaitingForPrice, OrderSubmitted, OrderAccepted, OrderFilled,
    Managing, PartiallyClosed]

  predicate Ended(s: State) { s in {Closed, Rejected, Expired, Cancelled, Invalidated, Error, IntegrityError} }

  /** A trade moves forward through its stages, over any of them, and never back; from each it can end, and
      nothing of that kind follows an end. A state in no table gives way to all of them. */
  lemma StagesInOrder(i: nat, j: nat, end: State, name: string)
    requires i < |STAGES| && j < |STAGES| && Ended(end)
    ensures EvaluateTransition(Some(STAGES[i]), STAGES[j]).Invalid? <==> j < i
    ensures EvaluateTransition(Some(STAGES[i]), STAGES[j]).Duplicate? <==> i == j
    ensures EvaluateTransition(Some(STAGES[i]), end) == Applied
    ensures EvaluateTransition(Some(end), STAGES[j]) == Invalid
    ensures !EvaluateTransition(Some(Other(name)), STAGES[j]).Invalid?
    ensures EvaluateTransition(None, STAGES[j]) == Applied
  {
    StageRank(i);
    StageRank(j);
    Moves(STAGES[i], STAGES[j], end, name);
  }

  /** The ranks of the stages, ten by ten but for two steps. */
  function StageNumber(i: nat): int { if i < 3 then 10 * (i + 1) else if i == 3 then 35 else 10 * i }

  lemma StageRank(i: nat)
    requires i < |STAGES|
    ensures Rank(STAGES[i]) == StageNumber(i) && Stage(STAGES[i])
  {
    if i < 3 { assert i == 0 || i == 1 || i == 2; }
    else if i < 6 { assert i == 3 || i == 4 || i == 5; }
    else { assert i == 6 || i == 7 || i == 8; }
  }

  /** Neither a recovery state nor an end nor unknown. */
  predicate Stage(s: State) { !Recovering(s) && !Terminal(s) && !s.Other? }

  lemma SameRank(s: State, t: State)
    requires Stage(s) && Stage(t)
    ensures Rank(s) == Rank(t) ==> s == t
    ensures 0 < Rank(s) < 100
  {
  }

  lemma Moves(s: State, t: State, end: State, name: string)
    requires Ended(end) && Stage(s) && Stage(t)
    ensures EvaluateTransition(Some(s), t).Invalid? <==> Rank(t) < Rank(s)
    ensures EvaluateTransition(Some(s), t).Duplicate? <==> Rank(s) == Rank(t)
    ensures EvaluateTransition(Some(s), end) == Applied && EvaluateTransition(Some(end), t) == Invalid
    ensures !EvaluateTransition(Some(Other(name)), t).Invalid?
  {
    SameRank(s, t);
    if s != t { GivesWay(s, t); }
    GivesWay(Other(name), t);
    Ends(s, end);
    Ends(t, end);
  }

  lemma Ends(s: State, end: State)
    requires Ended(end) && Stage(s)
    ensures EvaluateTransition(Some(s), end) == Applied && EvaluateTransition(Some(end), s) == Invalid
  {
    SameRank(s, s);
    assert Terminal(end) && Rank(end) == 100;
    GivesWay(s, end);
    GivesWay(end, s);
  }

  /** A transition counts as a recovery exactly out of the two recovery states, from a live state into one
      of them, when a fill is found for a candidate that had not got that far, and when a position that is
      not closed in part is found to be managed. */
  lemma RecoversExactly(current: State, target: State)
    requires current != target
    ensures EvaluateTransition(Some(current), target) == Recovery <==>
      || current in {RetryableError, BrokerOutcomeUnknown}
      || (target in {RetryableError, BrokerOutcomeUnknown} && !Ended(current))
      || (target == OrderFilled && current in {ExecutorReceived, OrderSubmitted, OrderAccepted})
      || (target == Managing && current != PartiallyClosed && !Ended(current))
  {
  }

  /** Which events lead to each state. A target closes a position in part while something is left, and
      everything that ends a position closes it; what no table lists is never recorded. */
  lemma LedTo(e: Event, s: State)
    ensures Target(e) == Some(s) <==>
      match s
      case ExecutorReceived => e.kind.Received?
      case RoutingSelected => e.kind.Routed?
      case OrderPlanned => e.kind.Planned?
      case WaitingForPrice => e.kind in {ZonePlanned, ManualPlanned}
      case OrderSubmitted => e.kind.Submitted?
      case OrderAccepted => e.kind.Accepted?
      case OrderFilled => e.kind in {Opened, ManualOpened, Added}
      case Managing => e.kind.IsManaging?
      case PartiallyClosed => e.kind.TakeProfit? && e.remaining.Some? && e.remaining.value > 0
      case RetryableError => e.kind.CandidateRetryable?
      case BrokerOutcomeUnknown => e.kind.OutcomeUnknown?
      case Closed =>
        || e.kind in {PositionClosed, ManualClosed, GroupResult}
        || (e.kind.TakeProfit? && (e.remaining.Some? ==> e.remaining.value <= 0))
      case Rejected => e.kind.WasRejected?
      case Expired => e.kind in {ZoneExpired, ManualExpired}
      case Cancelled => e.kind in {ManualCancelled, WasCancelled}
      case Invalidated => e.kind.WasInvalidated?
      case Error => e.kind in {TerminalError, ManualCommandError, ConfigFatal}
      case IntegrityError => e.kind.IntegrityBroken?
      case Other(_) => false
  {
  }

  predicate AllReadable(events: seq<Event>, i: nat, j: nat)
    requires i <= j <= |events|
  {
    forall k | i <= k < j :: events[k].readable
  }

  /** Once a terminal state is recorded, every later one is terminal. */
  lemma {:induction false} TerminalStays(states: seq<Option<State>>, events: seq<Event>, i: nat, j: nat)
    requires Run(states, events) && i <= j < |states| && AllReadable(events, i, j)
    requires states[i].Some? && Terminal(states[i].value)
    ensures states[j].Some? && Terminal(states[j].value)
  {
    if i < j {
      TerminalStays(states, events, i, j - 1);
      assert states[j] == Step(states[j - 1], events[j - 1]);
    }
  }

  predicate NoRecovery(states: seq<Option<State>>, i: nat, j: nat)
    requires i <= j < |states|
  {
    forall k | i <= k <= j :: states[k].Some? ==> !Recovering(states[k].value)
  }

  /** Between visits to the recovery states the rank never falls. */
  lemma {:induction false} RankNeverFalls(states: seq<Option<State>>, events: seq<Event>, i: nat, j: nat)
    requires Run(states, events) && i <= j < |states| && AllReadable(events, i, j)
    requires states[i].Some? && NoRecovery(states, i, j)
    ensures states[j].Some? && Rank(states[i].value) <= Rank(states[j].value)
  {
    if i < j {
      RankNeverFalls(states, events, i, j - 1);
      assert states[j] == Step(states[j - 1], events[j - 1]);
      RankStep(states[j - 1].value, events[j - 1]);
    }
  }

  lemma RankStep(current: State, e: Event)
    requires e.readable && !Recovering(current)
    ensures Step(Some(current), e).Some?
    ensures Recovering(Step(Some(current), e).value) || Rank(current) <= Rank(Step(Some(current), e).value)
  {
  }

  /** From a recovery state every state an event names can be reached. */
  lemma RecoveryNeverTraps(current: State, e: Event)
    requires Recovering(current) && Target(e).Some?
    ensures Step(Some(current), e) == Target(e)
  {
  }

  /** A terminal state survives an event exactly when it could be read, or the event names no
      other than a terminal state: a failed read reopens it. */
  lemma FailedReadReopens(current: State, e: Event)
    requires Terminal(current)
    ensures Terminal(Step(Some(current), e).value) <==> e.readable || Target(e).None? || Terminal(Target(e).value)
  {
  }
}
