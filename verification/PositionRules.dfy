/** What the engine's decisions about one position or group mean, and that a restarted engine makes of a
    position's volume what the live book has. */
module PositionRules {
  import opened Common
  import opened Arith
  import opened Sums
  import opened Prices
  import opened StopTrail
  import opened Positions
  import ScaleIn
  import PositionComments

  // ----- quotes and targets -----------------------------------------------------------------

  lemma ReachedExactly(d: Direction, quote: real, target: real)
    ensures HasReachedExitTarget(d, quote, target) <==> Reaches(d, quote, target)
  {
  }

  /** A target is booked exactly when the quote is newer than the one that filled the position, reaches
      the target on the side the position is left at, and what the close leaves is nothing or enough to be
      closed itself; the last target leaves nothing. */
  lemma BookableExactly(p: Position, q: Quote, rules: Rules)
    requires WellFormed(p) && p.next < |p.clip.pips| && p.slices[p.next] > 0
    ensures var slice, left := p.slices[p.next], p.clip.remaining;
      Bookable(p, q, rules) <==>
      && q.sequence > p.seenSequence && (p.seenTime > 0 ==> q.time >= p.seenTime)
      && Reaches(p.clip.direction, if p.clip.direction == Buy then q.bid else q.ask, TargetPrice(p, p.next, rules.pip))
      && (p.next + 1 == |p.clip.pips| || left <= slice || left - slice >= rules.minVolume)
      && !(p.scaleOut && p.scaleOutBooked && p.next == 0)
    ensures CloseVolume(p) == if p.next + 1 < |p.clip.pips| && p.slices[p.next] < p.clip.remaining
                              then p.slices[p.next] else p.clip.remaining
  {
  }

  /** Without a price of its own, a position with a range exit books every target there. */
  lemma RangeExitIsBooked(p: Position, row: nat, pip: real)
    requires row < |p.clip.pips| && p.clip.prices.None? && p.rangeExit.Some?
    ensures TargetPrice(p, row, pip) == p.rangeExit.value
  {
  }

  /** A leg takes over all figures of its group; it keeps the stop distance it was risked with only when the
      source has none. Nothing of its own changes. */
  lemma InheritsExactly(p: Position, source: Position)
    ensures var q := Inherit(p, source);
      && q.figures.(riskStopPips := source.figures.riskStopPips) == source.figures
      && q.pipVolume == source.pipVolume && q.groupInitial == source.groupInitial
      && q.trancheCount == source.trancheCount
      && (source.figures.riskStopPips.Some? ==> q.figures == source.figures)
      && (source.figures.riskStopPips.None? ==> q.figures.riskStopPips == p.figures.riskStopPips)
      && p == q.(figures := p.figures, pipVolume := p.pipVolume, groupInitial := p.groupInitial,
                 trancheCount := p.trancheCount)
  {
  }

  /** A manual position reports a target of its group's price list exactly when the quote reaches it and
      no leg of the group books it; a leg without a group only speaks for itself. */
  lemma PassedExactly(p: Position, selected: set<int>, q: Quote, n: int)
    ensures Passed(p, selected, q, n) <==>
      && p.clip.prices.Some? && 1 <= n <= |p.clip.prices.value|
      && Reaches(p.clip.direction, if p.clip.direction == Buy then q.bid else q.ask, p.clip.prices.value[n - 1])
      && n !in selected && (selected == {} && p.clip.ordinals.Some? ==> n !in p.clip.ordinals.value)
  {
  }

  /** A target is one the group books exactly when some leg of it has the target's number. */
  lemma SelectedByLegs(states: map<Id, Position>, group: string, n: int)
    ensures n in SelectedOrdinals(states, group) <==>
      exists id | id in states ::
        states[id].group == group && states[id].clip.ordinals.Some? && n in states[id].clip.ordinals.value
  {
  }

  // ----- the broker's answers ---------------------------------------------------------------

  /** What is left of a position is what the broker says; when it does not say, what was there less what
      it closed, an owner's close without a volume counting as all. */
  lemma LeftExactly(p: Position, volume: int, fill: Fill, e: Execution)
    requires p.clip.remaining > 0
    ensures fill.remaining.Some? ==> Left(p, volume, fill) == fill.remaining.value
    ensures fill.remaining.None? && volume <= p.clip.remaining ==> Left(p, volume, fill) + volume == p.clip.remaining
    ensures fill.remaining.None? && volume >= p.clip.remaining ==> Left(p, volume, fill) == 0
    ensures e.remaining.Some? ==> OwnerLeft(p, e) == e.remaining.value
    ensures e.remaining.None? && 0 < e.executed <= p.clip.remaining ==> OwnerLeft(p, e) + e.executed == p.clip.remaining
    ensures e.remaining.None? && (e.executed <= 0 || e.executed >= p.clip.remaining) ==> OwnerLeft(p, e) == 0
  {
  }

  /** A close counts at the broker's price; without one a target's close counts at the quote and an
      owner's as if left where it was entered. */
  lemma PricedExactly(p: Position, volume: int, fill: Fill, e: Execution, quote: real, pip: real)
    requires pip > 0.0
    ensures fill.price > 0.0 ==> CloseOf(p, volume, fill, quote, pip).pips * pip
                                 == Gain(p.clip.direction, p.clip.entry, fill.price)
    ensures fill.price <= 0.0 ==> CloseOf(p, volume, fill, quote, pip).pips * pip
                                  == Gain(p.clip.direction, p.clip.entry, quote)
    ensures e.price > 0.0 ==> OwnerCloseOf(p, e, pip).pips * pip == Gain(p.clip.direction, p.clip.entry, e.price)
    ensures e.price <= 0.0 ==> OwnerCloseOf(p, e, pip).pips == 0.0
  {
    RealDivMul(Gain(p.clip.direction, p.clip.entry, fill.price), pip);
    RealDivMul(Gain(p.clip.direction, p.clip.entry, quote), pip);
    RealDivMul(Gain(p.clip.direction, p.clip.entry, e.price), pip);
  }

  /** The money a close books is what sizing counts for the same volume left at the same price. */
  lemma MoneyIsWhatSizingCounts(d: Direction, entry: real, price: real, volume: int, rules: Rules)
    requires rules.pip > 0.0
    ensures Money(SignedPips(d, entry, price, rules.pip), volume, rules)
         == ScaleIn.Earn(Gain(d, entry, price), ScaleIn.Lots(volume, rules.lotSize), rules.pip, rules.pipValue)
  {
  }

  // ----- the shallow fill -------------------------------------------------------------------

  /** The manual legs of a group that are still open, and the one just booked. */
  predicate IsManualLeg(states: map<Id, Position>, ids: seq<Id>, completed: Position, p: Position) {
    p.manual && ((exists i | 0 <= i < |ids| :: ids[i] in states && states[ids[i]] == p)
                 || (completed.id !in ids && p == completed))
  }

  lemma GroupLegsAre(states: map<Id, Position>, ids: seq<Id>, completed: Position)
    requires forall i | 0 <= i < |ids| :: ids[i] in states
    ensures forall p :: p in GroupLegs(states, ids, completed) <==> IsManualLeg(states, ids, completed, p)
  {
    var legs := Legs(states, ids);
    var more := if completed.id in ids then [] else [completed];
    forall p ensures p in legs + more <==>
               (exists i | 0 <= i < |ids| :: states[ids[i]] == p) || (completed.id !in ids && p == completed)
    {
      if i :| 0 <= i < |ids| && states[ids[i]] == p { assert legs[i] == p; }
      if p in legs {
        var i :| 0 <= i < |legs| && legs[i] == p;
        assert states[ids[i]] == p;
      }
    }
  }

  /** The stop after the second target is the most protective fill among the legs of the first tranche, or
      among all when none of those is left. */
  lemma ShallowEntryIsBest(legs: seq<Position>, d: Direction)
    requires legs != [] && forall p | p in legs :: p.clip.direction == d
    ensures var shallow := exists p | p in legs :: p.tranche == 1;
      && (forall p | p in legs && (shallow ==> p.tranche == 1) :: AtLeast(d, ShallowEntry(legs), p.clip.entry))
      && (exists p | p in legs :: (shallow ==> p.tranche == 1) && p.clip.entry == ShallowEntry(legs))
  {
    assert legs[0] in legs;
    var first := FirstTranche(legs);
    if first != [] {
      assert first[0] in first && first[0] in legs;
      var p :| p in first && p.clip.entry == BestEntry(d, first);
      assert p in legs;
    } else {
      forall p | p in legs ensures p.tranche != 1 { assert p !in first; }
    }
  }

  // ----- positions on their ladder ----------------------------------------------------------

  /** The position holds exactly what its targets still to come will close. */
  predicate OnLadder(p: Position) {
    && WellFormed(p) && p.initial == Sum(p.slices) && p.next < |p.slices|
    && p.clip.remaining == Sum(p.slices) - Prefix(p.slices, p.next)
  }

  /** Every slice can be closed by itself. */
  predicate TradableSlices(p: Position, minVolume: int) {
    forall i | 0 <= i < |p.slices| :: p.slices[i] >= minVolume
  }

  /** A position on its ladder closes exactly the slice of its next target and never leaves dust. */
  lemma LadderCloses(p: Position, minVolume: int)
    requires OnLadder(p) && TradableSlices(p, minVolume)
    ensures CloseVolume(p) == p.slices[p.next] && !LeavesDust(p, minVolume)
  {
    PrefixMonotone(p.slices, p.next + 1, |p.slices|);
    if p.next + 2 <= |p.slices| { PrefixMonotone(p.slices, p.next + 2, |p.slices|); }
  }

  /** Booked at its next target in full, it stays on its ladder or is closed. */
  lemma BookedStaysOnLadder(p: Position, q: Position)
    requires OnLadder(p) && AdvancedTo(p, q) && q.clip.remaining == p.clip.remaining - CloseVolume(p)
    ensures if p.next + 1 < |p.slices| then OnLadder(q) else q.clip.remaining == 0
  {
    LadderCloses(p, 1);
    PrefixMonotone(p.slices, p.next + 1, |p.slices|);
    if p.next + 1 < |p.slices| {
      PrefixMonotone(p.slices, p.next + 2, |p.slices|);
    }
  }

  /** A restarted engine, which sees only the volume left and the ladder in the comment, goes on with the
      target the live book would book next, if and only if the closes so far end within that target. */
  lemma RestartAgreesExactly(p: Position)
    requires WellFormed(p) && p.initial == Sum(p.slices) && p.clip.remaining <= p.initial
    ensures PositionComments.NextFrom(p.slices, Max(0, p.initial - p.clip.remaining), 0) == p.next <==>
      && Prefix(p.slices, p.next) <= p.initial - p.clip.remaining
      && (p.next < |p.slices| ==> p.initial - p.clip.remaining < Prefix(p.slices, p.next + 1))
    ensures OnLadder(p) ==> PositionComments.NextFrom(p.slices, Max(0, p.initial - p.clip.remaining), 0) == p.next
  {
    PositionComments.NextIsFirstOpen(p.slices, p.initial - p.clip.remaining, p.next);
  }
}
