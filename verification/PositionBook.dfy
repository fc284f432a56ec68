/** The book of tracked positions: booking targets, moving stops, owner closes and legs that
    vanish at the broker. One symbol; what the broker did is kept beside the book as ghost. */
module PositionBook {
  import opened Common
  import opened Prices
  import opened StopTrail
  import opened Positions

  class PositionBook {
    var states: map<Id, Position>
    const rules: Rules
    ghost var closes: seq<Close>
    ghost var placed: Placed
    /** Closes execute the volume they were asked for. */
    ghost const exact: bool
    /** A broker that grants everything it is asked, closes at the quoted price. */
    const obliging: bool

    ghost predicate Valid()
      reads this
    {
      && rules.pip > 0.0 && rules.minVolume > 0
      && Agrees(states, closes, exact) && Covered(states, placed)
    }

    ghost function Now(): Book
      reads this
    {
      Book(states, closes, placed)
    }

    /** A book of positions nothing has been closed of yet. */
    constructor (rules: Rules, initial: map<Id, Position>, ghost exact: bool, obliging: bool)
      requires rules.pip > 0.0 && rules.minVolume > 0
      requires forall id | id in initial :: initial[id].id == id && WellFormed(initial[id])
                 && initial[id].initial == initial[id].clip.remaining && initial[id].pipVolume == 0.0
      ensures Valid() && states == initial && closes == [] && placed.lagging == {} && placed.log == []
      ensures this.rules == rules && this.exact == exact && this.obliging == obliging
    {
      this.rules, this.exact, this.obliging, states, closes := rules, exact, obliging, initial, [];
      placed := Placed(map id | id in initial :: initial[id].clip.stop, {}, {}, []);
    }

    method Members(group: string) returns (ids: seq<Id>)
      ensures Lists(states, group, ids)
    {
      ids := MembersOf(states, group);
    }

    static method MembersOf(states: map<Id, Position>, group: string) returns (ids: seq<Id>)
      ensures Lists(states, group, ids)
    {
      ids := [];
      var rest := states.Keys;
      while rest != {}
        invariant rest <= states.Keys
        invariant forall i | 0 <= i < |ids| :: ids[i] in states && states[ids[i]].group == group && ids[i] !in rest
        invariant forall id | id in states && id !in rest && states[id].group == group :: id in ids
        invariant forall i, j | 0 <= i < j < |ids| :: ids[i] != ids[j]
        decreases rest
      {
        var id :| id in rest;
        rest := rest - {id};
        if states[id].group == group { ids := ids + [id]; }
      }
    }

    method PropagateGroupMetadata(source: Position)
      modifies `states
      ensures states == Propagated(old(states), source)
    {
      var ids := Members(source.group);
      for i := 0 to |ids|
        invariant states.Keys == old(states.Keys)
        invariant forall id | id in states ::
          states[id] == if id in ids[..i] then Inherit(old(states)[id], source) else old(states)[id]
      {
        assert ids[..i + 1] == ids[..i] + [ids[i]];
        states := states[ids[i] := Inherit(states[ids[i]], source)];
      }
      assert ids[..|ids|] == ids;
    }

    method SyncGroupRealizedPipVolume(group: string, but: Id, pipVolume: real)
      modifies `states
      ensures states == Synced(old(states), group, but, pipVolume)
    {
      var ids := Members(group);
      for i := 0 to |ids|
        invariant states.Keys == old(states.Keys)
        invariant forall id | id in states ::
          states[id] == if id in ids[..i] && id != but then old(states)[id].(pipVolume := pipVolume)
              else old(states)[id]
      {
        assert ids[..i + 1] == ids[..i] + [ids[i]];
        if ids[i] != but {
          states := states[ids[i] := states[ids[i]].(pipVolume := pipVolume)];
        }
      }
      assert ids[..|ids|] == ids;
    }

    /** The broker: closes part of a position at a price of its own, or does not confirm. */
    method ClosePosition(p: Position, volume: int, quote: real) returns (fill: Option<Fill>)
      requires rules.pip > 0.0 && 0 < volume <= p.clip.remaining
      modifies `closes
      ensures fill.None? ==> closes == old(closes)
      ensures fill.Some? ==> Executed(p, volume, fill.value, exact)
                             && closes == old(closes) + [CloseOf(p, volume, fill.value, quote, rules.pip)]
      ensures obliging ==> fill == Some(Fill(Some(p.clip.remaining - volume), 0.0))
    {
      var confirmed: bool, price: real := *, *;
      if obliging {
        confirmed, price := true, 0.0;
      }
      if !confirmed {
        return None;
      }
      fill := Some(Fill(Some(p.clip.remaining - volume), price));
      closes := closes + [CloseOf(p, volume, fill.value, quote, rules.pip)];
    }

    /** Asks the broker to amend a stop; the broker may refuse. */
    method ApplyStopTrailMove(p: Position, stop: real, ghost reported: bool) returns (q: Position)
      requires p.id in placed.stops
      modifies `placed
      ensures StopMoved(p, Some(stop), reported, old(placed), placed, q)
      ensures obliging ==> q == Moved(p, stop) && placed == Amended(old(placed), p, stop, reported)
    {
      var accepted: bool := *;
      if accepted || obliging {
        q, placed := Moved(p, stop), Amended(placed, p, stop, reported);
      } else {
        q, placed := p, Requested(placed, p.id, stop);
      }
    }

    method ProtectOne(id: Id, stop: real)
      requires id in states && Covered(states, placed)
      modifies `states, `placed
      ensures states.Keys == old(states.Keys) && Asked(old(states)[id], states[id], stop, old(placed), placed, obliging)
      ensures forall other | other in states && other != id :: states[other] == old(states)[other]
      ensures Covered(states, placed) && placed.lagging <= old(placed.lagging)
      ensures Grows(old(placed), placed) && StopsKeptBut(old(placed), placed, [id])
    {
      if Holds(states[id].clip, stop) {
        return;
      }
      var updated := ApplyStopTrailMove(states[id], stop, false);
      MovedIsCovered(states, old(placed), placed, id, Some(stop), updated);
      AskedOne(states[id], stop, old(placed), placed, updated, obliging);
      states, placed := states[id := updated], Written(placed, updated);
    }

    /** Moves each listed position to its stop unless it already holds it. */
    method ProtectEach(ids: seq<Id>, stops: seq<real>)
      requires |ids| == |stops| && forall i | 0 <= i < |ids| :: ids[i] in states
      requires forall i, j | 0 <= i < j < |ids| :: ids[i] != ids[j]
      requires Covered(states, placed)
      modifies `states, `placed
      ensures OnlyStops(old(states), states) && Covered(states, placed)
      ensures placed.lagging <= old(placed.lagging) && Grows(old(placed), placed)
      ensures forall i | 0 <= i < |ids| ::
        Asked(old(states)[ids[i]], states[ids[i]], stops[i], old(placed), placed, obliging)
    {
      for i := 0 to |ids|
        invariant AskedSoFar(old(states), old(placed), states, placed, ids, stops, i, obliging)
        invariant Covered(states, placed) && placed.lagging <= old(placed.lagging)
      {
        ProtectNext(ids, stops, i, old(states), old(placed));
      }
      AskedOnlyStops(old(states), old(placed), states, placed, ids, stops, obliging);
    }

    method ProtectNext(ids: seq<Id>, stops: seq<real>, i: nat, ghost before: map<Id, Position>, ghost was: Placed)
      requires i < |ids| == |stops| && (forall j, k | 0 <= j < k < |ids| :: ids[j] != ids[k])
      requires Covered(states, placed) && Covered(before, was)
      requires AskedSoFar(before, was, states, placed, ids, stops, i, obliging)
      modifies `states, `placed
      ensures Covered(states, placed) && placed.lagging <= old(placed.lagging)
      ensures AskedSoFar(before, was, states, placed, ids, stops, i + 1, obliging)
    {
      assert CoveredOne(before[ids[i]], was);
      ProtectOne(ids[i], stops[i]);
      AskedNext(before, was, old(states), old(placed), states, placed, ids, stops, i, obliging);
    }

    /** One stop for all legs of a manual ladder. When the broker goes along, what the group has
        booked and what its legs bring in at their stops is at least the buffer on its volume. A group
        of mixed directions is refused, and nothing moves. */
    method ProtectByGroupStop(ids: seq<Id>) returns (threw: bool, ghost move: Option<real>)
      requires Valid() && forall i | 0 <= i < |ids| :: ids[i] in states
      requires forall i, j | 0 <= i < j < |ids| :: ids[i] != ids[j]
      modifies `states, `placed
      ensures OnlyStops(old(states), states) && Covered(states, placed)
      ensures placed.lagging <= old(placed.lagging) && Grows(old(placed), placed)
      ensures threw ==> states == old(states) && placed == old(placed)
      ensures threw <==> GroupMove(old(states), ids, rules).Refused?
      ensures !threw ==> GroupMove(old(states), ids, rules) == Planned(move)
      ensures !threw ==> GroupAsked(old(states), states, ids, move, old(placed), placed, obliging)
      ensures !threw && ids != [] && GroupInitialVolume(old(states), ids) > 0 && GroupHolds(states, ids, move) ==>
        LocksBuffer(GroupRealizedPipVolume(old(states), ids), GroupInitialVolume(old(states), ids), Clips(states, ids),
                    rules)
    {
      var plan := GroupMove(states, ids, rules);
      threw, move := plan.Refused?, None;
      if threw {
        return;
      }
      move := plan.move;
      if plan.move.Some? {
        ProtectEach(ids, seq(|ids|, _ => plan.move.value));
      }
      if ids != [] && GroupInitialVolume(old(states), ids) > 0 && GroupHolds(states, ids, move) {
        ProtectedGroupLocks(old(states), states, old(placed), placed, ids, rules, move, obliging);
      }
    }

    /** The same for all the legs of a group: the buffer is locked on all it started with. */
    method ProtectWholeGroup(group: string, ids: seq<Id>) returns (threw: bool, ghost move: Option<real>)
      requires Valid() && Lists(states, group, ids)
      modifies `states, `placed
      ensures OnlyStops(old(states), states) && Covered(states, placed)
      ensures placed.lagging <= old(placed.lagging) && Grows(old(placed), placed)
      ensures threw <==> GroupMove(old(states), ids, rules).Refused?
      ensures !threw ==> GroupMove(old(states), ids, rules) == Planned(move)
      ensures !threw ==> GroupAsked(old(states), states, ids, move, old(placed), placed, obliging)
      ensures exact && !threw && ids != [] && GroupHolds(states, ids, move) ==>
        LocksTheWhole(old(states), closes, group, Clips(states, ids), rules)
    {
      threw, move := ProtectByGroupStop(ids);
      if exact && !threw && ids != [] && GroupHolds(states, ids, move) {
        PlansWithTheTruth(old(states), closes, group, ids, Clips(states, ids), rules);
      }
    }

    /** After the group's first target: a manual ladder gets one stop for the group, any other
        group protects each leg at its own breakeven. */
    method ProtectRemainingGroupStopsAtBreakEven(group: string)
      returns (used: bool, threw: bool, ghost ids: seq<Id>, ghost move: Option<real>)
      requires Valid()
      modifies `states, `placed
      ensures OnlyStops(old(states), states) && Covered(states, placed)
      ensures placed.lagging <= old(placed.lagging) && Grows(old(placed), placed)
      ensures Lists(old(states), group, ids) && used == ManualMultiLeg(old(states), ids)
      ensures used ==> (threw <==> GroupMove(old(states), ids, rules).Refused?)
      ensures used && !threw ==> GroupMove(old(states), ids, rules) == Planned(move)
      ensures used && !threw ==> GroupAsked(old(states), states, ids, move, old(placed), placed, obliging)
      ensures exact && used && !threw && ids != [] && GroupHolds(states, ids, move) ==>
        LocksTheWhole(old(states), closes, group, Clips(states, ids), rules)
      ensures !used ==> !threw && forall i | 0 <= i < |ids| ::
        Asked(old(states)[ids[i]], states[ids[i]], BreakevenStops(old(states), ids, rules)[i], old(placed), placed,
              obliging)
    {
      var members := Members(group);
      ids, move, threw, used := members, None, false, ManualMultiLeg(states, members);
      if used {
        threw, move := ProtectWholeGroup(group, members);
      } else {
        ProtectEach(members, BreakevenStops(states, members, rules));
      }
    }

    /** After the second target a manual ladder is protected at its shallow fill. */
    method ProtectRemainingManualGroupStopsAtShallowEntry(group: string, completed: Position)
      returns (used: bool, ghost ids: seq<Id>)
      requires Valid()
      modifies `states, `placed
      ensures OnlyStops(old(states), states) && Lists(old(states), group, ids)
      ensures used <==> ManualMultiLeg(old(states), ids) && GroupLegs(old(states), ids, completed) != []
      ensures Covered(states, placed) && placed.lagging <= old(placed.lagging) && Grows(old(placed), placed)
      ensures !used ==> states == old(states) && placed == old(placed)
      ensures used ==> GroupLegs(old(states), ids, completed) != [] && forall i | 0 <= i < |ids| ::
        Asked(old(states)[ids[i]], states[ids[i]], ShallowEntry(GroupLegs(old(states), ids, completed)), old(placed),
              placed, obliging)
    {
      var members := Members(group);
      ids := members;
      used := ManualMultiLeg(states, members);
      if used {
        var legs := GroupLegs(states, members, completed);
        used := legs != [];
        if used {
          ProtectEach(members, seq(|members|, _ => ShallowEntry(legs)));
        }
      }
    }

    /** Moves the local copy's stop to where a target wants it. */
    method MoveStop(p: Position, plan: Planning<Option<real>>, ghost reported: bool) returns (q: Position)
      requires plan.Planned? && p.id in placed.stops
      modifies `placed
      ensures StopMoved(p, plan.move, reported, old(placed), placed, q)
      ensures obliging && plan.move.Some? ==>
        q == Moved(p, plan.move.value) && placed == Amended(old(placed), p, plan.move.value, reported)
    {
      q := p;
      if plan.move.Some? {
        q := ApplyStopTrailMove(p, plan.move.value, reported);
      }
    }

    /** Reports a target that books no volume, once, and trails the stop behind it. The book
        learns that the target was reported and keeps the stop it had: the moved stop stays in
        the local copy. */
    method NotifyTargetReached(p: Position, ordinal: int) returns (q: Position)
      requires Covered(states, placed) && Local(states, placed, p)
      modifies `states, `placed
      ensures Reported(old(states), old(placed), states, placed, p, q)
      ensures ordinal in p.reached ==> q == p && states == old(states) && placed == old(placed)
      ensures ordinal !in p.reached ==>
        Noticed(old(states), old(placed), states, placed, p, q, ordinal, rules, obliging)
    {
      if ordinal in p.reached {
        return p;
      }
      var marked := p.(reached := p.reached + {ordinal});
      NoticeMoveOf(p, marked, ordinal, rules);
      states, placed := states[p.id := marked], Written(placed, marked);
      q := MoveStop(marked, PlanForTargetOrdinal(marked.clip, ordinal, rules.digits, rules.pip, rules.bufferTicks),
                    true);
      NoticeReports(old(states), old(placed), p, marked, NoticeMove(p, ordinal, rules), placed, q);
    }

    /** Reports the targets of a manual group that the quote has reached and no leg books. */
    method NotifySkippedTargets(p: Position, selected: set<int>, quote: Quote) returns (q: Position)
      requires Covered(states, placed) && Local(states, placed, p)
      modifies `states, `placed
      ensures Reported(old(states), old(placed), states, placed, p, q)
      ensures Stale(p, quote) || (forall ordinal :: !Passed(p, selected, quote, ordinal)) ==>
        q == p && states == old(states) && placed == old(placed)
      ensures forall o | !Stale(p, quote) && OnlyDue(p, selected, quote, o)
          && (exists last :: last in Chosen(p, selected) && o < last) ::
        Noticed(old(states), old(placed), states, placed, p, q, o, rules, obliging)
      ensures AllReported(p, q, selected, quote, placed, rules)
    {
      q := p;
      if p.clip.prices.None? || p.clip.prices.value == [] || p.clip.ordinals.None? || p.clip.ordinals.value == []
         || Stale(p, quote) {
        return;
      }
      var chosen := Chosen(p, selected);
      if selected == {} {
        assert p.clip.ordinals.value[0] in chosen;
      }
      var last := Largest(chosen);
      q := NotifyUpTo(p, selected, quote, last);
      UpToLast(p, q, selected, quote, last, placed, rules);
    }

    method NotifyUpTo(p: Position, selected: set<int>, quote: Quote, last: int) returns (q: Position)
      requires Covered(states, placed) && Local(states, placed, p)
      modifies `states, `placed
      ensures Reported(old(states), old(placed), states, placed, p, q)
      ensures (forall ordinal :: !Passed(p, selected, quote, ordinal)) ==>
        q == p && states == old(states) && placed == old(placed)
      ensures forall o | o < last && OnlyDue(p, selected, quote, o) ::
        Noticed(old(states), old(placed), states, placed, p, q, o, rules, obliging)
      ensures AllNoticed(p, q, selected, quote, Max(1, last), placed, rules)
    {
      q := p;
      for ordinal := 1 to Max(1, last)
        invariant Reported(old(states), old(placed), states, placed, p, q)
        invariant NoticesSoFar(old(states), old(placed), states, placed, p, q, selected, quote, ordinal, last, rules,
                               obliging)
        invariant AllNoticed(p, q, selected, quote, ordinal, placed, rules)
      {
        q := NotifyNext(p, q, selected, quote, ordinal, last, old(states), old(placed));
      }
    }

    method NotifyNext(p: Position, copy: Position, selected: set<int>, quote: Quote, ordinal: int, ghost last: int,
                      ghost before: map<Id, Position>, ghost was: Placed) returns (q: Position)
      requires 1 <= ordinal && p.id in before && Reported(before, was, states, placed, p, copy)
      requires NoticesSoFar(before, was, states, placed, p, copy, selected, quote, ordinal, last, rules, obliging)
      requires AllNoticed(p, copy, selected, quote, ordinal, placed, rules)
      modifies `states, `placed
      ensures Reported(before, was, states, placed, p, q)
      ensures NoticesSoFar(before, was, states, placed, p, q, selected, quote, ordinal + 1, last, rules, obliging)
      ensures AllNoticed(p, q, selected, quote, ordinal + 1, placed, rules)
    {
      q := copy;
      if Passed(p, selected, quote, ordinal) && ordinal !in q.reached {
        q := NotifyTargetReached(q, ordinal);
        NoticedTrails(old(states), old(placed), states, placed, copy, q, ordinal, rules, obliging);
        ReportedTransitive(before, was, old(states), old(placed), states, placed, p, copy, q);
      }
      NoticesStep(before, was, old(states), old(placed), states, placed, p, copy, q, selected, quote, ordinal, last,
                  rules, obliging);
      AllNoticedStep(p, copy, q, selected, quote, ordinal, old(placed), placed, rules);
    }

    method Largest(s: set<int>) returns (m: int)
      requires s != {}
      ensures m in s && forall x | x in s :: x <= m
    {
      ghost var some := AnyElement(s);
      m :| m in s;
      var rest := s - {m};
      while rest != {}
        invariant rest <= s && m in s && forall x | x in s && x !in rest :: x <= m
        decreases rest
      {
        ghost var other := AnyElement(rest);
        var x :| x in rest;
        rest := rest - {x};
        if x > m { m := x; }
      }
    }

    /** Books the next target at the broker: the group's figures grow by what it brought in and
        go to every leg; a position with nothing left leaves the book. */
    method BookClose(p: Position, quote: real) returns (confirmed: bool, q: Position)
      requires Valid() && Local(states, placed, p) && WellFormed(p) && p.next < |p.clip.pips|
      requires !LeavesDust(p, rules.minVolume)
      modifies `states, `closes, `placed
      ensures KeepsBook() && placed.lagging <= old(placed.lagging)
      ensures !confirmed ==> q == p && states == old(states) && closes == old(closes)
      ensures confirmed ==> NextBooked(old(Now()), Now(), p, q, exact, rules) && placed == Written(old(placed), q)
      ensures obliging ==> confirmed && closes == old(closes) + [QuotedClose(p, quote, rules.pip)]
    {
      ghost var logged := closes;
      var fill := ClosePosition(p, CloseVolume(p), quote);
      if fill.None? {
        return false, p;
      }
      confirmed := true;
      assert closes[|logged|] == CloseOf(p, CloseVolume(p), fill.value, quote, rules.pip);
      q := BookFill(p, fill.value, quote, logged);
      DoneIsNextBooked(old(Now()), Now(), p, q, CloseOf(p, CloseVolume(p), fill.value, quote, rules.pip), exact, rules);
    }

    /** What the loop over the targets needs of a booked one. */
    method BookNext(p: Position, quote: real) returns (confirmed: bool, q: Position)
      requires Valid() && Local(states, placed, p) && WellFormed(p) && p.next < |p.clip.pips|
      requires !LeavesDust(p, rules.minVolume)
      modifies `states, `closes, `placed
      ensures KeepsBook() && placed.lagging <= old(placed.lagging) && OthersKept(old(states), states, p.id)
      ensures confirmed ==> OneClose(old(closes), closes, p, exact, quote, rules.pip, obliging) && Shrunk(states, p, q)
      ensures confirmed ==> NextBooked(old(Now()), Now(), p, q, exact, rules)
      ensures !confirmed ==> states == old(states) && closes == old(closes)
    {
      confirmed, q := BookClose(p, quote);
      if confirmed {
        BookedOutFacts(old(Now()), Now(), p, q, exact, quote, rules, obliging);
      }
    }

    /** Writes a filled close of the next target to the book. */
    method BookFill(p: Position, fill: Fill, quote: real, ghost logged: seq<Close>) returns (q: Position)
      requires rules.pip > 0.0 && rules.minVolume > 0 && Agrees(states, logged, exact) && Covered(states, placed)
      requires Local(states, placed, p) && WellFormed(p) && p.next < |p.clip.pips| && !LeavesDust(p, rules.minVolume)
      requires Executed(p, CloseVolume(p), fill, exact)
      requires closes == logged + [CloseOf(p, CloseVolume(p), fill, quote, rules.pip)]
      modifies `states, `placed
      ensures rules.pip > 0.0 && placed == Written(old(placed), q)
      ensures BookingDone(Book(old(states), logged, old(placed)), Now(), exact, p, q,
                          CloseOf(p, CloseVolume(p), fill, quote, rules.pip), rules)
    {
      q := BookedPosition(p, fill, quote, logged);
      Put(q);
    }

    /** The position after its next target is booked: the group's figures start from the largest its
        legs carry and grow by what the close brought in. */
    method BookedPosition(p: Position, fill: Fill, quote: real, ghost logged: seq<Close>) returns (q: Position)
      requires rules.pip > 0.0 && Agrees(states, logged, exact) && Covered(states, placed)
      requires Local(states, placed, p) && WellFormed(p) && p.next < |p.clip.pips| && !LeavesDust(p, rules.minVolume)
      requires Executed(p, CloseVolume(p), fill, exact)
      requires closes == logged + [CloseOf(p, CloseVolume(p), fill, quote, rules.pip)]
      ensures q.id in states
      ensures BookingDone(Book(states, logged, placed), Book(AfterBooking(states, q), closes, Written(placed, q)),
                          exact, p, q, CloseOf(p, CloseVolume(p), fill, quote, rules.pip), rules)
    {
      var ids := Members(p.group);
      assert p.id in ids;
      var pips := SignedPips(p.clip.direction, p.clip.entry, PriceOf(fill, quote), rules.pip);
      var figures := FiguresAfter(Legs(states, ids), p, pips, CloseVolume(p), rules);
      q := BookedAs(p, fill, quote, rules.pip, GroupRealizedPipVolume(states, ids), GroupInitialVolume(states, ids),
                    figures);
      BookingIsDone(states, logged, exact, placed, p, fill, quote, rules, ids, figures, q,
                    CloseOf(p, CloseVolume(p), fill, quote, rules.pip));
    }

    /** Stores a booked position, shares its group figures, and drops it when nothing is left. */
    method Put(q: Position)
      requires q.id in states
      modifies `states, `placed
      ensures states == AfterBooking(old(states), q) && placed == Written(old(placed), q)
    {
      states, placed := states[q.id := q], Written(placed, q);
      PropagateGroupMetadata(q);
      if q.clip.remaining <= 0 {
        states := states - {q.id};
      }
    }

    /** What every operation on the book promises. */
    twostate predicate KeepsBook()
      reads this
    {
      && Valid() && Managed(old(Now()), Now())
      && (exact && Tradable(old(states), rules.minVolume) ==> Tradable(states, rules.minVolume))
    }

    method Save(q: Position)
      requires Valid() && q.id in states && Rewrites(states[q.id], q) && WellFormed(q)
      requires CoveredOne(q, placed)
      modifies `states, `placed
      ensures KeepsBook() && states == old(states)[q.id := q] && placed == Written(old(placed), q)
    {
      RewriteKeeps(states, closes, exact, placed, q);
      states, placed := states[q.id := q], Written(placed, q);
    }

    /** Group protection after a booked target; true when it owned the stop of this target. */
    method ProtectGroup(completed: Position, ordinal: int) returns (used: bool, threw: bool)
      requires Valid()
      modifies `states, `placed
      ensures KeepsBook() && OnlyStops(old(states), states) && placed.lagging <= old(placed.lagging)
      ensures GroupProtected(old(Now()), Now(), completed, ordinal, used, threw, exact, rules, obliging)
    {
      used, threw := false, false;
      if ordinal == 1 {
        used, threw := ProtectAfterFirst(completed.group);
      } else if ordinal == 2 {
        used := ProtectAfterSecond(completed);
      }
    }

    /** The same for the position whose target was booked: its own copy changes only in the stop. */
    method ProtectFor(p: Position, ordinal: int) returns (used: bool, threw: bool)
      requires Valid()
      modifies `states, `placed
      ensures KeepsBook() && states.Keys == old(states.Keys) && placed.lagging <= old(placed.lagging)
      ensures OthersKept(old(states), states, p.id)
      ensures GroupProtected(old(Now()), Now(), p, ordinal, used, threw, exact, rules, obliging)
      ensures p.id in states && old(states)[p.id] == p ==>
        states[p.id].id == p.id && states[p.id] == p.(clip := p.clip.(stop := states[p.id].clip.stop))
    {
      used, threw := ProtectGroup(p, ordinal);
      OnlyStopsOthersKept(old(states), states, p.id);
    }

    method ProtectAfterFirst(group: string) returns (used: bool, threw: bool)
      requires Valid()
      modifies `states, `placed
      ensures KeepsBook() && OnlyStops(old(states), states) && placed.lagging <= old(placed.lagging)
      ensures used == ManualGroup(old(states), group)
      ensures used ==> GroupStopAsked(old(Now()), Now(), group, threw, exact, rules, obliging)
      ensures !used ==> !threw && BreakevenAsked(states, group, placed, rules)
    {
      used, threw := GroupOrBreakeven(group);
      OnlyStopsManaged(old(states), states, closes, exact, old(placed), placed, rules.minVolume);
    }

    method GroupOrBreakeven(group: string) returns (used: bool, threw: bool)
      requires Valid()
      modifies `states, `placed
      ensures OnlyStops(old(states), states) && Covered(states, placed)
      ensures placed.lagging <= old(placed.lagging) && Grows(old(placed), placed)
      ensures used == ManualGroup(old(states), group)
      ensures used ==> GroupStopAsked(old(Now()), Now(), group, threw, exact, rules, obliging)
      ensures !used ==> !threw && BreakevenAsked(states, group, placed, rules)
    {
      ghost var ids, move;
      used, threw, ids, move := ProtectRemainingGroupStopsAtBreakEven(group);
      ManualByListing(old(states), group, ids);
      if used {
        GroupStopWasAsked(old(Now()), Now(), group, ids, move, threw, exact, rules, obliging);
      } else {
        AllBreakevenAsked(old(states), states, group, ids, old(placed), placed, rules, obliging);
      }
    }

    method ProtectAfterSecond(completed: Position) returns (used: bool)
      requires Valid()
      modifies `states, `placed
      ensures KeepsBook() && OnlyStops(old(states), states) && placed.lagging <= old(placed.lagging)
      ensures used == ManualGroup(old(states), completed.group)
      ensures used ==> ShallowAsked(old(Now()), Now(), completed, obliging)
      ensures !used ==> states == old(states) && placed == old(placed)
    {
      ghost var ids;
      used, ids := ProtectRemainingManualGroupStopsAtShallowEntry(completed.group, completed);
      ManualByListing(old(states), completed.group, ids);
      ManualLegsThere(old(states), ids, completed);
      OnlyStopsManaged(old(states), states, closes, exact, old(placed), placed, rules.minVolume);
    }

    /** After a target that left volume: the group is protected, or this position's own stop
        trails. */
    method AfterTarget(p: Position, row: nat, ordinal: int) returns (q: Position, used: bool, threw: bool)
      requires Valid() && p.id in states && states[p.id] == p
      modifies `states, `placed
      ensures KeepsBook() && states.Keys == old(states.Keys) && placed.lagging <= old(placed.lagging)
      ensures OthersKept(old(states), states, p.id)
      ensures StopsDone(old(Now()), Now(), p, row, ordinal, used, threw, exact, rules, obliging)
      ensures !threw ==> q.id == p.id && states[q.id] == q
      ensures !threw ==> q == p.(clip := p.clip.(stop := q.clip.stop))
    {
      used, threw := ProtectFor(p, ordinal);
      q := states[p.id];
      if !used {
        ghost var mid := Now();
        q := TrailAfterGroup(p, row, ordinal, old(Now()));
        OthersKeptTransitive(old(states), mid.states, states, p.id);
        ManagedTransitive(old(Now()), mid, Now());
      }
    }

    /** The own stop of a position whose group was looked at, and not protected as one. */
    method TrailAfterGroup(p: Position, row: nat, ordinal: int, ghost before: Book) returns (q: Position)
      requires Valid() && p.id in states && states[p.id].id == p.id
      requires GroupProtected(before, Now(), p, ordinal, false, false, exact, rules, obliging)
      modifies `states, `placed
      ensures KeepsBook() && states.Keys == old(states.Keys) && placed.lagging <= old(placed.lagging)
      ensures OthersKept(old(states), states, p.id)
      ensures StopsDone(before, Now(), p, row, ordinal, false, false, exact, rules, obliging)
      ensures q.id == p.id && states[q.id] == q
      ensures q == old(states)[p.id].(clip := old(states)[p.id].clip.(stop := q.clip.stop))
    {
      q := TrailStop(states[p.id], row);
      TrailedIsDone(before, old(Now()), Now(), p, row, ordinal, old(states)[p.id], q, exact, rules, obliging);
    }

    method TrailStop(p: Position, row: nat) returns (q: Position)
      requires Valid() && p.id in states && states[p.id] == p
      modifies `states, `placed
      ensures KeepsBook() && placed.lagging <= old(placed.lagging)
      ensures q.id == p.id && states == old(states)[p.id := q] && Trailed(q, row, placed, rules)
      ensures q == p.(clip := p.clip.(stop := q.clip.stop))
    {
      var plan := Plan(p.clip, row, rules.digits, rules.pip, rules.bufferTicks);
      q := MoveStop(p, plan, false);
      StopMoveTrails(p, q, row, placed, rules);
      WriteMoved(p, q, plan.move, old(placed));
    }

    /** Writes a moved stop to the book. `was` is what stood before the broker was asked. */
    method WriteMoved(p: Position, q: Position, ghost move: Option<real>, ghost was: Placed)
      requires rules.pip > 0.0 && rules.minVolume > 0 && Agrees(states, closes, exact) && Covered(states, was)
      requires p.id in states && states[p.id] == p && StopMoved(p, move, false, was, placed, q)
      requires move.Some? ==> !Holds(p.clip, move.value)
      modifies `states, `placed
      ensures Valid() && Managed(Book(old(states), closes, was), Now())
      ensures exact && Tradable(old(states), rules.minVolume) ==> Tradable(states, rules.minVolume)
      ensures q.id == p.id && states == old(states)[p.id := q] && q == p.(clip := p.clip.(stop := q.clip.stop))
      ensures placed.requests == old(placed.requests) && placed.lagging <= was.lagging
    {
      TrailManaged(states, closes, exact, was, placed, p, move, q, rules.minVolume);
      states, placed := states[q.id := q], Written(placed, q);
    }

    /** One pass of the loop over a position's targets. */
    method TargetStep(p: Position, quote: Quote)
      returns (q: Position, more: bool, threw: bool, ghost mid: Book, ghost booked: Position, ghost used: bool)
      requires Valid() && Local(states, placed, p) && p.next < |p.clip.pips|
      modifies `states, `placed, `closes
      ensures KeepsBook() && placed.lagging <= old(placed.lagging)
      ensures OthersKept(old(states), states, p.id)
      ensures !Bookable(p, quote, rules) ==> closes == old(closes)
      ensures ScaledOut(p) ==> more && !threw && q == p.(next := 1)
      ensures !ScaledOut(p) && (Stale(p, quote) || !Hit(p, quote, rules.pip)) ==>
        !more && !threw && states == old(states) && placed == old(placed)
      ensures !ScaledOut(p) && !Stale(p, quote) && Hit(p, quote, rules.pip) && LeavesDust(p, rules.minVolume) ==>
        more && !threw && Skipped(p, q, placed, rules)
      ensures Bookable(p, quote, rules) && closes != old(closes) ==>
        TargetBooked(old(Now()), mid, Now(), p, booked, used, threw, exact, rules, obliging)
      ensures Bookable(p, quote, rules) && !threw ==>
        OneClose(old(closes), closes, p, exact, ExitQuote(p.clip.direction, quote), rules.pip, obliging)
      ensures !more && !threw ==> p.id !in states || Settled(states[p.id], quote, rules.pip)
      ensures more ==> Local(states, placed, q) && q.id == p.id && q.clip.pips == p.clip.pips
      ensures more ==> q.clip.remaining < p.clip.remaining || (q.clip.remaining == p.clip.remaining && q.next > p.next)
    {
      q, more, threw := p, false, false;
      mid, booked, used := Now(), p, false;
      if ScaledOut(p) {
        q := GoTo(p, 1);
        more := true;
        return;
      }
      if Stale(p, quote) || !Hit(p, quote, rules.pip) {
        return;
      }
      if LeavesDust(p, rules.minVolume) {
        q := SkipToLast(p);
        more := true;
        return;
      }
      q, more, threw, mid, booked, used := BookTarget(p, quote);
    }

    /** Books the next target and protects what it leaves. */
    method BookTarget(p: Position, quote: Quote)
      returns (q: Position, more: bool, threw: bool, ghost mid: Book, ghost booked: Position, ghost used: bool)
      requires Valid() && Local(states, placed, p) && p.next < |p.clip.pips|
      requires WellFormed(p) && !LeavesDust(p, rules.minVolume)
      modifies `states, `placed, `closes
      ensures KeepsBook() && placed.lagging <= old(placed.lagging)
      ensures OthersKept(old(states), states, p.id)
      ensures !threw ==> (more || p.id !in states)
      ensures closes != old(closes) ==>
        TargetBooked(old(Now()), mid, Now(), p, booked, used, threw, exact, rules, obliging)
      ensures !threw ==>
        OneClose(old(closes), closes, p, exact, ExitQuote(p.clip.direction, quote), rules.pip, obliging)
      ensures more ==> Local(states, placed, q) && q.id == p.id && q.clip.pips == p.clip.pips
      ensures more ==> q.clip.remaining < p.clip.remaining
    {
      more, used := false, false;
      var confirmed;
      confirmed, q := BookNext(p, ExitQuote(p.clip.direction, quote));
      mid, booked, threw := Now(), q, !confirmed;
      if confirmed {
        q, more, threw, used := FollowBooked(p, q, mid);
        KeptBetweenTransitive(old(Now()), mid, Now(), p.id, exact, rules.minVolume);
      }
    }

    /** What follows the close of a target. */
    method FollowBooked(p: Position, booked: Position, ghost mid: Book)
      returns (q: Position, more: bool, threw: bool, ghost used: bool)
      requires mid == Now() && Valid() && p.next < |p.clip.pips| && Shrunk(states, p, booked)
      modifies `states, `placed
      ensures Valid() && KeptBetween(mid, Now(), p.id, exact, rules.minVolume)
      ensures StopsFollow(mid, Now(), p, booked, used, threw, exact, rules, obliging)
      ensures !threw ==> (more || p.id !in states)
      ensures more ==> Local(states, placed, q) && q.id == p.id && q.clip.pips == p.clip.pips
      ensures more ==> q.clip.remaining < p.clip.remaining
    {
      q, more, threw, used := AfterBooked(booked, p.next, Ordinal(p.clip, p.next), mid);
    }

    /** What follows a booked target. A last target that left volume stays the next one. */
    method AfterBooked(p: Position, row: nat, ordinal: int, ghost mid: Book)
      returns (q: Position, more: bool, threw: bool, ghost used: bool)
      requires mid == Now() && Valid() && |p.clip.pips| > 0
      requires if p.clip.remaining <= 0 then p.id !in states else p.id in states && states[p.id] == p
      modifies `states, `placed
      ensures Valid() && KeptBetween(mid, Now(), p.id, exact, rules.minVolume) && states.Keys == mid.states.Keys
      ensures !threw ==> more == (p.clip.remaining > 0)
      ensures more ==> q.id in states && states[q.id] == q
      ensures more ==> q == p.(clip := p.clip.(stop := q.clip.stop),
                               next := if p.next >= |p.clip.pips| then |p.clip.pips| - 1 else p.next)
      ensures p.clip.remaining <= 0 || p.next < |p.clip.pips| ==>
        StopsDone(mid, Now(), p, row, ordinal, used, threw, exact, rules, obliging)
    {
      q, more, threw, used := p, false, false, false;
      if p.clip.remaining <= 0 {
        used, threw := ProtectGone(p, row, ordinal);
      } else if p.next >= |p.clip.pips| {
        q := GoTo(p, |p.clip.pips| - 1);
        more := true;
      } else {
        q, used, threw := AfterTarget(p, row, ordinal);
        more := !threw;
      }
    }

    /** After the last of a position was booked. */
    method ProtectGone(p: Position, row: nat, ordinal: int) returns (used: bool, threw: bool)
      requires Valid() && p.id !in states
      modifies `states, `placed
      ensures KeepsBook() && states.Keys == old(states.Keys) && placed.lagging <= old(placed.lagging)
      ensures OthersKept(old(states), states, p.id)
      ensures StopsDone(old(Now()), Now(), p, row, ordinal, used, threw, exact, rules, obliging)
    {
      used, threw := ProtectFor(p, ordinal);
      GoneIsDone(old(Now()), Now(), p, row, ordinal, used, threw, exact, rules, obliging);
    }

    method Report(p: Position, ordinal: int) returns (q: Position)
      requires Valid() && Local(states, placed, p)
      modifies `states, `placed
      ensures KeepsBook() && states.Keys == old(states.Keys) && Local(states, placed, q)
      ensures OthersKept(old(states), states, p.id)
      ensures Rewrites(p, q) && q.id == p.id && q.next == p.next && placed.lagging <= old(placed.lagging) + {p.id}
      ensures q == p.(reached := p.reached + {ordinal}, clip := p.clip.(stop := q.clip.stop))
      ensures if ordinal in p.reached then q == p else TrailedFor(q, ordinal, placed, rules)
      ensures p.id !in old(placed.lagging) ==> Current(q, placed)
    {
      q := NotifyTargetReached(p, ordinal);
      ReportedOnce(old(Now()), Now(), p, q, ordinal, exact, rules, obliging);
    }

    /** Writes the local copy back with another next target. */
    method GoTo(p: Position, next: nat) returns (q: Position)
      requires Valid() && Local(states, placed, p) && next <= |p.clip.pips|
      modifies `states, `placed
      ensures KeepsBook() && states.Keys == old(states.Keys) && Local(states, placed, q) && q == p.(next := next)
      ensures states == old(states)[p.id := q] && OthersKept(old(states), states, p.id)
      ensures placed.lagging <= old(placed.lagging) && (Current(p, old(placed)) ==> p.id !in placed.lagging)
    {
      q := p.(next := next);
      Save(q);
    }

    /** A target whose close would leave dust is reported, not booked; the rest rides to the last. */
    method SkipToLast(p: Position) returns (q: Position)
      requires Valid() && Local(states, placed, p) && p.next < |p.clip.pips| - 1
      modifies `states, `placed
      ensures KeepsBook() && states.Keys == old(states.Keys) && placed.lagging <= old(placed.lagging)
      ensures Local(states, placed, q) && q.id == p.id && q.clip.pips == p.clip.pips
      ensures OthersKept(old(states), states, p.id)
      ensures Skipped(p, q, placed, rules)
    {
      if p.manual {
        q := ReportThenRide(p);
      } else {
        q := GoTo(p, |p.clip.pips| - 1);
      }
    }

    method ReportThenRide(p: Position) returns (q: Position)
      requires Valid() && Local(states, placed, p) && p.next < |p.clip.pips| - 1 && p.manual
      modifies `states, `placed
      ensures KeepsBook() && states.Keys == old(states.Keys) && placed.lagging <= old(placed.lagging)
      ensures Local(states, placed, q) && q.id == p.id && q.clip.pips == p.clip.pips
      ensures OthersKept(old(states), states, p.id)
      ensures Skipped(p, q, placed, rules)
    {
      var reported := Report(p, Ordinal(p.clip, p.next));
      ghost var mid := Now();
      q := GoTo(reported, |p.clip.pips| - 1);
      NotMore(old(placed.lagging), mid.placed.lagging, placed.lagging, p.id);
      ReportedThenMoved(p, reported, q, Ordinal(p.clip, p.next), mid.placed, placed, rules);
      OthersKeptTransitive(old(states), mid.states, states, p.id);
      ManagedTransitive(old(Now()), mid, Now());
    }

    /** The loop over a position's targets. Terminates because every pass closes volume or moves
        on to a later target. */
    method BookReached(start: Position, quote: Quote) returns (threw: bool)
      requires Valid() && Local(states, placed, start)
      modifies `states, `placed, `closes
      ensures KeepsBook() && OthersKept(old(states), states, start.id) && placed.lagging <= old(placed.lagging)
      ensures !threw ==> start.id !in states || Settled(states[start.id], quote, rules.pip)
    {
      var p, more := start, true;
      threw := false;
      while more && p.clip.remaining > 0 && p.next < |p.clip.pips|
        invariant KeepsBook() && OthersKept(old(states), states, start.id) && placed.lagging <= old(placed.lagging)
        invariant !more && !threw ==> start.id !in states || Settled(states[start.id], quote, rules.pip)
        invariant more ==> Local(states, placed, p) && p.id == start.id
        decreases more, p.clip.remaining, |p.clip.pips| - p.next
      {
        ghost var mid := Now();
        ghost var between, booked, used;
        p, more, threw, between, booked, used := TargetStep(p, quote);
        OthersKeptTransitive(old(states), mid.states, states, start.id);
        ManagedTransitive(old(Now()), mid, Now());
      }
    }

    method ReportSkipped(id: Id, selected: set<int>, quote: Quote) returns (p: Position)
      requires Valid() && id in states
      modifies `states, `placed
      ensures KeepsBook() && OthersKept(old(states), states, id) && Local(states, placed, p) && p.id == id
      ensures if old(states)[id].manual then AllReported(old(states)[id], p, selected, quote, placed, rules)
              else p == old(states)[id]
      ensures placed.lagging <= old(placed.lagging) + if NoticeDue(old(states)[id], selected, quote) then {id} else {}
    {
      p := states[id];
      if p.manual {
        p := NotifySkippedTargets(p, selected, quote);
        ReportedOthersKept(old(states), old(placed), states, placed, old(states)[id], p);
        ReportedManaged(old(states), states, closes, exact, old(placed), placed, old(states)[id], p);
      }
    }

    /** Everything one quote means for one position. */
    method ProcessPosition(id: Id, selected: set<int>, quote: Quote) returns (threw: bool)
      requires Valid() && id in states
      modifies `states, `placed, `closes
      ensures KeepsBook() && OthersKept(old(states), states, id)
      ensures id in states ==> PassedReported(old(states)[id], states[id].reached, selected, quote)
      ensures !threw ==> id !in states || Settled(states[id], quote, rules.pip)
      ensures placed.lagging <= old(placed.lagging) + if NoticeDue(old(states)[id], selected, quote) then {id} else {}
    {
      var p := ReportSkipped(id, selected, quote);
      ghost var mid := Now();
      threw := BookReached(p, quote);
      assert id in states ==> Evolves(mid.states[id], states[id]);
      OthersKeptTransitive(old(states), mid.states, states, id);
      ManagedTransitive(old(Now()), mid, Now());
    }

    /** One quote for the whole book. */
    method ProcessTargets(quote: Quote) returns (threw: bool)
      requires Valid()
      modifies `states, `placed, `closes
      ensures KeepsBook() && (!threw ==> forall id | id in states :: Settled(states[id], quote, rules.pip))
      ensures !threw ==> Heard(old(states), states, {}, quote)
      ensures Quiet(old(states), quote) ==> placed.lagging <= old(placed.lagging)
    {
      var start, rest := states, states.Keys;
      threw := false;
      while rest != {} && !threw
        invariant KeepsBook() && rest <= states.Keys && start == old(states)
        invariant !threw ==> AllSettled(states, rest, quote, rules.pip)
        invariant Heard(start, states, rest, quote)
        invariant Quiet(start, quote) ==> placed.lagging <= old(placed.lagging)
        decreases rest, !threw
      {
        ghost var mid := Now();
        var id :| id in rest;
        rest := rest - {id};
        threw := ProcessNext(id, start, rest, quote);
        ManagedTransitive(old(Now()), mid, Now());
      }
    }

    /** One more position; those done before stay settled. */
    method ProcessNext(id: Id, start: map<Id, Position>, ghost rest: set<Id>, quote: Quote) returns (threw: bool)
      requires Valid() && Kept(start, states) && id in states
      modifies `states, `placed, `closes
      ensures KeepsBook() && states.Keys >= old(states.Keys) - {id}
      ensures !threw && AllSettled(old(states), rest + {id}, quote, rules.pip) ==>
        AllSettled(states, rest, quote, rules.pip)
      ensures Heard(start, old(states), rest + {id}, quote) ==> Kept(start, states) && Heard(start, states, rest, quote)
      ensures Quiet(start, quote) ==> placed.lagging <= old(placed.lagging)
    {
      assert Evolves(start[id], states[id]);
      NoticeKept(start[id], states[id], SelectedOrdinals(start, states[id].group), quote);
      threw := ProcessPosition(id, SelectedOrdinals(start, states[id].group), quote);
      OneMoreProcessed(start, old(Now()), Now(), rest, id, quote, rules.pip, threw);
    }

    /** Books what an owner's close executed; siblings learn the new total first. `p` may be a
        copy taken before siblings were closed. */
    method ApplyOwnerClose(p: Position, e: Execution, ghost logged: seq<Close>)
      requires rules.pip > 0.0 && rules.minVolume > 0 && Agrees(states, logged, exact) && Covered(states, placed)
      requires p.id in states && Outdated(p, states[p.id]) && OwnerExecuted(p, e, exact)
      requires closes == logged + [OwnerCloseOf(p, e, rules.pip)]
      modifies `states, `placed
      ensures Valid() && Managed(Book(old(states), logged, old(placed)), Now())
      ensures OthersOutdated(old(states), states, p.id)
      ensures if OwnerLeft(p, e) > 0 then p.id in states && states[p.id].clip.remaining == OwnerLeft(p, e)
          else p.id !in states
    {
      var q := ClosedPosition(p, e, logged);
      OwnerCloseOutdates(states, q);
      PutClosed(q);
    }

    /** The position after an owner's close, with the group's new total. */
    method ClosedPosition(p: Position, e: Execution, ghost logged: seq<Close>) returns (q: Position)
      requires rules.pip > 0.0 && Agrees(states, logged, exact) && Covered(states, placed)
      requires p.id in states && Outdated(p, states[p.id]) && OwnerExecuted(p, e, exact)
      requires closes == logged + [OwnerCloseOf(p, e, rules.pip)]
      ensures q.id == p.id && q.clip.remaining == OwnerLeft(p, e)
      ensures Agrees(AfterOwnerClose(states, q), closes, exact)
      ensures Covered(AfterOwnerClose(states, q), Written(placed, q))
      ensures Managed(Book(states, logged, placed), Book(AfterOwnerClose(states, q), closes, Written(placed, q)))
    {
      var ids := Members(p.group);
      var groupInitial := GroupInitialVolume(states, ids);
      if groupInitial <= 0 {
        groupInitial := if p.groupInitial > 0 then p.groupInitial else p.initial;
      }
      q := ClosedByOwner(p, e, rules.pip, GroupRealizedPipVolume(states, ids), groupInitial);
      OwnerCloseManaged(states, logged, exact, placed, p, e, rules.pip, ids, groupInitial, q);
    }

    method PutClosed(q: Position)
      requires q.id in states
      modifies `states, `placed
      ensures states == AfterOwnerClose(old(states), q) && placed == Written(old(placed), q)
    {
      SyncGroupRealizedPipVolume(q.group, q.id, q.pipVolume);
      states, placed := states[q.id := q], Written(placed, q);
      if q.clip.remaining <= 0 {
        states := states - {q.id};
      }
    }

    method CloseOne(p: Position) returns (ok: bool)
      requires Valid() && p.id in states && Outdated(p, states[p.id])
      modifies `states, `placed, `closes
      ensures Valid() && Managed(old(Now()), Now())
      ensures ok ==> OthersOutdated(old(states), states, p.id) && ClosedSome(p, states)
      ensures obliging ==> ok && p.id !in states
    {
      ghost var logged := closes;
      var e := ExecuteClose(p);
      ok := e.Some?;
      if ok {
        ApplyOwnerClose(p, e.value, logged);
      }
    }

    method ExecuteClose(p: Position) returns (e: Option<Execution>)
      requires rules.pip > 0.0 && p.clip.remaining > 0
      modifies `closes
      ensures e.None? ==> closes == old(closes)
      ensures e.Some? ==> closes == old(closes) + [OwnerCloseOf(p, e.value, rules.pip)]
      ensures e.Some? ==> OwnerExecuted(p, e.value, exact)
      ensures e.Some? ==> OwnerLeft(p, e.value) < p.clip.remaining
      ensures obliging ==> e.Some? && OwnerLeft(p, e.value) == 0
    {
      var confirmed: bool, left: int, price: real := *, *, *;
      if obliging || left < 0 || left >= p.clip.remaining {
        left := 0;
      }
      if !confirmed && !obliging {
        return None;
      }
      e := Some(Execution(p.clip.remaining - left, Some(left), price));
      closes := closes + [OwnerCloseOf(p, e.value, rules.pip)];
    }

    /** Closes every position, from copies taken at the start. When the broker confirms them all,
        every position is gone or smaller; when it fills them all, the book is empty. */
    method CloseAll() returns (done: bool)
      requires Valid()
      modifies `states, `placed, `closes
      ensures Valid() && Managed(old(Now()), Now())
      ensures done ==> forall id | id in old(states) :: ClosedSome(old(states)[id], states)
      ensures obliging ==> done && states.Keys == {}
    {
      var open, rest := states, states.Keys;
      while rest != {}
        invariant Valid() && Managed(old(Now()), Now())
        invariant StillGood(open, states, rest)
        invariant forall id | id in open && id !in rest :: open[id].id == id && ClosedSome(open[id], states)
        invariant obliging ==> states.Keys <= rest
        decreases rest
      {
        var id :| id in rest;
        rest := rest - {id};
        ghost var mid := Now();
        var ok := CloseNext(open, rest, id);
        ManagedTransitive(old(Now()), mid, Now());
        if !ok {
          return false;
        }
      }
      done := true;
    }

    method CloseNext(open: map<Id, Position>, ghost rest: set<Id>, id: Id) returns (ok: bool)
      requires Valid() && id !in rest && StillGood(open, states, rest + {id})
      requires forall other | other in open && other !in rest + {id} ::
        open[other].id == other && ClosedSome(open[other], states)
      modifies `states, `placed, `closes
      ensures Valid() && Managed(old(Now()), Now())
      ensures ok ==> StillGood(open, states, rest)
      ensures ok ==> forall other | other in open && other !in rest ::
        open[other].id == other && ClosedSome(open[other], states)
      ensures obliging ==> ok && states.Keys <= old(states.Keys) - {id}
    {
      assert Outdated(open[id], states[id]);
      ok := CloseOne(open[id]);
      if ok {
        StaysGood(open, old(states), states, rest, id);
        StayClosed(open, old(states), states, rest, id);
      }
    }

    /** A leg that is gone at the broker: what its last volume brought in is added to the figure
        carried through this pass, and the legs that stay learn it. */
    method CloseVanished(id: Id, price: real, carried: real) returns (total: real)
      requires Valid() && id in states
      requires exact ==> carried == GroupTotal(closes, states[id].group)
      modifies `states, `placed, `closes
      ensures Valid() && Managed(old(Now()), Now())
      ensures states == Synced(old(states) - {id}, old(states)[id].group, id, total)
      ensures placed.stops == old(placed.stops) && placed.log == old(placed.log)
      ensures placed.lagging <= old(placed.lagging)
      ensures closes == old(closes) + [VanishOf(old(states)[id], price, rules.pip)]
      ensures exact ==> total == GroupTotal(closes, old(states)[id].group)
    {
      var p := states[id];
      var q := Vanished(p, price, rules.pip, carried);
      VanishManaged(states, closes, exact, placed, p, price, rules.pip, carried, q);
      LogOne(closes, VanishOf(p, price, rules.pip));
      closes := closes + [VanishOf(p, price, rules.pip)];
      PutVanished(q);
      total := q.pipVolume;
    }

    method PutVanished(q: Position)
      modifies `states, `placed
      ensures states == Synced(old(states) - {q.id}, q.group, q.id, q.pipVolume) && placed == Written(old(placed), q)
    {
      states := states - {q.id};
      SyncGroupRealizedPipVolume(q.group, q.id, q.pipVolume);
      placed := Written(placed, q);
    }

    /** What a group had booked: carried through the pass, or what its legs said at the start. */
    method CarriedSoFar(tracked: map<Id, Position>, carried: map<string, real>, group: string, ghost before: seq<Close>)
      returns (total: real)
      requires Agrees(tracked, before, exact) && exists id :: id in tracked && tracked[id].group == group
      requires exact && group in carried ==> carried[group] == GroupTotal(closes, group)
      requires exact && group !in carried ==> GroupTotal(closes, group) == GroupTotal(before, group)
      ensures exact ==> total == GroupTotal(closes, group)
    {
      if group in carried {
        return carried[group];
      }
      var ids := MembersOf(tracked, group);
      total := GroupRealizedPipVolume(tracked, ids);
      if exact { CarriedIsTotal(tracked, before, group, ids); }
    }

    method DropOne(id: Id, price: real, carried: real) returns (total: real)
      requires Valid() && id in states
      requires exact ==> carried == GroupTotal(closes, states[id].group)
      modifies `states, `placed, `closes
      ensures Valid() && Managed(old(Now()), Now())
      ensures states.Keys == old(states.Keys) - {id}
      ensures closes == old(closes) + [VanishOf(old(states)[id], price, rules.pip)]
      ensures exact ==> total == GroupTotal(closes, old(states)[id].group)
    {
      total := CloseVanished(id, price, carried);
    }

    /** Several legs, of one group or of many, missing in one snapshot. The total of a group
        survives the pass even when its last leg is gone. */
    method DropVanished(vanished: seq<(Id, real)>) returns (carried: map<string, real>)
      requires Valid()
      requires forall i | 0 <= i < |vanished| :: vanished[i].0 in states
      requires forall i, j | 0 <= i < j < |vanished| :: vanished[i].0 != vanished[j].0
      modifies `states, `placed, `closes
      ensures Valid() && Managed(old(Now()), Now())
      ensures forall i | 0 <= i < |vanished| :: vanished[i].0 !in states
      ensures forall i | 0 <= i < |vanished| :: old(states)[vanished[i].0].group in carried
      ensures exact ==> forall g | g in carried :: carried[g] == GroupTotal(closes, g)
    {
      var tracked := states;
      carried := map[];
      for i := 0 to |vanished|
        invariant Valid() && Managed(old(Now()), Now())
        invariant PassSoFar(tracked, old(closes), states.Keys, closes, exact, vanished, i, carried)
      {
        var id, price := vanished[i].0, vanished[i].1;
        ghost var mid := Now();
        var group := tracked[id].group;
        var booked := CarriedSoFar(tracked, carried, group, old(closes));
        assert Evolves(tracked[id], states[id]);
        var total := DropOne(id, price, booked);
        PassOn(tracked, old(closes), mid.states.Keys, mid.closes, exact, vanished, i, carried,
               VanishOf(mid.states[id], price, rules.pip), total);
        carried := carried[group := total];
        ManagedTransitive(old(Now()), mid, Now());
      }
    }

    /** Any run of quotes, owner closes and vanishing legs: in every state it reaches, every leg
        carries its group's total, no volume is lost, no remembered stop has been loosened, and the
        broker's amendments are on a log in order, which tells of each whether it loosened. */
    method Run(events: seq<Event>)
      requires Valid()
      modifies `states, `placed, `closes
      ensures Valid() && Managed(old(Now()), Now()) && InOrder(placed.log)
    {
      for i := 0 to |events|
        invariant Valid() && Managed(old(Now()), Now())
      {
        ghost var mid := Now();
        match events[i] {
          case QuoteArrives(quote) =>
            var threw := ProcessTargets(quote);
          case OwnerClosesAll =>
            var done := CloseAll();
          case LegsVanish(legs) =>
            if (forall j | 0 <= j < |legs| :: legs[j].0 in states)
               && (forall j, k | 0 <= j < k < |legs| :: legs[j].0 != legs[k].0) {
              var carried := DropVanished(legs);
            }
        }
        ManagedTransitive(old(Now()), mid, Now());
      }
    }
  }
}
