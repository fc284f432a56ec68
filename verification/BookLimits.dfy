/** A run of the book that goes wrong: the stop of a reported target is forgotten and taken back. */
module BookLimits {
  import opened Common
  import opened Arith
  import opened Prices
  import opened StopTrail
  import opened Positions
  import opened PositionBook

  const RULES := Rules(1, 0, 1.0, 0, 1.0, 100)
  const PRICES := [110.0, 120.0, 130.0, 140.0]

  function Leg(id: Id, tranche: int, entry: real, volume: int, pips: seq<int>, ordinals: seq<int>,
               slices: seq<int>): Position {
    Position(id, "g", true, tranche, 3,
             Clip(Buy, entry, volume, pips, Some(ordinals), Some(PRICES), Some(90.0), Some(90.0)),
             volume, slices, 0, {}, 0.0, 20, Figures(0.0, 0.0, 0.0, 14, 1, 1, false, None), None, false, false, 0, 0)
  }

  // A ladder of 20 units over four targets (2, 12, 4, 2), filled by three legs of 14, 4 and 2; the
  // shallow leg keeps a runner for the last target.
  const SHALLOW := Leg(Id(1), 1, 100.0, 14, [10, 20, 40], [1, 2, 4], [2, 11, 1])
  const MID := Leg(Id(2), 2, 98.0, 4, [32], [3], [4])
  const DEEP := Leg(Id(3), 3, 96.0, 2, [44], [4], [2])

  /** A position as it was set up, apart from what managing it changes. */
  predicate IsLeg(p: Position, leg: Position, remaining: int, stop: real, next: nat, reached: set<int>) {
    && p.id == leg.id && p.group == "g" && p.manual && p.tranche == leg.tranche && p.initial == leg.initial
    && p.clip == leg.clip.(remaining := remaining, stop := Some(stop))
    && p.slices == leg.slices && p.next == next && p.reached == reached
    && p.rangeExit == None && !p.scaleOut && p.seenSequence == 0 && p.seenTime == 0
  }

  ghost predicate Running(book: PositionBook)
    reads book
  {
    book.Valid() && book.rules == RULES && book.exact && book.obliging
  }

  /** Two legs are open, the shallow one with `remaining` units. */
  ghost predicate TwoLegs(book: PositionBook, remaining: int, stop: real, next: nat)
    reads book
  {
    Running(book) && AreTwoLegs(book.states, remaining, stop, next) && book.placed.lagging == {}
  }

  predicate AreTwoLegs(states: map<Id, Position>, remaining: int, stop: real, next: nat) {
    && states.Keys == {Id(1), Id(3)}
    && IsLeg(states[Id(1)], SHALLOW, remaining, stop, next, {}) && states[Id(1)].trancheCount == 3
    && IsLeg(states[Id(3)], DEEP, 2, stop, 0, {})
  }

  function Ladder(): map<Id, Position> { map[Id(1) := SHALLOW, Id(2) := MID, Id(3) := DEEP] }

  lemma LadderIsFresh(id: Id)
    requires id in Ladder()
    ensures var p := Ladder()[id];
      p.id == id && WellFormed(p) && p.initial == p.clip.remaining && p.pipVolume == 0.0 && p.group == "g"
  {
  }

  method Fill() returns (book: PositionBook)
    ensures fresh(book) && Running(book) && book.states == Ladder() && book.closes == [] && book.placed.lagging == {}
  {
    forall id | id in Ladder()
      ensures Ladder()[id].id == id && WellFormed(Ladder()[id])
              && Ladder()[id].initial == Ladder()[id].clip.remaining && Ladder()[id].pipVolume == 0.0
    {
      LadderIsFresh(id);
    }
    book := new PositionBook(RULES, Ladder(), true, true);
  }

  lemma MidGone(states: map<Id, Position>)
    requires states == Synced(Ladder() - {Id(2)}, "g", Id(2), 0.0)
    ensures states.Keys == {Id(1), Id(3)}
    ensures IsLeg(states[Id(1)], SHALLOW, 14, 90.0, 0, {}) && states[Id(1)].trancheCount == 3
    ensures IsLeg(states[Id(3)], DEEP, 2, 90.0, 0, {})
  {
    assert states.Keys == Ladder().Keys - {Id(2)};
  }

  /** The owner closes the middle leg at its entry. */
  method CloseMid(book: PositionBook)
    requires Running(book) && book.states == Ladder() && book.closes == [] && book.placed.lagging == {}
    modifies book
    ensures TwoLegs(book, 14, 90.0, 0) && GroupTotal(book.closes, "g") == 0.0
  {
    LadderIsFresh(Id(2));
    LogOne([], VanishOf(MID, 98.0, 1.0));
    assert SignedPips(Buy, 98.0, 98.0, 1.0) == 0.0;
    var total := book.CloseVanished(Id(2), 98.0, 0.0);
    assert total == 0.0;
    assert book.closes == [] + [VanishOf(MID, 98.0, 1.0)];
    MidGone(book.states);
  }

  // ----- the first target, and the stop for the group ---------------------------------------

  lemma FirstTarget(p: Position)
    requires IsLeg(p, SHALLOW, 14, 90.0, 0, {})
    ensures WellFormed(p) && CloseVolume(p) == 2 && !LeavesDust(p, 1)
    ensures SignedPips(Buy, 100.0, 110.0, 1.0) == 10.0 && PipVolume(10.0, 2) == 20.0
  {
  }

  /** Booking the next target of a leg when the broker goes along. */
  method BookAt(book: PositionBook, p: Position, quote: real) returns (q: Position)
    requires Running(book) && Local(book.states, book.placed, p) && WellFormed(p) && p.next < |p.clip.pips|
    requires !LeavesDust(p, 1)
    modifies book
    ensures Running(book) && book.placed.lagging <= old(book.placed.lagging)
    ensures book.placed.stops == old(book.placed.stops)
    ensures AdvancedTo(p, q) && SharedOut(old(book.states), book.states, q)
    ensures q.clip.remaining == p.clip.remaining - CloseVolume(p)
    ensures book.closes == old(book.closes)
      + [Close(p.id, p.group, CloseVolume(p), SignedPips(p.clip.direction, p.clip.entry, quote, 1.0))]
  {
    var confirmed;
    confirmed, q := book.BookClose(p, quote);
  }

  /** At 110 the shallow leg books its first target. */
  method TakeFirst(book: PositionBook)
    requires TwoLegs(book, 14, 90.0, 0) && GroupTotal(book.closes, "g") == 0.0
    modifies book
    ensures TwoLegs(book, 12, 90.0, 1) && GroupTotal(book.closes, "g") == 20.0
  {
    var p := book.states[Id(1)];
    FirstTarget(p);
    ghost var logged := book.closes;
    var q := BookAt(book, p, 110.0);
    assert book.closes == logged + [Close(Id(1), "g", 2, 10.0)];
    LogOne(logged, Close(Id(1), "g", 2, 10.0));
    FirstTaken(old(book.states), book.states, p, q);
  }

  lemma FirstTaken(states: map<Id, Position>, after: map<Id, Position>, p: Position, q: Position)
    requires AreTwoLegs(states, 14, 90.0, 0) && p == states[Id(1)]
    requires AdvancedTo(p, q) && q.clip.remaining == 12 && SharedOut(states, after, q)
    ensures AreTwoLegs(after, 12, 90.0, 1)
  {
    assert Shares(states[Id(3)], after[Id(3)], q);
  }

  lemma TwoOf(states: map<Id, Position>, ids: seq<Id>)
    requires states.Keys == {Id(1), Id(3)} && Lists(states, "g", ids)
    requires states[Id(1)].group == "g" && states[Id(3)].group == "g"
    ensures ids == [Id(1), Id(3)] || ids == [Id(3), Id(1)]
  {
    assert Id(1) in ids && Id(3) in ids;
    forall id | id in ids ensures id in {Id(1), Id(3)} {
      assert id in states.Keys;
    }
    DistinctFit(ids, {Id(1), Id(3)});
  }

  lemma {:induction false} DistinctFit(ids: seq<Id>, room: set<Id>)
    requires (forall i, j | 0 <= i < j < |ids| :: ids[i] != ids[j]) && forall id | id in ids :: id in room
    ensures |ids| <= |room|
  {
    if ids != [] {
      var last := ids[|ids| - 1];
      DistinctFit(ids[..|ids| - 1], room - {last});
      assert last in room;
    }
  }

  lemma PairSum(v: seq<real>)
    requires |v| == 2
    ensures RSum(v) == v[0] + v[1]
  {
    assert v[..1] == [v[0]] && RSum([v[0]]) == RSum([]) + v[0];
  }

  lemma {:induction false} BoundaryIsLower(clips: seq<Clip>)
    requires forall c | c in clips :: Boundary(c) == Some(90.0)
    ensures NeverLooser(Buy, 98.0, clips) == 98.0
  {
    if clips != [] { BoundaryIsLower(clips[..|clips| - 1]); }
  }

  lemma EvenAt98(clips: seq<Clip>)
    requires clips == [SHALLOW.clip.(remaining := 12), DEEP.clip]
        || clips == [DEEP.clip, SHALLOW.clip.(remaining := 12)]
    ensures RemainingVolume(clips) == 14.0 && EntryValue(clips) == 1392.0
    ensures GroupStop(clips, -20.0, 1.0, 1.0) == 98.0
    ensures forall c | c in clips :: c.direction == Buy && !Holds(c, 98.0)
  {
    var n, e := Volumes(clips), Entries(clips);
    PairSum(n);
    PairSum(e);
    assert EvenPrice(clips, -20.0, 1.0) == 98.0;
    BoundaryIsLower(clips);
    assert CeilToTick(98.0, 1.0) == 98.0 && RoundToTick(98.0, 1.0) == 98.0;
  }

  /** The even price of the two legs, whatever their group's initial volume. */
  lemma PlannedAt98(clips: seq<Clip>, volume: int)
    requires clips == [SHALLOW.clip.(remaining := 12), DEEP.clip]
        || clips == [DEEP.clip, SHALLOW.clip.(remaining := 12)]
    requires volume > 0
    ensures PlanGroupEconomicBreakeven(clips, volume, 20.0, 0, 1.0, 0) == Planned(Some(98.0))
  {
    EvenAt98(clips);
    assert TickSize(0) == 1.0 && TargetPipVolume(volume, 1.0, 1.0, 0) == 0.0;
    assert Unfunded(volume, 20.0, 1.0, 1.0, 0) == -20.0;
    assert clips[0] in clips;
  }

  lemma SomeInitialVolume(states: map<Id, Position>, ids: seq<Id>)
    requires |ids| == 2 && ids[0] in states && ids[1] in states
    requires states[ids[0]].initial > 0 && states[ids[1]].initial > 0
    ensures GroupInitialVolume(states, ids) > 0
  {
    assert Legs(states, ids) == [states[ids[0]]] + [states[ids[1]]];
    InitialsAdd([states[ids[0]]], [states[ids[1]]], false);
    OneInitial(states[ids[0]], false);
    OneInitial(states[ids[1]], false);
  }

  lemma FirstMove(states: map<Id, Position>, closes: seq<Close>, ids: seq<Id>)
    requires AreTwoLegs(states, 12, 90.0, 1) && GroupTotal(closes, "g") == 20.0 && Lists(states, "g", ids)
    requires Agrees(states, closes, true)
    ensures ids == [Id(1), Id(3)] || ids == [Id(3), Id(1)]
    ensures ManualMultiLeg(states, ids) && GroupMove(states, ids, RULES) == Planned(Some(98.0))
  {
    TwoOf(states, ids);
    CarriedIsTotal(states, closes, "g", ids);
    SomeInitialVolume(states, ids);
    var clips := Clips(states, ids);
    assert clips == [states[ids[0]].clip, states[ids[1]].clip];
    PlannedAt98(clips, GroupInitialVolume(states, ids));
  }

  lemma ProtectedAt98(states: map<Id, Position>, after: map<Id, Position>, ids: seq<Id>, move: Option<real>,
                       was: Placed, placed: Placed)
    requires AreTwoLegs(states, 12, 90.0, 1) && move == Some(98.0) && OnlyStops(states, after)
    requires ids == [Id(1), Id(3)] || ids == [Id(3), Id(1)]
    requires GroupAsked(states, after, ids, move, was, placed, true)
    ensures AreTwoLegs(after, 12, 98.0, 1)
  {
    var i, j := if ids[0] == Id(1) then 0 else 1, if ids[0] == Id(1) then 1 else 0;
    assert Asked(states[ids[i]], after[ids[i]], 98.0, was, placed, true);
    assert Asked(states[ids[j]], after[ids[j]], 98.0, was, placed, true);
  }

  /** The group is protected at 98. */
  method ProtectFirst(book: PositionBook)
    requires TwoLegs(book, 12, 90.0, 1) && GroupTotal(book.closes, "g") == 20.0
    modifies book
    ensures TwoLegs(book, 12, 98.0, 1)
  {
    var used, threw; ghost var ids, move;
    used, threw, ids, move := book.ProtectRemainingGroupStopsAtBreakEven("g");
    FirstMove(old(book.states), book.closes, ids);
    ProtectedAt98(old(book.states), book.states, ids, move, old(book.placed), book.placed);
    OnlyStopsAgrees(old(book.states), book.states, book.closes, true);
  }

  // ----- a quote past the second and the third target ---------------------------------------

  const JUMP := Quote(131.0, 131.0, 1, 1)

  lemma Selected(states: map<Id, Position>)
    requires states.Keys == {Id(1), Id(3)}
    requires states[Id(1)].group == "g" && states[Id(1)].clip.ordinals == Some([1, 2, 4])
    requires states[Id(3)].group == "g" && states[Id(3)].clip.ordinals == Some([4])
    ensures SelectedOrdinals(states, "g") == {1, 2, 4}
  {
    var o := states[Id(1)].clip.ordinals.value;
    assert o[0] in o && o[1] in o && o[2] in o;
    assert forall id | id in states :: id == Id(1) || id == Id(3);
  }

  /** No leg books the third target any more, so every leg reports it and wants its stop on the
      first. */
  lemma ThirdIsDue(p: Position, leg: Position, remaining: int, next: nat)
    requires (leg == SHALLOW || leg == DEEP) && IsLeg(p, leg, remaining, 98.0, next, {})
    ensures !Stale(p, JUMP) && OnlyDue(p, {1, 2, 4}, JUMP, 3) && 4 in Chosen(p, {1, 2, 4})
    ensures NoticeMove(p, 3, RULES) == Some(110.0)
  {
    assert AbsoluteTargetPrice(p.clip, 1) == Some(110.0);
    assert TickSize(0) == 1.0 && RoundToTick(110.0, 1.0) == 110.0;
  }

  /** The deep leg has reported the third target, and its stop at the broker is on the first. */
  ghost predicate DeepReported(book: PositionBook, stop: real, reached: set<int>)
    reads book
  {
    && Running(book) && book.states.Keys == {Id(1), Id(3)}
    && IsLeg(book.states[Id(1)], SHALLOW, 12, stop, 1, reached) && book.states[Id(1)].trancheCount == 3
    && IsLeg(book.states[Id(3)], DEEP, 2, 98.0, 0, {3})
    && Id(3) in book.placed.stops && book.placed.stops[Id(3)] == Some(110.0)
  }

  lemma ReportedThird(before: map<Id, Position>, was: Placed, states: map<Id, Position>, placed: Placed, p: Position,
                      q: Position)
    requires NoticeMove(p, 3, RULES) == Some(110.0) && p.reached == {}
    requires Noticed(before, was, states, placed, p, q, 3, RULES, true)
    ensures states == before[p.id := p.(reached := {3})] && q == Moved(p.(reached := {3}), 110.0)
    ensures placed.stops == was.stops[p.id := Some(110.0)]
  {
    assert p.reached + {3} == {3};
  }

  lemma ThirdDone(before: Book, after: Book, p: Position, q: Position)
    requires NoticeMove(p, 3, RULES) == Some(110.0) && p.reached == {} && p.id in before.states
    requires Agrees(before.states, before.closes, true) && after.closes == before.closes
    requires Reported(before.states, before.placed, after.states, after.placed, p, q)
    requires Noticed(before.states, before.placed, after.states, after.placed, p, q, 3, RULES, true)
    requires WellFormed(p)
    ensures Agrees(after.states, after.closes, true) && Covered(after.states, after.placed)
    ensures Local(after.states, after.placed, q)
    ensures after.states == before.states[p.id := p.(reached := {3})] && q == Moved(p.(reached := {3}), 110.0)
    ensures after.placed.stops == before.placed.stops[p.id := Some(110.0)]
  {
    ReportedThird(before.states, before.placed, after.states, after.placed, p, q);
    ReportedManaged(before.states, after.states, before.closes, true, before.placed, after.placed, p, q);
  }

  method NotifyThird(book: PositionBook, p: Position) returns (q: Position)
    requires Covered(book.states, book.placed) && Local(book.states, book.placed, p)
    requires book.rules == RULES && book.obliging && 4 in Chosen(p, {1, 2, 4})
    requires !Stale(p, JUMP) && OnlyDue(p, {1, 2, 4}, JUMP, 3)
    modifies book`states, book`placed
    ensures Reported(old(book.states), old(book.placed), book.states, book.placed, p, q)
    ensures Noticed(old(book.states), old(book.placed), book.states, book.placed, p, q, 3, RULES, true)
  {
    q := book.NotifySkippedTargets(p, {1, 2, 4}, JUMP);
  }

  /** A leg reports the third target: the book learns the mark, the copy and the broker have the
      new stop. */
  method ReportThird(book: PositionBook, p: Position, leg: Position, remaining: int, next: nat) returns (q: Position)
    requires Running(book) && book.states.Keys == {Id(1), Id(3)} && p.id in book.states && book.states[p.id] == p
    requires (leg == SHALLOW || leg == DEEP) && IsLeg(p, leg, remaining, 98.0, next, {})
    requires SelectedOrdinals(book.states, "g") == {1, 2, 4}
    modifies book
    ensures Running(book) && Local(book.states, book.placed, q)
    ensures book.states == old(book.states)[p.id := p.(reached := {3})] && q == Moved(p.(reached := {3}), 110.0)
    ensures book.placed.stops == old(book.placed.stops)[p.id := Some(110.0)]
  {
    ThirdIsDue(p, leg, remaining, next);
    q := NotifyThird(book, p);
    ThirdDone(old(book.Now()), book.Now(), p, q);
  }

  method ReportDeep(book: PositionBook)
    requires TwoLegs(book, 12, 98.0, 1)
    modifies book
    ensures DeepReported(book, 98.0, {})
  {
    Selected(book.states);
    var q := ReportThird(book, book.states[Id(3)], DEEP, 2, 0);
  }

  /** The copy of the shallow leg has the stop the broker moved, the book does not. */
  method ReportShallow(book: PositionBook) returns (q: Position)
    requires DeepReported(book, 98.0, {})
    modifies book
    ensures DeepReported(book, 98.0, {3}) && Local(book.states, book.placed, q)
    ensures IsLeg(q, SHALLOW, 12, 110.0, 1, {3}) && q.trancheCount == 3
  {
    Selected(book.states);
    q := ReportThird(book, book.states[Id(1)], SHALLOW, 12, 1);
  }

  /** The shallow leg books its second target and keeps its runner. */
  method TakeSecond(book: PositionBook, p: Position) returns (q: Position)
    requires DeepReported(book, 98.0, {3}) && Local(book.states, book.placed, p)
    requires IsLeg(p, SHALLOW, 12, 110.0, 1, {3}) && p.trancheCount == 3
    modifies book
    ensures Running(book) && book.states.Keys == {Id(1), Id(3)} && book.states[Id(1)] == q
    ensures IsLeg(q, SHALLOW, 1, 110.0, 2, {3}) && q.trancheCount == 3
    ensures IsLeg(book.states[Id(3)], DEEP, 2, 98.0, 0, {3})
    ensures Id(3) in book.placed.stops && book.placed.stops[Id(3)] == Some(110.0)
  {
    assert WellFormed(p) && CloseVolume(p) == 11 && !LeavesDust(p, 1);
    q := BookAt(book, p, 131.0);
    assert Shares(old(book.states)[Id(3)], book.states[Id(3)], q);
  }

  lemma ShallowOf(legs: seq<Position>, done: Position)
    requires done in legs && done.tranche == 1 && legs[0].clip.direction == Buy
    requires forall p | p in legs :: p.manual && p.clip.direction == Buy && (p.tranche == 1 ==> p == done)
    ensures ManualLegs(legs) != [] && ShallowEntry(ManualLegs(legs)) == done.clip.entry
  {
    assert done in ManualLegs(legs) && done in FirstTranche(ManualLegs(legs));
  }

  lemma ShallowFill(states: map<Id, Position>, ids: seq<Id>, done: Position)
    requires states.Keys == {Id(1), Id(3)} && states[Id(1)] == done && Lists(states, "g", ids)
    requires IsLeg(done, SHALLOW, 1, 110.0, 2, {3}) && done.trancheCount == 3
    requires IsLeg(states[Id(3)], DEEP, 2, 98.0, 0, {3})
    ensures Id(3) in ids && ManualMultiLeg(states, ids)
    ensures GroupLegs(states, ids, done) != [] && ShallowEntry(GroupLegs(states, ids, done)) == 100.0
  {
    TwoOf(states, ids);
    var legs := Legs(states, ids);
    assert legs == [states[ids[0]], states[ids[1]]] && legs + [] == legs;
    ShallowOf(legs, done);
  }

  lemma LastAmendment(states: map<Id, Position>, after: map<Id, Position>, ids: seq<Id>, was: Placed, placed: Placed)
    returns (k: nat)
    requires Id(3) in ids && Id(3) in was.stops && was.stops[Id(3)] == Some(110.0)
    requires forall i | 0 <= i < |ids| :: ids[i] in states && ids[i] in after
                                          && Asked(states[ids[i]], after[ids[i]], 100.0, was, placed, true)
    requires IsLeg(states[Id(3)], DEEP, 2, 98.0, 0, {3})
    ensures k < |placed.log| && placed.log[k] == Amendment(Id(3), Buy, Some(98.0), Some(110.0), 100.0, false)
  {
    var a := AmendmentOf(states[Id(3)], 100.0, was, false);
    assert Entered(was, placed, a);
    k :| |was.log| <= k < |placed.log| && placed.log[k] == a;
  }

  /** Protecting the group at the shallow fill takes the deep leg's stop back from 110 to 100. */
  method ProtectSecond(book: PositionBook, done: Position) returns (ghost k: nat)
    requires Running(book) && book.states.Keys == {Id(1), Id(3)} && book.states[Id(1)] == done
    requires IsLeg(done, SHALLOW, 1, 110.0, 2, {3}) && done.trancheCount == 3
    requires IsLeg(book.states[Id(3)], DEEP, 2, 98.0, 0, {3})
    requires Id(3) in book.placed.stops && book.placed.stops[Id(3)] == Some(110.0)
    modifies book
    ensures book.Valid() && k < |book.placed.log|
    ensures book.placed.log[k] == Amendment(Id(3), Buy, Some(98.0), Some(110.0), 100.0, false)
  {
    ghost var was := book.placed;
    var used; ghost var ids;
    used, ids := book.ProtectRemainingManualGroupStopsAtShallowEntry("g", done);
    ShallowFill(old(book.states), ids, done);
    OnlyStopsAgrees(old(book.states), book.states, book.closes, true);
    k := LastAmendment(old(book.states), book.states, ids, was, book.placed);
  }

  /** The group after its first target. */
  method Protect() returns (book: PositionBook)
    ensures fresh(book) && TwoLegs(book, 12, 98.0, 1)
  {
    book := Fill();
    CloseMid(book);
    TakeFirst(book);
    ProtectFirst(book);
  }

  /** A whole run of the book: ladder filled, middle leg closed by its owner, first target booked
      and the group protected, then a jump past the second and the third target. The stop of the
      deep leg goes to 110 for the reported target and back to 100 for the booked one. */
  method ReportedStopIsLost() returns (book: PositionBook, ghost k: nat)
    ensures book.Valid() && k < |book.placed.log| && Loosens(book.placed.log[k])
    ensures book.placed.log[k] == Amendment(Id(3), Buy, Some(98.0), Some(110.0), 100.0, false)
  {
    book := Protect();
    ReportDeep(book);
    var copy := ReportShallow(book);
    var done := TakeSecond(book, copy);
    k := ProtectSecond(book, done);
  }
}
