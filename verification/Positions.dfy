/** Tracked positions: what they carry, when their targets are hit, and what it means for the
    engine's figures to agree with the broker. */
module Positions {
  import opened Common
  import opened Arith
  import opened Prices
  import opened StopTrail

  /** A position's number at the broker. */
  datatype Id = Id(number: int)

  /** What every leg carries of its group beside pip-volume and initial volume: the money booked at
      targets, the first tranche's part of it, its pip-volume and initial volume, when the group was
      opened and last added to, whether it had adds, and the stop distance it was risked with. */
  datatype Figures = Figures(
    bookedPnl: real, firstPnl: real, firstPipVolume: real, firstVolume: int,
    openedAt: int, lastBarTs: int, hadAdds: bool, riskStopPips: Option<real>)

  /** `next` is the first target not booked yet, `slices` the volume of each target.
      `pipVolume`, `groupInitial` and `figures` are the group's, copied to every leg. */
  datatype Position = Position(
    id: Id, group: string, manual: bool, tranche: int, trancheCount: int,
    clip: Clip, initial: int, slices: seq<int>, next: nat, reached: set<int>,
    pipVolume: real, groupInitial: int, figures: Figures,
    rangeExit: Option<real>, scaleOut: bool, scaleOutBooked: bool,
    seenSequence: int, seenTime: int)

  datatype Quote = Quote(bid: real, ask: real, sequence: int, time: int)

  type LotSize = n: int | n > 0 witness 1

  datatype Rules = Rules(minVolume: int, digits: nat, pip: real, bufferTicks: nat, pipValue: real, lotSize: LotSize)

  /** One executed close as the broker saw it. */
  datatype Close = Close(id: Id, group: string, volume: int, pips: real)

  /** The broker's answer to a close: what is left, when it says so, and the price. */
  datatype Fill = Fill(remaining: Option<int>, price: real)

  datatype Event = QuoteArrives(quote: Quote) | OwnerClosesAll | LegsVanish(legs: seq<(Id, real)>)

  function PipVolume(pips: real, volume: int): real { pips * volume as real }

  // ----- what the broker's log says -----------------------------------------------------

  function ClosedVolume(closes: seq<Close>, id: Id): int {
    if closes == [] then 0 else
    var c := closes[|closes| - 1];
    ClosedVolume(closes[..|closes| - 1], id) + if c.id == id then c.volume else 0
  }

  /** Signed pips times volume over every close of the group. */
  function GroupTotal(closes: seq<Close>, group: string): real {
    if closes == [] then 0.0 else
    var c := closes[|closes| - 1];
    GroupTotal(closes[..|closes| - 1], group) + if c.group == group then c.pips * c.volume as real else 0.0
  }

  lemma LogOne(closes: seq<Close>, c: Close)
    ensures forall id :: ClosedVolume(closes + [c], id) == ClosedVolume(closes, id) + if c.id == id then c.volume else 0
    ensures forall g :: GroupTotal(closes + [c], g)
                     == GroupTotal(closes, g) + if c.group == g then PipVolume(c.pips, c.volume) else 0.0
  {
    assert (closes + [c])[..|closes|] == closes;
  }

  // ----- invariants ---------------------------------------------------------------------

  predicate WellFormed(p: Position) {
    && |p.slices| == |p.clip.pips| > 0 && p.next <= |p.clip.pips|
    && (forall i | 0 <= i < |p.slices| :: p.slices[i] > 0)
    && p.clip.remaining > 0
  }

  ghost predicate AgreesOne(p: Position, closes: seq<Close>, exact: bool) {
    && WellFormed(p)
    && p.initial == p.clip.remaining + ClosedVolume(closes, p.id)
    && (exact ==> p.pipVolume == GroupTotal(closes, p.group))
  }

  /** The book agrees with the broker: volumes add up, and with exact fills every leg carries
      its group's total. */
  ghost predicate Agrees(states: map<Id, Position>, closes: seq<Close>, exact: bool) {
    forall id | id in states :: states[id].id == id && AgreesOne(states[id], closes, exact)
  }

  predicate StopKept(d: Direction, before: Option<real>, after: Option<real>) {
    before.Some? ==> after.Some? && AtLeast(d, after.value, before.value)
  }

  /** One amendment the broker accepted: the stop the engine planned it from, the one it replaced
      at the broker, and whether it was made for a target that was reported, not booked. */
  datatype Amendment = Amendment(
    id: Id, direction: Direction, known: Option<real>, before: Option<real>, stop: real, reported: bool)

  /** The stops at the broker, the positions for which the book may not know theirs, every
      amendment the broker was ever asked for, and those it accepted, in order. */
  datatype Placed = Placed(
    stops: map<Id, Option<real>>, lagging: set<Id>, requests: set<(Id, real)>, log: seq<Amendment>)

  /** Stop a protects strictly better than b. */
  predicate Better(d: Direction, a: Option<real>, b: real) { a.Some? && MovesTowardProfit(d, b, a.value) }

  /** The amendment took protection away. */
  predicate Loosens(a: Amendment) { Better(a.direction, a.before, a.stop) }

  /** The engine planned the amendment from a stop that was not the one at the broker. */
  predicate Behind(a: Amendment) { a.known != a.before }

  ghost predicate ReportedIn(log: seq<Amendment>, id: Id) {
    exists k | 0 <= k < |log| :: log[k].id == id && log[k].reported
  }

  function LastStop(log: seq<Amendment>, id: Id): Option<real> {
    if log == [] then None
    else if log[|log| - 1].id == id then Some(log[|log| - 1].stop)
    else LastStop(log[..|log| - 1], id)
  }

  /** The next amendment after a log: it replaces what the log left at the broker, it is better
      than the stop it was planned from, and it is planned from another stop than the broker's
      only after a report. */
  ghost predicate Follows(log: seq<Amendment>, a: Amendment) {
    && (LastStop(log, a.id).Some? ==> a.before == LastStop(log, a.id))
    && (a.known.Some? ==> MovesTowardProfit(a.direction, a.known.value, a.stop))
    && (Behind(a) ==> ReportedIn(log, a.id))
    && forall i | 0 <= i < |log| && log[i].id == a.id :: log[i].direction == a.direction
  }

  ghost predicate InOrder(log: seq<Amendment>) {
    log == [] || (InOrder(log[..|log| - 1]) && Follows(log[..|log| - 1], log[|log| - 1]))
  }

  /** The log tells where the broker has a position's stop, and why the position lags. */
  ghost predicate Explains(placed: Placed, p: Position)
    requires p.id in placed.stops
  {
    && (LastStop(placed.log, p.id).Some? ==> placed.stops[p.id] == LastStop(placed.log, p.id))
    && (p.id in placed.lagging ==> ReportedIn(placed.log, p.id))
    && forall k | 0 <= k < |placed.log| && placed.log[k].id == p.id ::
         placed.log[k].direction == p.clip.direction
  }

  /** The stop at the broker is never looser than the one the book remembers, and the same
      unless the position lags. */
  ghost predicate CoveredOne(p: Position, placed: Placed) {
    && p.id in placed.stops && StopKept(p.clip.direction, p.clip.stop, placed.stops[p.id])
    && (p.id !in placed.lagging ==> Current(p, placed))
    && Explains(placed, p)
  }

  ghost predicate Covered(states: map<Id, Position>, placed: Placed) {
    && InOrder(placed.log)
    && forall id | id in states :: states[id].id == id && CoveredOne(states[id], placed)
  }

  /** The position's stop is the one at the broker. */
  predicate Current(p: Position, placed: Placed) { p.id in placed.stops && placed.stops[p.id] == p.clip.stop }

  function Requested(placed: Placed, id: Id, stop: real): Placed {
    placed.(requests := placed.requests + {(id, stop)})
  }

  function AmendmentOf(p: Position, stop: real, placed: Placed, reported: bool): Amendment
    requires p.id in placed.stops
  {
    Amendment(p.id, p.clip.direction, p.clip.stop, placed.stops[p.id], stop, reported)
  }

  /** After an accepted amendment. The stop of a reported target is not written to the book. */
  function Amended(placed: Placed, p: Position, stop: real, reported: bool): Placed
    requires p.id in placed.stops
  {
    Placed(placed.stops[p.id := Some(stop)], if reported then placed.lagging + {p.id} else placed.lagging,
           placed.requests + {(p.id, stop)}, placed.log + [AmendmentOf(p, stop, placed, reported)])
  }

  /** The book learns a stop when it writes the position. */
  function Written(placed: Placed, q: Position): Placed {
    if Current(q, placed) then placed.(lagging := placed.lagging - {q.id}) else placed
  }

  lemma ReportedLater(log: seq<Amendment>, more: seq<Amendment>, id: Id)
    requires ReportedIn(log, id)
    ensures ReportedIn(log + more, id)
  {
    var k :| 0 <= k < |log| && log[k].id == id && log[k].reported;
    assert (log + more)[k] == log[k];
  }

  lemma ReportedWithin(log: seq<Amendment>, k: nat, j: nat, id: Id)
    requires k <= j <= |log|
    ensures ReportedIn(log[..k], id) ==> ReportedIn(log[..j], id)
  {
    if i :| 0 <= i < k && log[..k][i].id == id && log[..k][i].reported {
      assert log[..j][i] == log[..k][i];
    }
  }

  /** Every amendment of a log in order followed the ones before it. */
  lemma {:induction false} EachFollows(log: seq<Amendment>, k: nat)
    requires InOrder(log) && k < |log|
    ensures Follows(log[..k], log[k])
    ensures InOrder(log[..k])
  {
    var front := log[..|log| - 1];
    if k < |log| - 1 {
      EachFollows(front, k);
      assert front[..k] == log[..k] && front[k] == log[k];
    }
  }

  /** An accepted amendment is recorded when it was planned from a copy of the position that
      did not hold the stop yet. */
  lemma AmendedRecorded(placed: Placed, p: Position, stop: real, reported: bool)
    requires InOrder(placed.log) && CoveredOne(p, placed) && !Holds(p.clip, stop)
    ensures InOrder(Amended(placed, p, stop, reported).log)
    ensures Explains(Amended(placed, p, stop, reported), p)
  {
    var a, after := AmendmentOf(p, stop, placed, reported), Amended(placed, p, stop, reported);
    assert after.log[..|placed.log|] == placed.log;
    if p.id in placed.lagging {
      ReportedLater(placed.log, [a], p.id);
    } else {
      assert after.log[|placed.log|].id == p.id;
    }
    forall k | 0 <= k < |after.log| && after.log[k].id == p.id ensures after.log[k].direction == p.clip.direction {
      if k < |placed.log| { assert after.log[k] == placed.log[k]; }
    }
  }

  /** An amendment of another position explains as much. */
  lemma AmendedElsewhere(placed: Placed, p: Position, stop: real, reported: bool, r: Position)
    requires p.id in placed.stops && r.id != p.id && CoveredOne(r, placed)
    ensures CoveredOne(r, Amended(placed, p, stop, reported))
  {
    var a, after := AmendmentOf(p, stop, placed, reported), Amended(placed, p, stop, reported);
    assert after.log[..|placed.log|] == placed.log;
    if r.id in placed.lagging { ReportedLater(placed.log, [a], r.id); }
    forall k | 0 <= k < |after.log| && after.log[k].id == r.id ensures after.log[k].direction == r.clip.direction {
      if k < |placed.log| { assert after.log[k] == placed.log[k]; }
    }
  }

  /** What managing a position may change, and how its stop may move. */
  predicate Evolves(p: Position, q: Position) {
    && q == p.(trancheCount := q.trancheCount, clip := q.clip, next := q.next, reached := q.reached,
               pipVolume := q.pipVolume, groupInitial := q.groupInitial, figures := q.figures,
               scaleOutBooked := q.scaleOutBooked)
    && q.clip == p.clip.(remaining := q.clip.remaining, stop := q.clip.stop)
    && q.clip.remaining <= p.clip.remaining && p.reached <= q.reached
    && StopKept(p.clip.direction, p.clip.stop, q.clip.stop)
  }

  predicate Kept(before: map<Id, Position>, after: map<Id, Position>) {
    after.Keys <= before.Keys && forall id | id in after :: Evolves(before[id], after[id])
  }

  lemma KeptTransitive(a: map<Id, Position>, b: map<Id, Position>, c: map<Id, Position>)
    requires Kept(a, b) && Kept(b, c)
    ensures Kept(a, c)
  {
    forall id | id in c ensures id in a && Evolves(a[id], c[id]) {
      assert Evolves(a[id], b[id]) && Evolves(b[id], c[id]);
    }
  }

  /** Volume of one position, live and closed. */
  function Accounted(states: map<Id, Position>, closes: seq<Close>, id: Id): int {
    ClosedVolume(closes, id) + if id in states then states[id].clip.remaining else 0
  }

  // ----- group figures --------------------------------------------------------------------

  ghost predicate Lists(states: map<Id, Position>, group: string, ids: seq<Id>) {
    && (forall i | 0 <= i < |ids| :: ids[i] in states && states[ids[i]].group == group)
    && (forall id | id in states && states[id].group == group :: id in ids)
    && (forall i, j | 0 <= i < j < |ids| :: ids[i] != ids[j])
  }

  function MaxReal(v: seq<real>): real
    requires v != []
  {
    if |v| == 1 then v[0] else
    var m := MaxReal(v[..|v| - 1]);
    if m >= v[|v| - 1] then m else v[|v| - 1]
  }

  /** Legs that agree have a clear maximum. */
  lemma {:induction false} MaxOfEqual(v: seq<real>, x: real)
    requires v != [] && forall i | 0 <= i < |v| :: v[i] == x
    ensures MaxReal(v) == x
  {
    if |v| > 1 { MaxOfEqual(v[..|v| - 1], x); }
  }

  function PipVolumes(states: map<Id, Position>, ids: seq<Id>): seq<real>
    requires forall i | 0 <= i < |ids| :: ids[i] in states
  {
    seq(|ids|, i requires 0 <= i < |ids| => states[ids[i]].pipVolume)
  }

  /** The group's booked pip-volume: the largest its legs carry. */
  function GroupRealizedPipVolume(states: map<Id, Position>, ids: seq<Id>): real
    requires forall i | 0 <= i < |ids| :: ids[i] in states
  {
    if ids == [] then 0.0 else MaxReal(PipVolumes(states, ids))
  }

  function GroupInitialVolume(states: map<Id, Position>, ids: seq<Id>): int
    requires forall i | 0 <= i < |ids| :: ids[i] in states
  {
    if ids == [] then 0 else Max(MaxCarried(states, ids), Initials(Legs(states, ids), false))
  }

  function MaxCarried(states: map<Id, Position>, ids: seq<Id>): int
    requires ids != [] && forall i | 0 <= i < |ids| :: ids[i] in states
  {
    var last := states[ids[|ids| - 1]].groupInitial;
    if |ids| == 1 then last else Max(MaxCarried(states, ids[..|ids| - 1]), last)
  }

  function Legs(states: map<Id, Position>, ids: seq<Id>): seq<Position>
    requires forall i | 0 <= i < |ids| :: ids[i] in states
  {
    seq(|ids|, i requires 0 <= i < |ids| => states[ids[i]])
  }

  /** What some legs started with, all of them or only those of the first tranche. */
  function Initials(legs: seq<Position>, first: bool): int {
    if legs == [] then 0 else
    var last := legs[|legs| - 1];
    Initials(legs[..|legs| - 1], first) + if first && last.tranche != 1 then 0 else last.initial
  }

  /** A leg that joins with nothing booked leaves the group's figure right exactly when the
      group had not booked a loss: the larger of the two wins. */
  lemma JoiningLegKeepsTheTotal(states: map<Id, Position>, ids: seq<Id>, joined: Position, total: real)
    requires ids != [] && forall i | 0 <= i < |ids| :: ids[i] in states && states[ids[i]].pipVolume == total
    requires joined.id !in states && joined.pipVolume == 0.0
    ensures GroupRealizedPipVolume(states[joined.id := joined], ids + [joined.id]) == total <==> total >= 0.0
  {
    var with := states[joined.id := joined];
    var v := PipVolumes(with, ids + [joined.id]);
    assert v[..|ids|] == PipVolumes(states, ids);
    MaxOfEqual(PipVolumes(states, ids), total);
  }

  // ----- what a group started with ----------------------------------------------------------

  /** Some legs of a group, none of them twice. */
  ghost predicate SomeLegs(states: map<Id, Position>, group: string, ids: seq<Id>) {
    && (forall i | 0 <= i < |ids| :: ids[i] in states && states[ids[i]].group == group)
    && (forall i, j | 0 <= i < j < |ids| :: ids[i] != ids[j])
  }

  /** Every leg carries what the whole group and its first tranche started with, and the legs still
      open did not start with more. */
  ghost predicate CarriesVolumes(states: map<Id, Position>, group: string, whole: int, first: int) {
    && (forall id | id in states && states[id].group == group ::
          states[id].groupInitial == whole && states[id].figures.firstVolume == first && states[id].initial > 0)
    && (forall ids | SomeLegs(states, group, ids) ::
          Initials(Legs(states, ids), false) <= whole && Initials(Legs(states, ids), true) <= first)
  }

  /** What legs carry of their group's original volumes they go on carrying. */
  ghost predicate KeepsVolumes(was: map<Id, Position>, now: map<Id, Position>) {
    forall g, whole, first :: CarriesVolumes(was, g, whole, first) ==> CarriesVolumes(now, g, whole, first)
  }

  lemma {:induction false} InitialsAdd(a: seq<Position>, b: seq<Position>, first: bool)
    ensures Initials(a + b, first) == Initials(a, first) + Initials(b, first)
  {
    if b == [] {
      assert a + b == a;
    } else {
      assert (a + b)[..|a + b| - 1] == a + b[..|b| - 1];
      InitialsAdd(a, b[..|b| - 1], first);
    }
  }

  lemma {:induction false} InitialsNonNegative(legs: seq<Position>, first: bool)
    requires forall i | 0 <= i < |legs| :: legs[i].initial > 0
    ensures Initials(legs, first) >= 0
  {
    if legs != [] { InitialsNonNegative(legs[..|legs| - 1], first); }
  }

  lemma OneInitial(p: Position, first: bool)
    ensures Initials([p], first) == if first && p.tranche != 1 then 0 else p.initial
  {
    assert [p][..0] == [];
  }

  /** Fewer legs started with no more. */
  lemma {:induction false} FewerLegs(states: map<Id, Position>, group: string, ids: seq<Id>, all: seq<Id>, first: bool)
    requires SomeLegs(states, group, ids) && SomeLegs(states, group, all)
    requires forall i | 0 <= i < |ids| :: ids[i] in all
    requires forall i | 0 <= i < |all| :: states[all[i]].initial > 0
    ensures Initials(Legs(states, ids), first) <= Initials(Legs(states, all), first)
  {
    if ids == [] {
      InitialsNonNegative(Legs(states, all), first);
    } else {
      var n := |ids| - 1;
      var k :| 0 <= k < |all| && all[k] == ids[n];
      FewerLegs(states, group, ids[..n], all[..k] + all[k + 1..], first);
      assert Legs(states, ids)[..n] == Legs(states, ids[..n]);
      WithoutOne(states, group, all, k, first);
    }
  }

  lemma WithoutOne(states: map<Id, Position>, group: string, all: seq<Id>, k: nat, first: bool)
    requires SomeLegs(states, group, all) && k < |all|
    ensures Initials(Legs(states, all), first)
         == Initials(Legs(states, all[..k] + all[k + 1..]), first) + Initials([states[all[k]]], first)
    ensures Initials([states[all[k]]], first)
         == if first && states[all[k]].tranche != 1 then 0 else states[all[k]].initial
  {
    var front, back := Legs(states, all[..k]), Legs(states, all[k + 1..]);
    assert Legs(states, all) == front + ([states[all[k]]] + back);
    assert Legs(states, all[..k] + all[k + 1..]) == front + back;
    InitialsAdd(front, [states[all[k]]] + back, first);
    InitialsAdd([states[all[k]]], back, first);
    InitialsAdd(front, back, first);
    OneInitial(states[all[k]], first);
  }

  /** A group whose legs all carry the sums of what they started with. */
  lemma StartsCarrying(states: map<Id, Position>, group: string, all: seq<Id>, whole: int, first: int)
    requires Lists(states, group, all)
    requires whole == Initials(Legs(states, all), false) && first == Initials(Legs(states, all), true)
    requires forall id | id in states && states[id].group == group ::
               states[id].groupInitial == whole && states[id].figures.firstVolume == first && states[id].initial > 0
    ensures CarriesVolumes(states, group, whole, first)
  {
    forall ids | SomeLegs(states, group, ids)
      ensures Initials(Legs(states, ids), false) <= whole && Initials(Legs(states, ids), true) <= first
    {
      FewerLegs(states, group, ids, all, false);
      FewerLegs(states, group, ids, all, true);
    }
  }

  lemma {:induction false} CarriedByAll(states: map<Id, Position>, ids: seq<Id>, whole: int, first: int)
    requires ids != [] && forall i | 0 <= i < |ids| :: ids[i] in states && states[ids[i]].groupInitial == whole
                                                       && states[ids[i]].figures.firstVolume == first
    ensures MaxCarried(states, ids) == whole && LargestFirst(Legs(states, ids)) == first
  {
    if |ids| > 1 {
      CarriedByAll(states, ids[..|ids| - 1], whole, first);
      assert Legs(states, ids)[..|ids| - 1] == Legs(states, ids[..|ids| - 1]);
    }
  }

  /** Whatever legs are left, the group's volume and its first tranche's are what they were at the
      start. */
  lemma OriginalVolumes(states: map<Id, Position>, group: string, ids: seq<Id>, whole: int, first: int)
    requires CarriesVolumes(states, group, whole, first) && Lists(states, group, ids) && ids != []
    ensures GroupInitialVolume(states, ids) == whole && FirstVolume(Legs(states, ids)) == first
    ensures whole > 0
  {
    CarriedByAll(states, ids, whole, first);
    assert SomeLegs(states, group, ids) && SomeLegs(states, group, [ids[0]]);
    assert Legs(states, [ids[0]]) == [states[ids[0]]];
    OneInitial(states[ids[0]], false);
  }

  lemma {:induction false} SameInitials(a: seq<Position>, b: seq<Position>, first: bool)
    requires |a| == |b| && forall i | 0 <= i < |a| :: a[i].initial == b[i].initial && a[i].tranche == b[i].tranche
    ensures Initials(a, first) == Initials(b, first)
  {
    if a != [] { SameInitials(a[..|a| - 1], b[..|b| - 1], first); }
  }

  lemma VolumesKept(was: map<Id, Position>, now: map<Id, Position>)
    requires Kept(was, now)
    requires forall g, whole, first, id | CarriesVolumes(was, g, whole, first) && id in now && now[id].group == g ::
               now[id].groupInitial == whole && now[id].figures.firstVolume == first
    ensures KeepsVolumes(was, now)
  {
    forall g, whole, first | CarriesVolumes(was, g, whole, first) ensures CarriesVolumes(now, g, whole, first) {
      forall ids | SomeLegs(now, g, ids)
        ensures Initials(Legs(now, ids), false) <= whole && Initials(Legs(now, ids), true) <= first
      {
        assert SomeLegs(was, g, ids) by { assert forall i | 0 <= i < |ids| :: Evolves(was[ids[i]], now[ids[i]]); }
        SameInitials(Legs(was, ids), Legs(now, ids), false);
        SameInitials(Legs(was, ids), Legs(now, ids), true);
      }
    }
  }

  /** Nothing but stops, volumes left and marks changed. */
  lemma SameVolumes(was: map<Id, Position>, now: map<Id, Position>)
    requires Kept(was, now)
    requires forall id | id in now ::
               now[id].groupInitial == was[id].groupInitial
               && now[id].figures.firstVolume == was[id].figures.firstVolume
    ensures KeepsVolumes(was, now)
  {
    assert forall id | id in now :: Evolves(was[id], now[id]);
    VolumesKept(was, now);
  }

  function Inherit(p: Position, source: Position): Position {
    var risk := if source.figures.riskStopPips.Some? then source.figures.riskStopPips else p.figures.riskStopPips;
    p.(pipVolume := source.pipVolume, groupInitial := source.groupInitial, trancheCount := source.trancheCount,
       figures := source.figures.(riskStopPips := risk))
  }

  /** Every leg of the source's group takes over its group figures. */
  function Propagated(states: map<Id, Position>, source: Position): map<Id, Position> {
    map id | id in states :: if states[id].group == source.group then Inherit(states[id], source) else states[id]
  }

  /** Every leg of the group but one takes over a new pip-volume. */
  function Synced(states: map<Id, Position>, group: string, but: Id, pipVolume: real): map<Id, Position> {
    map id | id in states ::
      if states[id].group == group && id != but then states[id].(pipVolume := pipVolume) else states[id]
  }

  // ----- targets --------------------------------------------------------------------------

  function ExitQuote(d: Direction, q: Quote): real { if d.Buy? then q.bid else q.ask }

  /** Sells get a cushion on whole price handles. */
  predicate HasReachedExitTarget(d: Direction, quote: real, target: real) {
    if d.Buy? then quote >= target
    else if target == target.Floor as real then quote < target + 0.1
    else quote <= target
  }

  /** Prices that match the rows go by row, a full group ladder by target number. */
  function TargetPrice(p: Position, row: nat, pip: real): real
    requires row < |p.clip.pips|
  {
    var c, o := p.clip, Ordinal(p.clip, row);
    if c.prices.Some? && |c.prices.value| == |c.pips| then c.prices.value[row]
    else if c.prices.Some? && 1 <= o <= |c.prices.value| then c.prices.value[o - 1]
    else if c.prices.Some? && row < |c.prices.value| then c.prices.value[row]
    else if p.rangeExit.Some? then p.rangeExit.value
    else Ahead(c.direction, c.entry, Distance(c.pips[row], pip))
  }

  /** The quote that filled the position, or an older one. */
  predicate Stale(p: Position, q: Quote) {
    q.sequence <= p.seenSequence || (p.seenTime > 0 && q.time < p.seenTime)
  }

  predicate Hit(p: Position, q: Quote, pip: real)
    requires p.next < |p.clip.pips|
  {
    HasReachedExitTarget(p.clip.direction, ExitQuote(p.clip.direction, q), TargetPrice(p, p.next, pip))
  }

  /** The last target takes all that is left. */
  function CloseVolume(p: Position): int
    requires WellFormed(p) && p.next < |p.clip.pips|
  {
    if p.next == |p.clip.pips| - 1 then p.clip.remaining else Min(p.slices[p.next], p.clip.remaining)
  }

  predicate LeavesDust(p: Position, minVolume: int)
    requires WellFormed(p) && p.next < |p.clip.pips|
  {
    p.next < |p.clip.pips| - 1 && 0 < p.clip.remaining - CloseVolume(p) < minVolume
  }

  function SelectedOrdinals(states: map<Id, Position>, group: string): set<int> {
    set id, o | id in states && states[id].group == group && states[id].clip.ordinals.Some?
                && o in states[id].clip.ordinals.value :: o
  }

  function Moved(p: Position, stop: real): Position { p.(clip := p.clip.(stop := Some(stop))) }

  function Clips(states: map<Id, Position>, ids: seq<Id>): seq<Clip>
    requires forall i | 0 <= i < |ids| :: ids[i] in states
  {
    seq(|ids|, i requires 0 <= i < |ids| => states[ids[i]].clip)
  }

  /** Only stops differ, and none is looser. */
  predicate OnlyStops(before: map<Id, Position>, after: map<Id, Position>) {
    && after.Keys == before.Keys
    && forall id | id in after ::
      && after[id] == before[id].(clip := before[id].clip.(stop := after[id].clip.stop))
      && StopKept(before[id].clip.direction, before[id].clip.stop, after[id].clip.stop)
  }

  /** Two views of one position that differ in the stop, the second at least as good. */
  predicate Fresher(p: Position, q: Position) {
    && q == p.(clip := p.clip.(stop := q.clip.stop))
    && StopKept(p.clip.direction, p.clip.stop, q.clip.stop)
  }

  function Left(p: Position, volume: int, fill: Fill): int {
    if fill.remaining.Some? then fill.remaining.value else Max(0, p.clip.remaining - volume)
  }

  /** A confirmed close makes the position smaller, and when it is exact by what was asked. */
  predicate Executed(p: Position, volume: int, fill: Fill, exact: bool) {
    0 <= Left(p, volume, fill) < p.clip.remaining && (exact ==> Left(p, volume, fill) == p.clip.remaining - volume)
  }

  /** A fill without a price counts as the quote. */
  function PriceOf(fill: Fill, quote: real): real { if fill.price > 0.0 then fill.price else quote }

  function CloseOf(p: Position, volume: int, fill: Fill, quote: real, pip: real): Close
    requires pip > 0.0
  {
    Close(p.id, p.group, p.clip.remaining - Left(p, volume, fill),
          SignedPips(p.clip.direction, p.clip.entry, PriceOf(fill, quote), pip))
  }

  /** The book once q, booked, is propagated to its group; a position with nothing left goes. */
  function AfterBooking(states: map<Id, Position>, q: Position): map<Id, Position> {
    var all := Propagated(states[q.id := q], q);
    if q.clip.remaining <= 0 then all - {q.id} else all
  }

  /** After an owner's close only the pip-volume is shared. */
  function AfterOwnerClose(states: map<Id, Position>, q: Position): map<Id, Position> {
    var all := Synced(states, q.group, q.id, q.pipVolume)[q.id := q];
    if q.clip.remaining <= 0 then all - {q.id} else all
  }

  /** A leg that took over at most its group's figures from q. */
  predicate Shares(p: Position, r: Position, q: Position) {
    && r == p.(pipVolume := r.pipVolume, groupInitial := r.groupInitial, trancheCount := r.trancheCount,
               figures := r.figures)
    && r.pipVolume == if p.group == q.group then q.pipVolume else p.pipVolume
  }

  /** q is booked, its total is shared with its group, and with nothing left it is gone. */
  predicate SharedOut(states: map<Id, Position>, after: map<Id, Position>, q: Position) {
    && q.id in states
    && after.Keys == (if q.clip.remaining <= 0 then states.Keys - {q.id} else states.Keys)
    && (q.id in after ==> after[q.id] == q)
    && forall id | id in after && id != q.id :: Shares(states[id], after[id], q)
  }

  lemma InheritShares(p: Position, q: Position)
    ensures p.group == q.group ==> Shares(p, Inherit(p, q), q)
    ensures p.group != q.group ==> Shares(p, p, q)
    ensures Inherit(q, q) == q
  {
  }

  lemma BookingSharesOut(states: map<Id, Position>, q: Position)
    requires q.id in states
    ensures SharedOut(states, AfterBooking(states, q), q)
  {
    var after := AfterBooking(states, q);
    assert Propagated(states[q.id := q], q).Keys == states.Keys;
    InheritShares(q, q);
    forall id | id in after && id != q.id ensures Shares(states[id], after[id], q) {
      InheritShares(states[id], q);
    }
  }

  lemma OwnerCloseSharesOut(states: map<Id, Position>, q: Position)
    requires q.id in states
    ensures SharedOut(states, AfterOwnerClose(states, q), q)
  {
    assert Synced(states, q.group, q.id, q.pipVolume)[q.id := q].Keys == states.Keys;
  }

  /** A position that is gone, with its total shared among the legs that stay. */
  lemma VanishingSharesOut(states: map<Id, Position>, q: Position)
    requires q.id in states && q.clip.remaining <= 0
    ensures SharedOut(states, Synced(states - {q.id}, q.group, q.id, q.pipVolume), q)
  {
    assert Synced(states - {q.id}, q.group, q.id, q.pipVolume).Keys == states.Keys - {q.id};
  }

  /** What booking a close makes of a position. */
  predicate BookedFrom(p: Position, q: Position, c: Close) {
    && Evolves(p, q) && c.id == p.id && c.group == p.group
    && q.clip.remaining >= 0 && c.volume == p.clip.remaining - q.clip.remaining
    && q.next <= |q.clip.pips|
  }

  lemma SiblingAgrees(p: Position, r: Position, q: Position, c: Close, closes: seq<Close>, exact: bool)
    requires AgreesOne(p, closes, exact) && p.id != q.id && c.id == q.id && c.group == q.group && Shares(p, r, q)
    requires exact ==> q.pipVolume == GroupTotal(closes, q.group) + PipVolume(c.pips, c.volume)
    ensures AgreesOne(r, closes + [c], exact)
  {
    LogOne(closes, c);
  }

  lemma BookedAgrees(p: Position, q: Position, c: Close, closes: seq<Close>, exact: bool)
    requires AgreesOne(p, closes, exact) && BookedFrom(p, q, c) && q.clip.remaining > 0
    requires exact ==> q.pipVolume == GroupTotal(closes, q.group) + PipVolume(c.pips, c.volume)
    ensures AgreesOne(q, closes + [c], exact)
  {
    LogOne(closes, c);
  }

  lemma SharedAgrees(states: map<Id, Position>, after: map<Id, Position>, closes: seq<Close>, exact: bool, q: Position,
                     c: Close)
    requires Agrees(states, closes, exact) && SharedOut(states, after, q) && BookedFrom(states[q.id], q, c)
    requires exact ==> q.pipVolume == GroupTotal(closes, q.group) + PipVolume(c.pips, c.volume)
    ensures Agrees(after, closes + [c], exact)
  {
    forall id | id in after ensures after[id].id == id && AgreesOne(after[id], closes + [c], exact) {
      if id == q.id {
        BookedAgrees(states[id], q, c, closes, exact);
      } else {
        SiblingAgrees(states[id], after[id], q, c, closes, exact);
      }
    }
  }

  lemma SharesEvolves(p: Position, r: Position, q: Position)
    requires Shares(p, r, q)
    ensures Evolves(p, r)
  {
  }

  lemma SelfEvolves(p: Position)
    ensures Evolves(p, p)
  {
  }

  lemma SharedKeeps(states: map<Id, Position>, after: map<Id, Position>, q: Position)
    requires SharedOut(states, after, q) && Evolves(states[q.id], q)
    ensures Kept(states, after)
  {
    forall id | id in after ensures Evolves(states[id], after[id]) {
      if id != q.id { SharesEvolves(states[id], after[id], q); }
    }
  }

  lemma SharedAccounts(states: map<Id, Position>, after: map<Id, Position>, closes: seq<Close>, q: Position, c: Close)
    requires SharedOut(states, after, q) && BookedFrom(states[q.id], q, c) && c.id == q.id
    ensures forall id :: Accounted(after, closes + [c], id) == Accounted(states, closes, id)
  {
    LogOne(closes, c);
    forall id ensures Accounted(after, closes + [c], id) == Accounted(states, closes, id) {
      if id in after && id != q.id { assert Shares(states[id], after[id], q); }
    }
  }

  lemma SharedCovered(states: map<Id, Position>, after: map<Id, Position>, placed: Placed, q: Position)
    requires Covered(states, placed) && SharedOut(states, after, q) && CoveredOne(q, placed)
    ensures Covered(after, Written(placed, q))
  {
    forall id | id in after ensures after[id].id == id && CoveredOne(after[id], Written(placed, q)) {
      if id != q.id { assert Shares(states[id], after[id], q) && CoveredOne(states[id], placed); }
    }
  }

  /** Booking one close and sharing out its total: the book agrees with the broker again and
      no volume is lost. */
  lemma CloseManaged(states: map<Id, Position>, after: map<Id, Position>, closes: seq<Close>, exact: bool,
                     placed: Placed, q: Position, c: Close)
    requires Agrees(states, closes, exact) && Covered(states, placed) && SharedOut(states, after, q)
    requires BookedFrom(states[q.id], q, c) && c.id == q.id && CoveredOne(q, placed)
    requires exact ==> q.pipVolume == GroupTotal(closes, q.group) + PipVolume(c.pips, c.volume)
    requires KeepsVolumes(states, after)
    ensures Agrees(after, closes + [c], exact) && Covered(after, Written(placed, q))
    ensures Managed(Book(states, closes, placed), Book(after, closes + [c], Written(placed, q)))
  {
    SharedAgrees(states, after, closes, exact, q, c);
    SharedKeeps(states, after, q);
    SharedAccounts(states, after, closes, q, c);
    SharedCovered(states, after, placed, q);
  }

  /** The amendment was made between two moments. */
  ghost predicate Entered(was: Placed, placed: Placed, a: Amendment) {
    exists k | |was.log| <= k < |placed.log| :: placed.log[k] == a
  }

  /** A position whose stop should move: it holds the stop already, or the broker was asked and
      either moved it, which is on the log, or refused. */
  ghost predicate Asked(p: Position, q: Position, stop: real, was: Placed, placed: Placed, obliging: bool) {
    if Holds(p.clip, stop) then q == p
    else
      && (p.id, stop) in placed.requests && p.id in was.stops
      && ((q == p && !obliging) || (q == Moved(p, stop) && Entered(was, placed, AmendmentOf(p, stop, was, false))))
  }

  /** Requests and amendments are only added. */
  predicate Grows(was: Placed, placed: Placed) { was.requests <= placed.requests && was.log <= placed.log }

  /** The stops of all but some positions are as they were. */
  predicate StopsKeptBut(was: Placed, placed: Placed, ids: seq<Id>) {
    forall id | id in was.stops && id !in ids :: id in placed.stops && placed.stops[id] == was.stops[id]
  }

  /** The first i of the listed positions have been asked to move their stops. */
  ghost predicate AskedSoFar(before: map<Id, Position>, was: Placed, states: map<Id, Position>, placed: Placed,
                             ids: seq<Id>, stops: seq<real>, i: nat, obliging: bool)
    requires i <= |ids| == |stops|
  {
    && states.Keys == before.Keys && (forall j | 0 <= j < |ids| :: ids[j] in states)
    && (forall j | 0 <= j < i :: Asked(before[ids[j]], states[ids[j]], stops[j], was, placed, obliging))
    && (forall id | id in states && id !in ids[..i] :: states[id] == before[id])
    && Grows(was, placed) && StopsKeptBut(was, placed, ids[..i])
  }

  /** What one more position asked adds, from any earlier moment on. */
  lemma AskedLater(p: Position, q: Position, stop: real, was: Placed, mid: Placed, placed: Placed,
                   obliging: bool)
    requires Grows(was, mid) && Grows(mid, placed)
    ensures Grows(was, placed)
    ensures Asked(p, q, stop, was, mid, obliging) ==> Asked(p, q, stop, was, placed, obliging)
    ensures (&& Asked(p, q, stop, mid, placed, obliging) && p.id in was.stops && p.id in mid.stops
             && mid.stops[p.id] == was.stops[p.id]) ==>
      Asked(p, q, stop, was, placed, obliging)
  {
    if Asked(p, q, stop, was, mid, obliging) && q == Moved(p, stop) && !Holds(p.clip, stop) && q != p {
      var k :| |was.log| <= k < |mid.log| && mid.log[k] == AmendmentOf(p, stop, was, false);
      assert placed.log[k] == mid.log[k];
    }
    if Asked(p, q, stop, mid, placed, obliging) && p.id in was.stops && p.id in mid.stops
       && mid.stops[p.id] == was.stops[p.id] && q == Moved(p, stop) && !Holds(p.clip, stop) && q != p {
      var k :| |mid.log| <= k < |placed.log| && placed.log[k] == AmendmentOf(p, stop, mid, false);
      assert AmendmentOf(p, stop, was, false) == AmendmentOf(p, stop, mid, false);
    }
  }

  /** One more position was asked, at index i of the list. */
  ghost predicate AskedOneMore(states: map<Id, Position>, mid: Placed, after: map<Id, Position>, placed: Placed,
                               ids: seq<Id>, stops: seq<real>, i: nat, obliging: bool)
    requires i < |ids| == |stops|
  {
    && ids[i] in states && after.Keys == states.Keys
    && (forall id | id in after && id != ids[i] :: after[id] == states[id])
    && Asked(states[ids[i]], after[ids[i]], stops[i], mid, placed, obliging)
    && Grows(mid, placed) && StopsKeptBut(mid, placed, [ids[i]])
  }

  lemma AskedNext(before: map<Id, Position>, was: Placed, states: map<Id, Position>, mid: Placed,
                  after: map<Id, Position>, placed: Placed, ids: seq<Id>, stops: seq<real>, i: nat, obliging: bool)
    requires i < |ids| == |stops| && AskedSoFar(before, was, states, mid, ids, stops, i, obliging)
    requires forall j, k | 0 <= j < k < |ids| :: ids[j] != ids[k]
    requires before[ids[i]].id == ids[i] && ids[i] in was.stops
    requires AskedOneMore(states, mid, after, placed, ids, stops, i, obliging)
    ensures AskedSoFar(before, was, after, placed, ids, stops, i + 1, obliging)
  {
    assert ids[i] !in ids[..i];
    AskedNew(before, was, states, mid, after, placed, ids, stops, i, obliging);
    AskedEarlier(before, was, states, mid, after, placed, ids, stops, i, obliging);
    OthersUntouched(before, was, states, mid, after, placed, ids, stops, i, obliging);
  }

  /** The positions not asked yet, and their stops. */
  lemma OthersUntouched(before: map<Id, Position>, was: Placed, states: map<Id, Position>, mid: Placed,
                        after: map<Id, Position>, placed: Placed, ids: seq<Id>, stops: seq<real>, i: nat,
                        obliging: bool)
    requires i < |ids| == |stops| && AskedSoFar(before, was, states, mid, ids, stops, i, obliging)
    requires AskedOneMore(states, mid, after, placed, ids, stops, i, obliging)
    ensures forall id | id in after && id !in ids[..i + 1] :: after[id] == before[id]
    ensures Grows(was, placed) && StopsKeptBut(was, placed, ids[..i + 1])
  {
    assert ids[..i + 1] == ids[..i] + [ids[i]];
  }

  /** The position just asked. */
  lemma AskedNew(before: map<Id, Position>, was: Placed, states: map<Id, Position>, mid: Placed,
                 after: map<Id, Position>, placed: Placed, ids: seq<Id>, stops: seq<real>, i: nat, obliging: bool)
    requires i < |ids| == |stops| && AskedSoFar(before, was, states, mid, ids, stops, i, obliging)
    requires ids[i] !in ids[..i] && before[ids[i]].id == ids[i] && ids[i] in was.stops
    requires AskedOneMore(states, mid, after, placed, ids, stops, i, obliging)
    ensures Asked(before[ids[i]], after[ids[i]], stops[i], was, placed, obliging)
  {
    AskedLater(before[ids[i]], after[ids[i]], stops[i], was, mid, placed, obliging);
  }

  /** The positions asked before it. */
  lemma AskedEarlier(before: map<Id, Position>, was: Placed, states: map<Id, Position>, mid: Placed,
                     after: map<Id, Position>, placed: Placed, ids: seq<Id>, stops: seq<real>, i: nat, obliging: bool)
    requires i < |ids| == |stops| && AskedSoFar(before, was, states, mid, ids, stops, i, obliging)
    requires forall j, k | 0 <= j < k < |ids| :: ids[j] != ids[k]
    requires AskedOneMore(states, mid, after, placed, ids, stops, i, obliging)
    ensures forall j | 0 <= j < i :: Asked(before[ids[j]], after[ids[j]], stops[j], was, placed, obliging)
  {
    forall j | 0 <= j < i ensures Asked(before[ids[j]], after[ids[j]], stops[j], was, placed, obliging) {
      assert ids[j] != ids[i];
      AskedLater(before[ids[j]], after[ids[j]], stops[j], was, mid, placed, obliging);
    }
  }

  lemma AskedOnlyStops(before: map<Id, Position>, was: Placed, states: map<Id, Position>, placed: Placed,
                       ids: seq<Id>, stops: seq<real>, obliging: bool)
    requires |ids| == |stops| && AskedSoFar(before, was, states, placed, ids, stops, |ids|, obliging)
    ensures OnlyStops(before, states)
  {
    forall id | id in states
      ensures states[id] == before[id].(clip := before[id].clip.(stop := states[id].clip.stop))
      ensures StopKept(before[id].clip.direction, before[id].clip.stop, states[id].clip.stop)
    {
      if id in ids[..|ids|] {
        var j :| 0 <= j < |ids| && ids[j] == id;
        assert Asked(before[ids[j]], states[ids[j]], stops[j], was, placed, obliging);
      }
    }
  }

  lemma OnlyStopsAgrees(before: map<Id, Position>, after: map<Id, Position>, closes: seq<Close>, exact: bool)
    requires Agrees(before, closes, exact) && OnlyStops(before, after)
    ensures Agrees(after, closes, exact) && Kept(before, after)
    ensures forall id :: Accounted(after, closes, id) == Accounted(before, closes, id)
  {
  }

  /** The largest of equal figures is the group's total. */
  lemma CarriedIsTotal(states: map<Id, Position>, closes: seq<Close>, group: string, ids: seq<Id>)
    requires Agrees(states, closes, true) && Lists(states, group, ids) && ids != []
    ensures GroupRealizedPipVolume(states, ids) == GroupTotal(closes, group)
  {
    MaxOfEqual(PipVolumes(states, ids), GroupTotal(closes, group));
  }

  // ----- protecting a group ---------------------------------------------------------------

  predicate ManualMultiLeg(states: map<Id, Position>, ids: seq<Id>)
    requires forall i | 0 <= i < |ids| :: ids[i] in states
  {
    exists i | 0 <= i < |ids| :: states[ids[i]].manual && states[ids[i]].trancheCount > 1
  }

  function GroupMove(states: map<Id, Position>, ids: seq<Id>, rules: Rules): Planning<Option<real>>
    requires forall i | 0 <= i < |ids| :: ids[i] in states
  {
    PlanGroupEconomicBreakeven(Clips(states, ids), GroupInitialVolume(states, ids), GroupRealizedPipVolume(states, ids),
                               rules.digits, rules.pip, rules.bufferTicks)
  }

  function BreakevenStops(states: map<Id, Position>, ids: seq<Id>, rules: Rules): seq<real>
    requires forall i | 0 <= i < |ids| :: ids[i] in states
  {
    seq(|ids|, i requires 0 <= i < |ids| =>
      ProtectedBreakevenStop(states[ids[i]].clip.direction, states[ids[i]].clip.entry, rules.digits, rules.bufferTicks))
  }

  /** What a group of this volume has booked plus all its clips stopped out is at least the buffer on
      the whole of it. */
  predicate LocksBuffer(booked: real, volume: int, clips: seq<Clip>, rules: Rules)
    requires rules.pip > 0.0
  {
    CoversBuffer(booked + PipVolumeAtStops(clips, rules.pip), volume, TickSize(rules.digits), rules.pip,
                 rules.bufferTicks)
  }

  /** What a group protection did: without a move nothing, else every leg was asked to hold it. */
  ghost predicate GroupAsked(before: map<Id, Position>, after: map<Id, Position>, ids: seq<Id>, move: Option<real>,
                             was: Placed, placed: Placed, obliging: bool)
    requires forall i | 0 <= i < |ids| :: ids[i] in before && ids[i] in after
  {
    forall i | 0 <= i < |ids| ::
      if move.None? then after[ids[i]] == before[ids[i]]
      else Asked(before[ids[i]], after[ids[i]], move.value, was, placed, obliging)
  }

  predicate GroupHolds(states: map<Id, Position>, ids: seq<Id>, move: Option<real>)
    requires forall i | 0 <= i < |ids| :: ids[i] in states
  {
    move.Some? ==> forall i | 0 <= i < |ids| :: Holds(states[ids[i]].clip, move.value)
  }

  lemma ClipsProtected(before: map<Id, Position>, after: map<Id, Position>, was: Placed, placed: Placed, ids: seq<Id>,
                       move: Option<real>, obliging: bool)
    requires forall i | 0 <= i < |ids| :: ids[i] in before && ids[i] in after
    requires GroupAsked(before, after, ids, move, was, placed, obliging) && GroupHolds(after, ids, move)
    ensures Clips(after, ids) == ProtectAll(Clips(before, ids), move)
  {
    if move.Some? {
      forall i | 0 <= i < |ids| ensures after[ids[i]].clip == Protected(before[ids[i]].clip, move.value) {
        assert Asked(before[ids[i]], after[ids[i]], move.value, was, placed, obliging);
      }
    }
  }

  lemma OpenClips(states: map<Id, Position>, ids: seq<Id>)
    requires forall i | 0 <= i < |ids| :: ids[i] in states && states[ids[i]].clip.remaining > 0
    ensures forall c | c in Clips(states, ids) :: c.remaining > 0
  {
    forall c | c in Clips(states, ids) ensures c.remaining > 0 {
      var i :| 0 <= i < |ids| && Clips(states, ids)[i] == c;
      assert states[ids[i]].clip.remaining > 0;
    }
  }

  /** A group protection the broker went along with locks the buffer. */
  lemma ProtectedGroupLocks(before: map<Id, Position>, after: map<Id, Position>, was: Placed, placed: Placed,
                            ids: seq<Id>, rules: Rules, move: Option<real>, obliging: bool)
    requires rules.pip > 0.0 && ids != []
    requires forall i | 0 <= i < |ids| :: ids[i] in before && before[ids[i]].clip.remaining > 0
    requires GroupInitialVolume(before, ids) > 0 && GroupMove(before, ids, rules) == Planned(move)
    requires forall i | 0 <= i < |ids| :: ids[i] in after
    requires GroupAsked(before, after, ids, move, was, placed, obliging) && GroupHolds(after, ids, move)
    ensures LocksBuffer(GroupRealizedPipVolume(before, ids), GroupInitialVolume(before, ids), Clips(after, ids), rules)
  {
    ClipsProtected(before, after, was, placed, ids, move, obliging);
    OpenClips(before, ids);
    GroupLocksTheBuffer(Clips(before, ids), GroupInitialVolume(before, ids), GroupRealizedPipVolume(before, ids),
                        rules.digits, rules.pip, rules.bufferTicks);
  }

  /** The buffer is locked on all the volume the group started with, by every close there was. */
  ghost predicate LocksTheWhole(before: map<Id, Position>, closes: seq<Close>, group: string, clips: seq<Clip>,
                                rules: Rules)
    requires rules.pip > 0.0
  {
    forall whole, first | CarriesVolumes(before, group, whole, first) ::
      LocksBuffer(GroupTotal(closes, group), whole, clips, rules)
  }

  /** The figures the engine plans with are the group's own, whatever legs are left. */
  lemma PlansWithTheTruth(states: map<Id, Position>, closes: seq<Close>, group: string, ids: seq<Id>, clips: seq<Clip>,
                          rules: Rules)
    requires rules.pip > 0.0 && Agrees(states, closes, true) && Lists(states, group, ids) && ids != []
    requires GroupInitialVolume(states, ids) > 0 ==>
               LocksBuffer(GroupRealizedPipVolume(states, ids), GroupInitialVolume(states, ids), clips, rules)
    ensures LocksTheWhole(states, closes, group, clips, rules)
  {
    forall whole, first | CarriesVolumes(states, group, whole, first)
      ensures LocksBuffer(GroupTotal(closes, group), whole, clips, rules)
    {
      CarriedIsTotal(states, closes, group, ids);
      OriginalVolumes(states, group, ids, whole, first);
    }
  }

  function ManualLegs(legs: seq<Position>): (r: seq<Position>)
    ensures forall p :: p in r <==> p in legs && p.manual
  {
    if legs == [] then [] else
    var last := legs[|legs| - 1];
    assert forall p :: p in legs <==> p in legs[..|legs| - 1] || p == last;
    ManualLegs(legs[..|legs| - 1]) + if last.manual then [last] else []
  }

  function FirstTranche(legs: seq<Position>): (r: seq<Position>)
    ensures forall p :: p in r <==> p in legs && p.tranche == 1
  {
    if legs == [] then [] else
    var last := legs[|legs| - 1];
    assert forall p :: p in legs <==> p in legs[..|legs| - 1] || p == last;
    FirstTranche(legs[..|legs| - 1]) + if last.tranche == 1 then [last] else []
  }

  /** The most protective entry among some legs. */
  function BestEntry(d: Direction, legs: seq<Position>): (r: real)
    requires legs != []
    ensures forall p | p in legs :: AtLeast(d, r, p.clip.entry)
    ensures exists p | p in legs :: r == p.clip.entry
  {
    var last := legs[|legs| - 1].clip.entry;
    if |legs| == 1 then assert legs[0] in legs; last else
    var rest := BestEntry(d, legs[..|legs| - 1]);
    assert forall p :: p in legs <==> p in legs[..|legs| - 1] || p == legs[|legs| - 1];
    if AtLeast(d, rest, last) then rest else last
  }

  /** The manual legs of a group, the one just booked included even when it is gone already. */
  function GroupLegs(states: map<Id, Position>, ids: seq<Id>, completed: Position): seq<Position>
    requires forall i | 0 <= i < |ids| :: ids[i] in states
  {
    ManualLegs(Legs(states, ids) + if completed.id in ids then [] else [completed])
  }

  /** The fill of the shallow leg; without one, the best fill of the group. */
  function ShallowEntry(legs: seq<Position>): real
    requires legs != []
  {
    BestEntry(legs[0].clip.direction, if FirstTranche(legs) != [] then FirstTranche(legs) else legs)
  }

  // ----- targets passed without booking ----------------------------------------------------

  /** The targets some leg of the group books; a leg without a group stands for itself. */
  function Chosen(p: Position, selected: set<int>): set<int> {
    if selected != {} || p.clip.ordinals.None? then selected else set o | o in p.clip.ordinals.value
  }

  /** A target of the group's price list that no leg books and the quote has reached. */
  predicate Passed(p: Position, selected: set<int>, q: Quote, ordinal: int) {
    && p.clip.prices.Some? && 1 <= ordinal <= |p.clip.prices.value| && ordinal !in Chosen(p, selected)
    && HasReachedExitTarget(p.clip.direction, ExitQuote(p.clip.direction, q), p.clip.prices.value[ordinal - 1])
  }

  /** The local copy of a position: as in the book, with a stop at least as good. */
  ghost predicate Local(states: map<Id, Position>, placed: Placed, p: Position) {
    p.id in states && Fresher(states[p.id], p) && CoveredOne(p, placed)
  }

  /** The quote makes a manual position report a target it does not book. */
  ghost predicate NoticeDue(p: Position, selected: set<int>, q: Quote) {
    p.manual && !Stale(p, q) && exists ordinal :: Passed(p, selected, q, ordinal)
  }

  /** Where the stop belongs after a reported target, if that is an improvement. */
  function NoticeMove(p: Position, ordinal: int, rules: Rules): Option<real> {
    var plan := PlanForTargetOrdinal(p.clip, ordinal, rules.digits, rules.pip, rules.bufferTicks);
    if plan.Planned? then plan.move else None
  }

  lemma NoticeMoveOf(p: Position, marked: Position, ordinal: int, rules: Rules)
    requires marked.clip == p.clip
    ensures PlanForTargetOrdinal(marked.clip, ordinal, rules.digits, rules.pip, rules.bufferTicks)
            == Planned(NoticeMove(p, ordinal, rules))
    ensures NoticeMove(p, ordinal, rules).Some? ==> !Holds(p.clip, NoticeMove(p, ordinal, rules).value)
  {
  }

  /** One target reported: the book learns the mark and keeps its stop, the copy q has the stop the
      broker moved, or the one it had. */
  predicate Noticed(before: map<Id, Position>, was: Placed, states: map<Id, Position>, placed: Placed, p: Position,
                    q: Position, ordinal: int, rules: Rules, obliging: bool)
  {
    var marked, move := p.(reached := p.reached + {ordinal}), NoticeMove(p, ordinal, rules);
    && states == before[p.id := marked]
    && StopMoved(marked, move, true, Written(was, marked), placed, q)
    && (obliging && move.Some? ==> q == Moved(marked, move.value))
  }

  /** The only target that is passed and not reported yet. */
  ghost predicate OnlyDue(p: Position, selected: set<int>, q: Quote, ordinal: int) {
    && p.clip.ordinals.Some? && p.clip.ordinals.value != []
    && Passed(p, selected, q, ordinal) && ordinal !in p.reached
    && forall other | other != ordinal && Passed(p, selected, q, other) :: other in p.reached
  }

  /** What was reported among the targets below `ordinal`, as far as a single one explains it. */
  ghost predicate NoticesSoFar(before: map<Id, Position>, was: Placed, states: map<Id, Position>, placed: Placed,
                               p: Position, q: Position, selected: set<int>, quote: Quote, ordinal: int, last: int,
                               rules: Rules, obliging: bool)
  {
    && ((forall o | 1 <= o < ordinal :: !Passed(p, selected, quote, o)) ==> q == p && states == before && placed == was)
    && forall o | o < last && OnlyDue(p, selected, quote, o) ::
         if ordinal <= o then q == p && states == before && placed == was
         else Noticed(before, was, states, placed, p, q, o, rules, obliging)
  }

  lemma NoticesStep(before: map<Id, Position>, was: Placed, mid: map<Id, Position>, midPlaced: Placed,
                    states: map<Id, Position>, placed: Placed, p: Position, copy: Position, q: Position,
                    selected: set<int>, quote: Quote, ordinal: int, last: int, rules: Rules, obliging: bool)
    requires 1 <= ordinal && p.reached <= copy.reached
    requires NoticesSoFar(before, was, mid, midPlaced, p, copy, selected, quote, ordinal, last, rules, obliging)
    requires if Passed(p, selected, quote, ordinal) && ordinal !in copy.reached
             then Noticed(mid, midPlaced, states, placed, copy, q, ordinal, rules, obliging)
             else q == copy && states == mid && placed == midPlaced
    ensures NoticesSoFar(before, was, states, placed, p, q, selected, quote, ordinal + 1, last, rules, obliging)
  {
    assert forall o | o != ordinal && OnlyDue(p, selected, quote, o) ::
      !Passed(p, selected, quote, ordinal) || ordinal in p.reached;
  }

  // ----- whole operations -------------------------------------------------------------------

  /** No position is too small to be closed. */
  predicate Tradable(states: map<Id, Position>, minVolume: int) {
    forall id | id in states :: states[id].clip.remaining >= minVolume
  }

  /** The positions with what the broker executed and where it has their stops. */
  datatype Book = Book(states: map<Id, Position>, closes: seq<Close>, placed: Placed)

  /** What every operation keeps: positions evolve, no volume is lost or made up, legs go on carrying
      their group's original volumes, and the logs of the broker only grow. */
  ghost predicate Managed(was: Book, now: Book) {
    && Kept(was.states, now.states) && was.closes <= now.closes && Grows(was.placed, now.placed)
    && KeepsVolumes(was.states, now.states)
    && forall id :: Accounted(now.states, now.closes, id) == Accounted(was.states, was.closes, id)
  }

  lemma ManagedTransitive(a: Book, b: Book, c: Book)
    requires Managed(a, b) && Managed(b, c)
    ensures Managed(a, c)
  {
    KeptTransitive(a.states, b.states, c.states);
  }

  /** What is kept between two moments in which only one position was worked on. */
  ghost predicate KeptBetween(was: Book, now: Book, id: Id, exact: bool, minVolume: int) {
    && Managed(was, now) && OthersKept(was.states, now.states, id) && now.placed.lagging <= was.placed.lagging
    && (exact && Tradable(was.states, minVolume) ==> Tradable(now.states, minVolume))
  }

  lemma KeptBetweenTransitive(a: Book, b: Book, c: Book, id: Id, exact: bool, minVolume: int)
    requires KeptBetween(a, b, id, exact, minVolume) && KeptBetween(b, c, id, exact, minVolume)
    ensures KeptBetween(a, c, id, exact, minVolume)
  {
    OthersKeptTransitive(a.states, b.states, c.states, id);
    ManagedTransitive(a, b, c);
  }

  /** A position written back with another stop, next target or mark. */
  predicate Rewrites(p: Position, q: Position) {
    && Evolves(p, q) && q.clip.remaining == p.clip.remaining
    && q.pipVolume == p.pipVolume && q.groupInitial == p.groupInitial && q.figures == p.figures
  }

  lemma RewriteKeeps(states: map<Id, Position>, closes: seq<Close>, exact: bool, placed: Placed, q: Position)
    requires Agrees(states, closes, exact) && Covered(states, placed)
    requires q.id in states && Rewrites(states[q.id], q) && WellFormed(q) && CoveredOne(q, placed)
    ensures Agrees(states[q.id := q], closes, exact) && Covered(states[q.id := q], Written(placed, q))
    ensures Managed(Book(states, closes, placed), Book(states[q.id := q], closes, Written(placed, q)))
  {
    WrittenCovers(states, placed, q);
    RewriteManaged(states, closes, exact, placed, Written(placed, q), q);
  }

  lemma RewriteManaged(states: map<Id, Position>, closes: seq<Close>, exact: bool, was: Placed, placed: Placed,
                       q: Position)
    requires Agrees(states, closes, exact) && Grows(was, placed)
    requires q.id in states && Rewrites(states[q.id], q) && WellFormed(q)
    ensures Agrees(states[q.id := q], closes, exact)
    ensures Managed(Book(states, closes, was), Book(states[q.id := q], closes, placed))
  {
    SameVolumes(states, states[q.id := q]);
  }

  /** Writing one position keeps the others covered. */
  lemma WrittenCovers(states: map<Id, Position>, placed: Placed, q: Position)
    requires q.id in states && InOrder(placed.log) && CoveredOne(q, placed)
    requires forall id | id in states && id != q.id :: states[id].id == id && CoveredOne(states[id], placed)
    ensures Covered(states[q.id := q], Written(placed, q))
  {
    var after := states[q.id := q];
    forall id | id in after ensures after[id].id == id && CoveredOne(after[id], Written(placed, q))
    {
      if id != q.id { assert CoveredOne(states[id], placed); }
    }
  }

  // ----- moving one stop ------------------------------------------------------------------

  /** What asking the broker for a stop leads to: nothing without a move; else it accepts, which
      the copy q learns, or it refuses. */
  predicate StopMoved(p: Position, move: Option<real>, reported: bool, was: Placed, placed: Placed, q: Position) {
    if move.None? then q == p && placed == was
    else
      p.id in was.stops
      && (|| (q == p && placed == Requested(was, p.id, move.value))
          || (q == Moved(p, move.value) && placed == Amended(was, p, move.value, reported)))
  }

  lemma StopMovedCovers(p: Position, move: Option<real>, reported: bool, was: Placed, placed: Placed, q: Position)
    requires InOrder(was.log) && CoveredOne(p, was) && StopMoved(p, move, reported, was, placed, q)
    requires move.Some? ==> !Holds(p.clip, move.value)
    ensures InOrder(placed.log) && Grows(was, placed) && CoveredOne(q, placed) && Fresher(p, q)
    ensures placed.lagging <= was.lagging + if reported then {p.id} else {}
    ensures Current(p, was) ==> Current(q, placed)
    ensures StopsKeptBut(was, placed, [p.id])
  {
    if move.Some? && placed == Amended(was, p, move.value, reported) {
      AmendedRecorded(was, p, move.value, reported);
    }
  }

  /** Another position, and the book's own version of this one after a report, stay covered. */
  lemma OthersCovered(r: Position, p: Position, move: Option<real>, reported: bool, was: Placed, placed: Placed,
                      q: Position)
    requires CoveredOne(r, was) && CoveredOne(p, was) && InOrder(was.log)
        && StopMoved(p, move, reported, was, placed, q)
    requires move.Some? ==> !Holds(p.clip, move.value)
    requires r.id != p.id || (reported && Fresher(r, p))
    ensures CoveredOne(r, placed)
  {
    if move.Some? && placed == Amended(was, p, move.value, reported) {
      if r.id == p.id {
        AmendedRecorded(was, p, move.value, reported);
      } else {
        AmendedElsewhere(was, p, move.value, reported, r);
      }
    }
  }

  lemma AskedOne(p: Position, stop: real, was: Placed, placed: Placed, q: Position, obliging: bool)
    requires !Holds(p.clip, stop) && StopMoved(p, Some(stop), false, was, placed, q)
    requires obliging ==> q == Moved(p, stop)
    ensures Asked(p, q, stop, was, Written(placed, q), obliging)
  {
    if q != p { assert placed.log[|was.log|] == AmendmentOf(p, stop, was, false); }
  }

  /** A stop moved and written to the book at once. */
  lemma MovedIsCovered(states: map<Id, Position>, was: Placed, placed: Placed, id: Id, move: Option<real>, q: Position)
    requires id in states && Covered(states, was) && StopMoved(states[id], move, false, was, placed, q)
    requires move.Some? ==> !Holds(states[id].clip, move.value)
    ensures Covered(states[id := q], Written(placed, q)) && Written(placed, q).lagging <= was.lagging
    ensures Grows(was, Written(placed, q)) && StopsKeptBut(was, Written(placed, q), [id]) && Fresher(states[id], q)
  {
    StopMovedCovers(states[id], move, false, was, placed, q);
    forall other | other in states && other != id
      ensures states[other].id == other && CoveredOne(states[other], placed)
    {
      OthersCovered(states[other], states[id], move, false, was, placed, q);
    }
    WrittenCovers(states, placed, q);
  }

  lemma TrailManaged(states: map<Id, Position>, closes: seq<Close>, exact: bool, was: Placed, placed: Placed,
                     p: Position, move: Option<real>, q: Position, minVolume: int)
    requires Agrees(states, closes, exact) && Covered(states, was) && p.id in states && states[p.id] == p
    requires StopMoved(p, move, false, was, placed, q) && (move.Some? ==> !Holds(p.clip, move.value))
    ensures Agrees(states[p.id := q], closes, exact) && Covered(states[p.id := q], Written(placed, q))
    ensures Managed(Book(states, closes, was), Book(states[p.id := q], closes, Written(placed, q)))
    ensures Written(placed, q).lagging <= was.lagging && q == p.(clip := p.clip.(stop := q.clip.stop))
    ensures Tradable(states, minVolume) ==> Tradable(states[p.id := q], minVolume)
  {
    MovedIsCovered(states, was, placed, p.id, move, q);
    assert AgreesOne(p, closes, exact);
    FreshRewrites(p, p, p, q);
    RewriteManaged(states, closes, exact, was, Written(placed, q), q);
  }

  lemma NoticeCovers(states: map<Id, Position>, was: Placed, p: Position, marked: Position, move: Option<real>,
                     placed: Placed, q: Position)
    requires Covered(states, was) && Local(states, was, p) && marked == p.(reached := marked.reached)
    requires p.reached <= marked.reached && StopMoved(marked, move, true, Written(was, marked), placed, q)
    requires move.Some? ==> !Holds(marked.clip, move.value)
    ensures Covered(states[p.id := marked], placed) && CoveredOne(q, placed) && Fresher(marked, q)
    ensures placed.lagging <= was.lagging + {p.id} && Grows(was, placed) && (Current(p, was) ==> Current(q, placed))
  {
    var after, mid := states[p.id := marked], Written(was, marked);
    WrittenCovers(states, was, marked);
    StopMovedCovers(marked, move, true, mid, placed, q);
    forall id | id in after ensures after[id].id == id && CoveredOne(after[id], placed) {
      OthersCovered(after[id], marked, move, true, mid, placed, q);
    }
  }

  lemma FreshRewrites(b: Position, p: Position, marked: Position, q: Position)
    requires Fresher(b, p) && marked == p.(reached := marked.reached) && p.reached <= marked.reached
        && Fresher(marked, q)
    ensures p.reached <= q.reached
    ensures Rewrites(p, q) && Rewrites(b, marked) && q == p.(reached := q.reached, clip := q.clip)
  {
  }

  /** A reported target: the book learns the mark, the moved stop stays in the copy. */
  lemma NoticeReports(states: map<Id, Position>, was: Placed, p: Position, marked: Position, move: Option<real>,
                      placed: Placed, q: Position)
    requires Covered(states, was) && Local(states, was, p) && marked == p.(reached := marked.reached)
    requires p.reached <= marked.reached && StopMoved(marked, move, true, Written(was, marked), placed, q)
    requires move.Some? ==> !Holds(marked.clip, move.value)
    ensures Reported(states, was, states[p.id := marked], placed, p, q)
  {
    NoticeCovers(states, was, p, marked, move, placed, q);
    FreshRewrites(states[p.id], p, marked, q);
  }

  lemma OnlyStopsManaged(before: map<Id, Position>, after: map<Id, Position>, closes: seq<Close>, exact: bool,
                         was: Placed, placed: Placed, minVolume: int)
    requires Agrees(before, closes, exact) && OnlyStops(before, after) && Grows(was, placed)
    ensures Agrees(after, closes, exact) && Managed(Book(before, closes, was), Book(after, closes, placed))
    ensures Tradable(before, minVolume) ==> Tradable(after, minVolume)
  {
    OnlyStopsAgrees(before, after, closes, exact);
    SameVolumes(before, after);
  }

  /** The booked position: what is left, the next target, and the group's new figures. */
  function BookedAs(p: Position, fill: Fill, quote: real, pip: real, total: real, groupInitial: int,
                    figures: Figures): Position
    requires pip > 0.0 && WellFormed(p) && p.next < |p.clip.pips|
  {
    p.(clip := p.clip.(remaining := Left(p, CloseVolume(p), fill)), next := p.next + 1,
       pipVolume := total + PipVolume(SignedPips(p.clip.direction, p.clip.entry, PriceOf(fill, quote), pip),
                                      CloseVolume(p)),
       groupInitial := groupInitial, figures := figures,
       scaleOutBooked := p.scaleOutBooked || (p.scaleOut && p.next == 0))
  }

  /** What a close at a target earns. */
  function Money(pips: real, volume: int, rules: Rules): real {
    pips * (volume as real / rules.lotSize as real) * rules.pipValue
  }

  function BookedPnls(legs: seq<Position>): seq<real> {
    seq(|legs|, i requires 0 <= i < |legs| => legs[i].figures.bookedPnl)
  }

  function FirstPnls(legs: seq<Position>): seq<real> {
    seq(|legs|, i requires 0 <= i < |legs| => legs[i].figures.firstPnl)
  }

  function FirstPipVolumes(legs: seq<Position>): seq<real> {
    seq(|legs|, i requires 0 <= i < |legs| => legs[i].figures.firstPipVolume)
  }

  /** The first tranche's initial volume: the largest a leg carries, or what its open legs had. */
  function FirstVolume(legs: seq<Position>): int {
    if legs == [] then 0 else Max(LargestFirst(legs), Initials(legs, true))
  }

  function LargestFirst(legs: seq<Position>): int
    requires legs != []
  {
    var last := legs[|legs| - 1].figures.firstVolume;
    if |legs| == 1 then last else Max(LargestFirst(legs[..|legs| - 1]), last)
  }

  /** The group's other figures after a close at a target: its money is booked, and the first tranche
      is credited with its own. */
  function FiguresAfter(legs: seq<Position>, p: Position, pips: real, volume: int, rules: Rules): Figures
    requires legs != []
  {
    var money, first := Money(pips, volume, rules), p.tranche == 1;
    p.figures.(bookedPnl := MaxReal(BookedPnls(legs)) + money,
               firstPnl := MaxReal(FirstPnls(legs)) + if first then money else 0.0,
               firstPipVolume := MaxReal(FirstPipVolumes(legs)) + if first then PipVolume(pips, volume) else 0.0,
               firstVolume := FirstVolume(legs))
  }

  /** The close of the next target by a broker that fills it all at the quoted price. */
  function QuotedClose(p: Position, quote: real, pip: real): Close
    requires pip > 0.0 && WellFormed(p) && p.next < |p.clip.pips|
  {
    Close(p.id, p.group, CloseVolume(p), SignedPips(p.clip.direction, p.clip.entry, quote, pip))
  }

  /** Every leg of the group carries this booked money, and of it and of the pip-volume this much for
      the first tranche. */
  predicate CarriesMoney(states: map<Id, Position>, group: string, money: real, first: real, firstPips: real) {
    forall id | id in states && states[id].group == group ::
      && states[id].figures.bookedPnl == money && states[id].figures.firstPnl == first
      && states[id].figures.firstPipVolume == firstPips
  }

  function IfFirst(p: Position, x: real): real { if p.tranche == 1 then x else 0.0 }

  /** What booking a target does to the group's other figures: when the legs agree on the money they agree
      on what it has become, and the rest stays. */
  ghost predicate FiguresBooked(states: map<Id, Position>, after: map<Id, Position>, p: Position, q: Position,
                                pips: real, rules: Rules)
    requires WellFormed(p) && p.next < |p.clip.pips|
  {
    && q.figures == p.figures.(bookedPnl := q.figures.bookedPnl, firstPnl := q.figures.firstPnl,
                               firstPipVolume := q.figures.firstPipVolume, firstVolume := q.figures.firstVolume)
    && var earned, pipVolume := Money(pips, CloseVolume(p), rules), PipVolume(pips, CloseVolume(p));
       forall m, f, v :: CarriesMoney(states, p.group, m, f, v) ==>
         CarriesMoney(after, p.group, m + earned, f + IfFirst(p, earned), v + IfFirst(p, pipVolume))
  }

  /** One close took the position on to its next target; the group's legs know, and with nothing
      left it is gone. */
  ghost predicate BookedOut(states: map<Id, Position>, after: map<Id, Position>, p: Position, q: Position, c: Close,
                            exact: bool)
    requires WellFormed(p) && p.next < |p.clip.pips|
  {
    && SharedOut(states, after, q) && AdvancedTo(p, q) && 0 <= q.clip.remaining < p.clip.remaining
    && c.id == p.id && c.group == p.group && c.volume == p.clip.remaining - q.clip.remaining
    && (exact ==> c.volume == CloseVolume(p))
  }

  /** The scale-out at the first target was booked already. */
  predicate ScaledOut(p: Position) { p.scaleOut && p.next == 0 && p.scaleOutBooked }

  /** A target that books nothing: a manual position has reported it, with its stop, and the position rides
      to its last target. */
  predicate Skipped(p: Position, q: Position, placed: Placed, rules: Rules)
    requires p.next < |p.clip.pips|
  {
    var n := Ordinal(p.clip, p.next);
    && q == p.(next := |p.clip.pips| - 1, clip := p.clip.(stop := q.clip.stop),
               reached := if p.manual then p.reached + {n} else p.reached)
    && (if p.manual && n !in p.reached then TrailedFor(q, n, placed, rules) else q.clip.stop == p.clip.stop)
  }

  lemma NotMore(before: set<Id>, mid: set<Id>, after: set<Id>, id: Id)
    requires after <= mid <= before + {id} && (id in before || id !in after)
    ensures after <= before
  {
  }

  lemma ReportedThenMoved(p: Position, r: Position, q: Position, n: int, was: Placed, placed: Placed, rules: Rules)
    requires p.next < |p.clip.pips| && n == Ordinal(p.clip, p.next) && p.manual && r.reached == p.reached + {n}
    requires r == p.(reached := r.reached, clip := p.clip.(stop := r.clip.stop))
    requires q == r.(next := |p.clip.pips| - 1) && Grows(was, placed)
    requires if n in p.reached then r == p else TrailedFor(r, n, was, rules)
    ensures Skipped(p, q, placed, rules)
  {
    if n !in p.reached { TrailedStays(r, q, n, was, placed, rules); }
  }

  /** One more close was booked, as the next target of a position. */
  ghost predicate NextBooked(was: Book, now: Book, p: Position, q: Position, exact: bool, rules: Rules)
    requires WellFormed(p) && p.next < |p.clip.pips|
  {
    && now.closes != [] && now.closes[..|now.closes| - 1] == was.closes
    && BookedOut(was.states, now.states, p, q, now.closes[|now.closes| - 1], exact)
    && FiguresBooked(was.states, now.states, p, q, now.closes[|now.closes| - 1].pips, rules)
  }

  /** What booking a target leads to: one close, and then the stops behind it. `mid` is the book in
      between. A last target that left volume moves no stop. */
  ghost predicate TargetBooked(was: Book, mid: Book, now: Book, p: Position, q: Position, used: bool, threw: bool,
                               exact: bool, rules: Rules, obliging: bool)
    requires WellFormed(p) && p.next < |p.clip.pips| && rules.pip > 0.0
  {
    && NextBooked(was, mid, p, q, exact, rules) && now.closes == mid.closes
    && StopsFollow(mid, now, p, q, used, threw, exact, rules, obliging)
  }

  ghost predicate StopsFollow(mid: Book, now: Book, p: Position, q: Position, used: bool, threw: bool, exact: bool,
                              rules: Rules, obliging: bool)
    requires p.next < |p.clip.pips| && rules.pip > 0.0
  {
    q.clip.remaining <= 0 || q.next < |q.clip.pips| ==>
      StopsDone(mid, now, q, p.next, Ordinal(p.clip, p.next), used, threw, exact, rules, obliging)
  }

  lemma BookedOutFacts(was: Book, now: Book, p: Position, q: Position, exact: bool, quote: real, rules: Rules,
                       obliging: bool)
    requires WellFormed(p) && p.next < |p.clip.pips| && rules.pip > 0.0
    requires NextBooked(was, now, p, q, exact, rules)
    requires obliging ==> now.closes == was.closes + [QuotedClose(p, quote, rules.pip)]
    ensures OthersKept(was.states, now.states, p.id) && Evolves(p, q)
    ensures Shrunk(now.states, p, q) && OneClose(was.closes, now.closes, p, exact, quote, rules.pip, obliging)
  {
    SharedOthersKept(was.states, now.states, q);
  }

  lemma DoneIsNextBooked(was: Book, now: Book, p: Position, q: Position, c: Close, exact: bool, rules: Rules)
    requires WellFormed(p) && p.next < |p.clip.pips| && now.closes == was.closes + [c]
    requires BookingDone(was, now, exact, p, q, c, rules)
    ensures NextBooked(was, now, p, q, exact, rules)
  {
  }

  /** A position that lost volume, still in the book exactly when some is left. */
  predicate Shrunk(after: map<Id, Position>, p: Position, q: Position) {
    && q.id == p.id && q.group == p.group && q.clip.pips == p.clip.pips && q.clip.remaining < p.clip.remaining
    && if q.clip.remaining > 0 then q.id in after && after[q.id] == q else q.id !in after
  }

  /** Everything one booked target does to the book. */
  ghost predicate BookingDone(was: Book, now: Book, exact: bool, p: Position, q: Position, c: Close, rules: Rules)
    requires WellFormed(p) && p.next < |p.clip.pips|
  {
    && Agrees(now.states, now.closes, exact) && Covered(now.states, now.placed) && Managed(was, now)
    && (exact && Tradable(was.states, rules.minVolume) ==> Tradable(now.states, rules.minVolume))
    && BookedOut(was.states, now.states, p, q, c, exact)
    && FiguresBooked(was.states, now.states, p, q, c.pips, rules)
  }

  lemma BookingIsDone(states: map<Id, Position>, closes: seq<Close>, exact: bool, placed: Placed,
                      p: Position, fill: Fill, quote: real, rules: Rules, ids: seq<Id>, figures: Figures,
                      q: Position, c: Close)
    requires rules.pip > 0.0 && Agrees(states, closes, exact) && Covered(states, placed)
    requires Local(states, placed, p) && WellFormed(p) && p.next < |p.clip.pips|
    requires ids != [] && Lists(states, p.group, ids)
    requires Executed(p, CloseVolume(p), fill, exact) && !LeavesDust(p, rules.minVolume)
    requires c == CloseOf(p, CloseVolume(p), fill, quote, rules.pip)
    requires figures == FiguresAfter(Legs(states, ids), p, c.pips, CloseVolume(p), rules)
    requires q == BookedAs(p, fill, quote, rules.pip, GroupRealizedPipVolume(states, ids),
                           GroupInitialVolume(states, ids), figures)
    ensures BookingDone(Book(states, closes, placed),
                        Book(AfterBooking(states, q), closes + [c], Written(placed, q)), exact, p, q, c, rules)
  {
    BookingSharesOut(states, q);
    BookingManaged(states, closes, exact, placed, p, fill, quote, rules, ids, figures, q, c);
    FiguresAreBooked(states, p, q, ids, c.pips, rules);
  }

  lemma FiguresAreBooked(states: map<Id, Position>, p: Position, q: Position, ids: seq<Id>, pips: real, rules: Rules)
    requires WellFormed(p) && p.next < |p.clip.pips| && ids != [] && Lists(states, p.group, ids)
    requires p.id in states && q.id == p.id && q.group == p.group
    requires q.figures == FiguresAfter(Legs(states, ids), p, pips, CloseVolume(p), rules)
    ensures FiguresBooked(states, AfterBooking(states, q), p, q, pips, rules)
  {
    var earned, pipVolume := Money(pips, CloseVolume(p), rules), PipVolume(pips, CloseVolume(p));
    forall m, f, v | CarriesMoney(states, p.group, m, f, v)
      ensures CarriesMoney(AfterBooking(states, q), p.group, m + earned, f + IfFirst(p, earned),
                           v + IfFirst(p, pipVolume))
    {
      MoneyOfLegs(states, p.group, ids, m, f, v);
      MoneyShared(states, q, m + earned, f + IfFirst(p, earned), v + IfFirst(p, pipVolume));
    }
  }

  /** Legs that agree on the money give the group's. */
  lemma MoneyOfLegs(states: map<Id, Position>, group: string, ids: seq<Id>, m: real, f: real, v: real)
    requires ids != [] && Lists(states, group, ids) && CarriesMoney(states, group, m, f, v)
    ensures var legs := Legs(states, ids);
      MaxReal(BookedPnls(legs)) == m && MaxReal(FirstPnls(legs)) == f && MaxReal(FirstPipVolumes(legs)) == v
  {
    MaxOfEqual(BookedPnls(Legs(states, ids)), m);
    MaxOfEqual(FirstPnls(Legs(states, ids)), f);
    MaxOfEqual(FirstPipVolumes(Legs(states, ids)), v);
  }

  lemma MoneyShared(states: map<Id, Position>, q: Position, m: real, f: real, v: real)
    requires q.id in states
    requires q.figures.bookedPnl == m && q.figures.firstPnl == f && q.figures.firstPipVolume == v
    ensures CarriesMoney(AfterBooking(states, q), q.group, m, f, v)
  {
  }

  /** The position after a booked target: less volume, the next target, new group figures. */
  predicate AdvancedTo(p: Position, q: Position) {
    q == p.(clip := p.clip.(remaining := q.clip.remaining), next := p.next + 1, pipVolume := q.pipVolume,
            groupInitial := q.groupInitial, figures := q.figures, scaleOutBooked := q.scaleOutBooked)
  }

  lemma BookedAsBooks(states: map<Id, Position>, p: Position, fill: Fill, quote: real, pip: real, total: real,
                      groupInitial: int, figures: Figures)
    requires pip > 0.0 && WellFormed(p) && p.next < |p.clip.pips| && p.id in states && Fresher(states[p.id], p)
    requires 0 <= Left(p, CloseVolume(p), fill) < p.clip.remaining
    ensures BookedFrom(states[p.id], BookedAs(p, fill, quote, pip, total, groupInitial, figures),
                       CloseOf(p, CloseVolume(p), fill, quote, pip))
  {
  }

  /** The local copy after some targets were reported: reported targets and the stop changed. */
  ghost predicate Reported(before: map<Id, Position>, placedBefore: Placed, states: map<Id, Position>, placed: Placed,
                     p: Position, q: Position)
    requires p.id in before
  {
    && states.Keys == before.Keys && Covered(states, placed) && Local(states, placed, q)
    && q == p.(reached := q.reached, clip := q.clip) && Rewrites(p, q)
    && Rewrites(before[p.id], states[p.id])
    && (forall id | id in states && id != p.id :: states[id] == before[id])
    && p.reached <= q.reached && placed.lagging <= placedBefore.lagging + {p.id} && Grows(placedBefore, placed)
    && (Current(p, placedBefore) ==> Current(q, placed))
  }

  lemma RewritesTransitive(p: Position, q: Position, r: Position)
    requires Rewrites(p, q) && Rewrites(q, r)
    ensures Rewrites(p, r)
  {
  }

  lemma ReportedTransitive(a: map<Id, Position>, placedA: Placed, b: map<Id, Position>, placedB: Placed,
                           c: map<Id, Position>, placedC: Placed, p: Position, q: Position, r: Position)
    requires p.id in a && Reported(a, placedA, b, placedB, p, q) && Reported(b, placedB, c, placedC, q, r)
    ensures Reported(a, placedA, c, placedC, p, r)
  {
    RewritesTransitive(p, q, r);
    RewritesTransitive(a[p.id], b[p.id], c[p.id]);
  }

  lemma BookedStaysTradable(states: map<Id, Position>, after: map<Id, Position>, p: Position, q: Position,
                            minVolume: int)
    requires Tradable(states, minVolume) && SharedOut(states, after, q) && WellFormed(p) && p.next < |p.clip.pips|
    requires !LeavesDust(p, minVolume) && q.id == p.id
    requires q.clip.remaining == p.clip.remaining - CloseVolume(p)
    ensures Tradable(after, minVolume)
  {
    forall id | id in after ensures after[id].clip.remaining >= minVolume {
      if id != q.id { assert Shares(states[id], after[id], q); }
    }
  }

  /** Booking a close: the book agrees with the broker again, nothing is lost, and what stays
      open stays tradable. */
  lemma BookingManaged(states: map<Id, Position>, closes: seq<Close>, exact: bool, placed: Placed,
                       p: Position, fill: Fill, quote: real, rules: Rules, ids: seq<Id>, figures: Figures,
                       q: Position, c: Close)
    requires rules.pip > 0.0 && Agrees(states, closes, exact) && Covered(states, placed)
    requires Local(states, placed, p) && WellFormed(p) && p.next < |p.clip.pips| && Lists(states, p.group, ids)
    requires Executed(p, CloseVolume(p), fill, exact) && !LeavesDust(p, rules.minVolume)
    requires q == BookedAs(p, fill, quote, rules.pip, GroupRealizedPipVolume(states, ids),
                           GroupInitialVolume(states, ids), figures)
    requires c == CloseOf(p, CloseVolume(p), fill, quote, rules.pip)
    requires figures.firstVolume == FirstVolume(Legs(states, ids))
    ensures Agrees(AfterBooking(states, q), closes + [c], exact) && Covered(AfterBooking(states, q), Written(placed, q))
    ensures Managed(Book(states, closes, placed), Book(AfterBooking(states, q), closes + [c], Written(placed, q)))
    ensures exact && Tradable(states, rules.minVolume) ==> Tradable(AfterBooking(states, q), rules.minVolume)
  {
    BookedAsBooks(states, p, fill, quote, rules.pip, GroupRealizedPipVolume(states, ids),
                  GroupInitialVolume(states, ids), figures);
    BookingSharesOut(states, q);
    if exact {
      BookedTotal(states, closes, p, fill, quote, rules.pip, ids, figures, q, c);
      if Tradable(states, rules.minVolume) {
        BookedStaysTradable(states, AfterBooking(states, q), p, q, rules.minVolume);
      }
    }
    BookingKeepsVolumes(states, p.group, ids, q);
    CloseManaged(states, AfterBooking(states, q), closes, exact, placed, q, c);
  }

  lemma BookingKeepsVolumes(states: map<Id, Position>, group: string, ids: seq<Id>, q: Position)
    requires q.id in states && q.group == group && Lists(states, group, ids) && q.id in ids
    requires Evolves(states[q.id], q)
    requires q.groupInitial == GroupInitialVolume(states, ids)
    requires q.figures.firstVolume == FirstVolume(Legs(states, ids))
    ensures KeepsVolumes(states, AfterBooking(states, q))
  {
    var after := AfterBooking(states, q);
    BookingSharesOut(states, q);
    SharedKeeps(states, after, q);
    forall g, whole, first, id | CarriesVolumes(states, g, whole, first) && id in after && after[id].group == g
      ensures after[id].groupInitial == whole && after[id].figures.firstVolume == first
    {
      if g == group { OriginalVolumes(states, group, ids, whole, first); }
    }
    VolumesKept(states, after);
  }

  /** With an exact fill the booked figure grows by what the close brought in. */
  lemma BookedTotal(states: map<Id, Position>, closes: seq<Close>, p: Position, fill: Fill, quote: real, pip: real,
                    ids: seq<Id>, figures: Figures, q: Position, c: Close)
    requires pip > 0.0 && Agrees(states, closes, true) && p.id in states && Fresher(states[p.id], p)
    requires WellFormed(p) && p.next < |p.clip.pips| && Lists(states, p.group, ids)
    requires Left(p, CloseVolume(p), fill) == p.clip.remaining - CloseVolume(p)
    requires q == BookedAs(p, fill, quote, pip, GroupRealizedPipVolume(states, ids), GroupInitialVolume(states, ids),
                           figures)
    requires c == CloseOf(p, CloseVolume(p), fill, quote, pip)
    ensures q.pipVolume == GroupTotal(closes, q.group) + PipVolume(c.pips, c.volume)
  {
    assert p.id in ids;
    CarriedIsTotal(states, closes, p.group, ids);
  }

  /** A reported target, once more: the copy has its mark and its stop, everything else is as before. */
  lemma ReportedOnce(before: Book, after: Book, p: Position, q: Position, n: int, exact: bool, rules: Rules,
                     obliging: bool)
    requires Agrees(before.states, before.closes, exact) && after.closes == before.closes
    requires p.id in before.states && Reported(before.states, before.placed, after.states, after.placed, p, q)
    requires WellFormed(after.states[p.id])
    requires if n in p.reached then q == p
             else Noticed(before.states, before.placed, after.states, after.placed, p, q, n, rules, obliging)
    ensures Agrees(after.states, after.closes, exact) && Managed(before, after)
    ensures OthersKept(before.states, after.states, p.id)
    ensures Tradable(before.states, rules.minVolume) ==> Tradable(after.states, rules.minVolume)
    ensures q == p.(reached := p.reached + {n}, clip := p.clip.(stop := q.clip.stop))
    ensures n !in p.reached ==> TrailedFor(q, n, after.placed, rules)
  {
    ReportedOthersKept(before.states, before.placed, after.states, after.placed, p, q);
    ReportedManaged(before.states, after.states, before.closes, exact, before.placed, after.placed, p, q);
    if n in p.reached {
      assert p.reached + {n} == p.reached;
    } else {
      NoticedTrails(before.states, before.placed, after.states, after.placed, p, q, n, rules, obliging);
    }
  }

  lemma ReportedManaged(before: map<Id, Position>, states: map<Id, Position>, closes: seq<Close>, exact: bool,
                        placedBefore: Placed, placed: Placed, p: Position, q: Position)
    requires Agrees(before, closes, exact) && p.id in before && Reported(before, placedBefore, states, placed, p, q)
    requires WellFormed(states[p.id])
    ensures Agrees(states, closes, exact) && Managed(Book(before, closes, placedBefore), Book(states, closes, placed))
    ensures forall id | id in states :: states[id].clip.remaining == before[id].clip.remaining
  {
    forall id | id in states ensures Evolves(before[id], states[id]) {
      SelfEvolves(before[id]);
    }
    SameVolumes(before, states);
  }

  /** Over any operation on the book, what leaves it was closed in full, and what stays holds
      exactly what was not closed. */
  lemma VolumeIsConserved(was: Book, now: Book, exact: bool, id: Id)
    requires Agrees(was.states, was.closes, exact) && Managed(was, now) && id in was.states
    ensures var initial, closed := was.states[id].initial, ClosedVolume(now.closes, id);
      if id in now.states then initial == now.states[id].clip.remaining + closed else closed == initial
  {
    assert Accounted(now.states, now.closes, id) == Accounted(was.states, was.closes, id);
  }

  // ----- closes the engine did not book at a target -------------------------------------------

  /** The broker's answer to an owner's close. */
  datatype Execution = Execution(executed: int, remaining: Option<int>, price: real)

  function OwnerVolume(p: Position, e: Execution): int { if e.executed > 0 then e.executed else p.clip.remaining }

  function OwnerLeft(p: Position, e: Execution): int {
    if e.remaining.Some? then e.remaining.value else Max(0, p.clip.remaining - OwnerVolume(p, e))
  }

  function OwnerPips(p: Position, e: Execution, pip: real): real
    requires pip > 0.0
  {
    SignedPips(p.clip.direction, p.clip.entry, if e.price > 0.0 then e.price else p.clip.entry, pip)
  }

  predicate OwnerExecuted(p: Position, e: Execution, exact: bool) {
    && 0 <= OwnerLeft(p, e) <= p.clip.remaining
    && (exact ==> OwnerVolume(p, e) == p.clip.remaining - OwnerLeft(p, e))
  }

  function OwnerCloseOf(p: Position, e: Execution, pip: real): Close
    requires pip > 0.0
  {
    Close(p.id, p.group, p.clip.remaining - OwnerLeft(p, e), OwnerPips(p, e, pip))
  }

  function ClosedByOwner(p: Position, e: Execution, pip: real, total: real, groupInitial: int): Position
    requires pip > 0.0
  {
    p.(clip := p.clip.(remaining := OwnerLeft(p, e)), groupInitial := groupInitial,
       pipVolume := total + PipVolume(OwnerPips(p, e, pip), OwnerVolume(p, e)))
  }

  /** A copy taken before siblings closed: only the shared total may be out of date. */
  predicate Outdated(p: Position, current: Position) { p == current.(pipVolume := p.pipVolume) }

  lemma OwnerCloseBooks(p: Position, current: Position, e: Execution, pip: real, total: real, groupInitial: int,
                        closes: seq<Close>, exact: bool, placed: Placed)
    requires pip > 0.0 && Outdated(p, current) && AgreesOne(current, closes, exact) && CoveredOne(current, placed)
    requires OwnerExecuted(p, e, exact)
    ensures var q := ClosedByOwner(p, e, pip, total, groupInitial);
      BookedFrom(current, q, OwnerCloseOf(p, e, pip)) && CoveredOne(q, placed)
  {
  }

  lemma OwnerCloseTotal(states: map<Id, Position>, closes: seq<Close>, p: Position, e: Execution, pip: real,
                        ids: seq<Id>, groupInitial: int)
    requires pip > 0.0 && Agrees(states, closes, true) && Lists(states, p.group, ids)
    requires p.id in states && Outdated(p, states[p.id]) && OwnerExecuted(p, e, true)
    ensures var c := OwnerCloseOf(p, e, pip);
      ClosedByOwner(p, e, pip, GroupRealizedPipVolume(states, ids), groupInitial).pipVolume
        == GroupTotal(closes, p.group) + PipVolume(c.pips, c.volume)
  {
    assert p.id in ids;
    CarriedIsTotal(states, closes, p.group, ids);
  }

  /** An owner's close is booked once and right, even from an outdated copy. */
  lemma OwnerCloseManaged(states: map<Id, Position>, closes: seq<Close>, exact: bool, placed: Placed,
                          p: Position, e: Execution, pip: real, ids: seq<Id>, groupInitial: int, q: Position)
    requires pip > 0.0 && Agrees(states, closes, exact) && Covered(states, placed) && Lists(states, p.group, ids)
    requires p.id in states && Outdated(p, states[p.id]) && OwnerExecuted(p, e, exact)
    requires q == ClosedByOwner(p, e, pip, GroupRealizedPipVolume(states, ids), groupInitial)
    requires GroupInitialVolume(states, ids) > 0 ==> groupInitial == GroupInitialVolume(states, ids)
    ensures Agrees(AfterOwnerClose(states, q), closes + [OwnerCloseOf(p, e, pip)], exact)
    ensures Covered(AfterOwnerClose(states, q), Written(placed, q))
    ensures Managed(Book(states, closes, placed),
                    Book(AfterOwnerClose(states, q), closes + [OwnerCloseOf(p, e, pip)], Written(placed, q)))
  {
    OwnerCloseSharesOut(states, q);
    OwnerCloseBooks(p, states[p.id], e, pip, GroupRealizedPipVolume(states, ids), groupInitial, closes, exact, placed);
    if exact { OwnerCloseTotal(states, closes, p, e, pip, ids, groupInitial); }
    OwnerCloseKeepsVolumes(states, p.group, ids, q);
    CloseManaged(states, AfterOwnerClose(states, q), closes, exact, placed, q, OwnerCloseOf(p, e, pip));
  }

  lemma OwnerCloseKeepsVolumes(states: map<Id, Position>, group: string, ids: seq<Id>, q: Position)
    requires q.id in states && q.group == group && Lists(states, group, ids) && Evolves(states[q.id], q)
    requires GroupInitialVolume(states, ids) > 0 ==> q.groupInitial == GroupInitialVolume(states, ids)
    requires q.figures == states[q.id].figures
    ensures KeepsVolumes(states, AfterOwnerClose(states, q))
  {
    var after := AfterOwnerClose(states, q);
    OwnerCloseSharesOut(states, q);
    SharedKeeps(states, after, q);
    assert q.id in ids;
    forall g, whole, first, id | CarriesVolumes(states, g, whole, first) && id in after && after[id].group == g
      ensures after[id].groupInitial == whole && after[id].figures.firstVolume == first
    {
      if g == group { OriginalVolumes(states, group, ids, whole, first); }
    }
    VolumesKept(states, after);
  }

  /** Nothing but the shared total changes for the others. */
  predicate OthersOutdated(before: map<Id, Position>, after: map<Id, Position>, closed: Id) {
    forall id | id in before && id != closed :: id in after && Outdated(before[id], after[id])
  }

  lemma OwnerCloseOutdates(states: map<Id, Position>, q: Position)
    requires q.id in states
    ensures OthersOutdated(states, AfterOwnerClose(states, q), q.id)
  {
  }

  /** Copies taken at the start stay good for the positions still to be closed. */
  predicate StillGood(open: map<Id, Position>, states: map<Id, Position>, rest: set<Id>) {
    forall id | id in rest :: id in open && id in states && Outdated(open[id], states[id])
  }

  lemma StaysGood(open: map<Id, Position>, before: map<Id, Position>, after: map<Id, Position>, rest: set<Id>,
                  closed: Id)
    requires StillGood(open, before, rest) && OthersOutdated(before, after, closed) && closed !in rest
    ensures StillGood(open, after, rest)
  {
    forall id | id in rest ensures id in open && id in after && Outdated(open[id], after[id]) {
      assert Outdated(open[id], before[id]) && Outdated(before[id], after[id]);
    }
  }

  /** The position is gone or has been closed in part. */
  predicate ClosedSome(p: Position, states: map<Id, Position>) {
    p.id in states ==> states[p.id].clip.remaining < p.clip.remaining
  }

  /** Closing one more leaves those closed before as they are. */
  lemma StayClosed(open: map<Id, Position>, before: map<Id, Position>, after: map<Id, Position>, rest: set<Id>,
                   closed: Id)
    requires closed in open && open[closed].id == closed && ClosedSome(open[closed], after)
    requires OthersOutdated(before, after, closed) && after.Keys <= before.Keys
    requires forall id | id in open && id !in rest + {closed} :: open[id].id == id && ClosedSome(open[id], before)
    ensures forall id | id in open && id !in rest :: open[id].id == id && ClosedSome(open[id], after)
  {
  }

  /** The last volume of a position, closed at the broker behind the engine's back. */
  function VanishOf(p: Position, price: real, pip: real): Close
    requires pip > 0.0
  {
    Close(p.id, p.group, p.clip.remaining, SignedPips(p.clip.direction, p.clip.entry, price, pip))
  }

  function Vanished(p: Position, price: real, pip: real, carried: real): Position
    requires pip > 0.0
  {
    p.(clip := p.clip.(remaining := 0),
       pipVolume := carried + PipVolume(SignedPips(p.clip.direction, p.clip.entry, price, pip), p.clip.remaining))
  }

  lemma VanishManaged(states: map<Id, Position>, closes: seq<Close>, exact: bool, placed: Placed,
                      p: Position, price: real, pip: real, carried: real, q: Position)
    requires pip > 0.0 && Agrees(states, closes, exact) && Covered(states, placed)
    requires p.id in states && states[p.id] == p && q == Vanished(p, price, pip, carried)
    requires exact ==> carried == GroupTotal(closes, p.group)
    ensures var after := Synced(states - {p.id}, p.group, p.id, q.pipVolume);
      && Agrees(after, closes + [VanishOf(p, price, pip)], exact) && Covered(after, Written(placed, q))
      && Managed(Book(states, closes, placed), Book(after, closes + [VanishOf(p, price, pip)], Written(placed, q)))
  {
    VanishingSharesOut(states, q);
    assert AgreesOne(p, closes, exact) && CoveredOne(p, placed);
    SharedKeeps(states, Synced(states - {p.id}, p.group, p.id, q.pipVolume), q);
    SameVolumes(states, Synced(states - {p.id}, p.group, p.id, q.pipVolume));
    CloseManaged(states, Synced(states - {p.id}, p.group, p.id, q.pipVolume), closes, exact, placed, q,
                 VanishOf(p, price, pip));
  }

  /** The first i vanished legs are gone, and their groups' totals are carried. */
  ghost predicate PassSoFar(tracked: map<Id, Position>, before: seq<Close>, open: set<Id>, closes: seq<Close>,
                            exact: bool, vanished: seq<(Id, real)>, i: nat, carried: map<string, real>)
  {
    && (forall j | 0 <= j < |vanished| :: vanished[j].0 in tracked)
    && (forall j | 0 <= j < i && j < |vanished| :: vanished[j].0 !in open && tracked[vanished[j].0].group in carried)
    && (forall j | i <= j < |vanished| :: vanished[j].0 in open)
    && (exact ==> forall g | g in carried :: carried[g] == GroupTotal(closes, g))
    && (forall g | g !in carried :: GroupTotal(closes, g) == GroupTotal(before, g))
  }

  lemma PassOn(tracked: map<Id, Position>, before: seq<Close>, open: set<Id>, closes: seq<Close>, exact: bool,
               vanished: seq<(Id, real)>, i: nat, carried: map<string, real>, c: Close, total: real)
    requires PassSoFar(tracked, before, open, closes, exact, vanished, i, carried) && i < |vanished|
    requires forall j, k | 0 <= j < k < |vanished| :: vanished[j].0 != vanished[k].0
    requires c.group == tracked[vanished[i].0].group && (exact ==> total == GroupTotal(closes + [c], c.group))
    ensures PassSoFar(tracked, before, open - {vanished[i].0}, closes + [c], exact, vanished,
                      i + 1, carried[c.group := total])
  {
    LogOne(closes, c);
    forall j | i < j < |vanished| ensures vanished[j].0 != vanished[i].0 {
    }
  }

  // ----- stops at the broker --------------------------------------------------------------------

  /** No position reports a target it does not book. */
  ghost predicate Quiet(states: map<Id, Position>, q: Quote) {
    forall id | id in states :: !NoticeDue(states[id], SelectedOrdinals(states, states[id].group), q)
  }

  lemma NoticeKept(p: Position, r: Position, selected: set<int>, q: Quote)
    requires Evolves(p, r)
    ensures NoticeDue(p, selected, q) <==> NoticeDue(r, selected, q)
  {
    assert forall ordinal :: Passed(p, selected, q, ordinal) <==> Passed(r, selected, q, ordinal);
  }

  /** An amendment takes protection away exactly when the position lags and the planned stop is
      looser than the one at the broker: the engine compares with the stop it remembers. */
  lemma LoosensExactlyWhenLagging(p: Position, stop: real, placed: Placed, reported: bool)
    requires CoveredOne(p, placed) && !Holds(p.clip, stop)
    ensures Loosens(AmendmentOf(p, stop, placed, reported)) <==>
      p.id in placed.lagging && Better(p.clip.direction, placed.stops[p.id], stop)
  {
  }

  /** A protection at `stop` takes the position's stop back: the engine asks for it, because the
      stop it remembers is no better, but the one at the broker is. */
  predicate TakesBack(p: Position, stop: real, placed: Placed)
    requires p.id in placed.stops
  {
    !Holds(p.clip, stop) && Better(p.clip.direction, placed.stops[p.id], stop)
  }

  /** Granted, it is on the log as an amendment that loosens. */
  lemma TakenBackIsOnTheLog(p: Position, q: Position, stop: real, was: Placed, placed: Placed)
    requires Asked(p, q, stop, was, placed, true) && p.id in was.stops && TakesBack(p, stop, was)
    ensures Entered(was, placed, AmendmentOf(p, stop, was, false)) && Loosens(AmendmentOf(p, stop, was, false))
  {
  }

  /** What a reported target wants: the price of its trail target, rounded, if it is an improvement. */
  lemma NoticeIsLockedPrice(p: Position, ordinal: int, rules: Rules)
    requires ordinal >= 2
    ensures var locked := LockedPrice(p.clip, TrailOrdinal(ordinal), rules.pip);
      NoticeMove(p, ordinal, rules)
        == if locked.None? || Holds(p.clip, RoundToTick(locked.value, TickSize(rules.digits))) then None
           else Some(RoundToTick(locked.value, TickSize(rules.digits)))
  {
  }

  /** After a target from the second on was reported and its stop granted, a later protection takes
      that stop back, be it at the shallow fill or at the group's even price, if and only if the
      stop the book remembers does not hold the protection's and the rounded price of the trail
      target lies beyond it. */
  lemma ReportIsTakenBackExactly(before: map<Id, Position>, was: Placed, states: map<Id, Position>, placed: Placed,
                                 p: Position, q: Position, ordinal: int, rules: Rules, stop: real)
    requires ordinal >= 2 && Current(p, was) && Noticed(before, was, states, placed, p, q, ordinal, rules, true)
    ensures p.id in states && states[p.id].id == p.id && p.id in placed.stops
    ensures var locked := LockedPrice(p.clip, TrailOrdinal(ordinal), rules.pip);
      TakesBack(states[p.id], stop, placed) <==>
        && !Holds(p.clip, stop) && locked.Some?
        && MovesTowardProfit(p.clip.direction, stop, RoundToTick(locked.value, TickSize(rules.digits)))
  {
    NoticeIsLockedPrice(p, ordinal, rules);
  }

  /** The same, read off the log of any run: a recorded amendment loosens only if it was planned
      from another stop than the broker's, which takes an earlier report. */
  lemma LoosensOnlyAfterReport(log: seq<Amendment>, k: nat)
    requires InOrder(log) && k < |log| && Loosens(log[k])
    ensures Behind(log[k]) && ReportedIn(log[..k], log[k].id)
  {
    EachFollows(log, k);
  }

  lemma {:induction false} LastStopFound(log: seq<Amendment>, i: nat) returns (j: nat)
    requires i < |log|
    ensures i <= j < |log| && log[j].id == log[i].id && LastStop(log, log[i].id) == Some(log[j].stop)
    ensures forall k | j < k < |log| :: log[k].id != log[i].id
  {
    var front := log[..|log| - 1];
    if log[|log| - 1].id == log[i].id {
      j := |log| - 1;
    } else {
      j := LastStopFound(front, i);
    }
  }

  /** None of the amendments of a position from i on to j was planned from another stop than the
      broker's. */
  predicate UpToDate(log: seq<Amendment>, id: Id, i: nat, j: nat)
    requires j < |log|
  {
    forall k | i < k <= j && log[k].id == id :: !Behind(log[k])
  }

  /** In every run, of all the stops the broker accepts for a position each is at least as
      protective as any before it, as long as the engine plans from the stop at the broker. */
  lemma {:induction false} BrokerStopsRatchet(log: seq<Amendment>, i: nat, j: nat)
    requires InOrder(log) && i <= j < |log| && log[i].id == log[j].id && UpToDate(log, log[i].id, i, j)
    ensures AtLeast(log[i].direction, log[j].stop, log[i].stop) && log[j].direction == log[i].direction
    decreases j
  {
    if i < j {
      EachFollows(log, j);
      var h := LastStopFound(log[..j], i);
      BrokerStopsRatchet(log, i, h);
    }
  }

  /** Without a report the broker's stops ratchet over the whole run. */
  lemma NoReportNoLoosening(log: seq<Amendment>, i: nat, j: nat)
    requires InOrder(log) && i <= j < |log| && log[i].id == log[j].id && !ReportedIn(log[..j], log[i].id)
    ensures AtLeast(log[i].direction, log[j].stop, log[i].stop)
  {
    forall k | i < k <= j && log[k].id == log[i].id ensures !Behind(log[k]) {
      EachFollows(log, k);
      ReportedWithin(log, k, j, log[i].id);
    }
    BrokerStopsRatchet(log, i, j);
  }

  // ----- what a quote must have led to ------------------------------------------------------------

  predicate SameTargets(p: Position, q: Position) { q.next == p.next && q.scaleOutBooked == p.scaleOutBooked }

  /** Other positions stay, with the targets they had. */
  predicate OthersKept(before: map<Id, Position>, after: map<Id, Position>, id: Id) {
    forall other | other in before && other != id :: other in after && SameTargets(before[other], after[other])
  }

  lemma OthersKeptTransitive(a: map<Id, Position>, b: map<Id, Position>, c: map<Id, Position>, id: Id)
    requires OthersKept(a, b, id) && OthersKept(b, c, id)
    ensures OthersKept(a, c, id)
  {
  }

  lemma SharedOthersKept(states: map<Id, Position>, after: map<Id, Position>, q: Position)
    requires SharedOut(states, after, q)
    ensures OthersKept(states, after, q.id)
  {
    forall other | other in states && other != q.id ensures other in after && SameTargets(states[other], after[other]) {
      assert Shares(states[other], after[other], q);
    }
  }

  /** The quote has nothing more to book for this position. */
  predicate Settled(p: Position, q: Quote, pip: real) {
    p.next >= |p.clip.pips| || Stale(p, q) || !Hit(p, q, pip)
  }

  lemma SettledKept(p: Position, r: Position, q: Quote, pip: real)
    requires Evolves(p, r) && p.next == r.next
    ensures Settled(p, q, pip) <==> Settled(r, q, pip)
  {
  }

  /** The quote reaches the next target, and it can be closed. */
  predicate Bookable(p: Position, q: Quote, rules: Rules)
    requires WellFormed(p) && p.next < |p.clip.pips|
  {
    && !ScaledOut(p)
    && !Stale(p, q) && Hit(p, q, rules.pip) && !LeavesDust(p, rules.minVolume)
  }

  /** The price a target is booked at is the one that later stops lock for it: its own absolute price,
      or the group's price with its number, or else its pips from the entry. */
  lemma BooksWhatStopsLock(p: Position, row: nat, pip: real)
    requires row < |p.clip.pips| && p.rangeExit.None?
    requires IsRow(p.clip, Ordinal(p.clip, row), row) && Ordinal(p.clip, row) >= 1
    requires p.clip.prices.Some? && |p.clip.prices.value| != |p.clip.pips| ==>
               Ordinal(p.clip, row) <= |p.clip.prices.value|
    ensures LockedPrice(p.clip, Ordinal(p.clip, row), pip) == Some(TargetPrice(p, row, pip))
  {
  }

  /** The price lies on the side of the target a seller of it would want: a buy is left at or above, a
      sell at or below, or less than 0.1 above a whole price. */
  predicate Reaches(d: Direction, price: real, target: real) {
    match d
    case Buy => price >= target
    case Sell => price <= target || (target.Floor as real == target && price < target + 0.1)
  }

  /** A target is booked only at a quote on the right side that reaches its price, and left at that
      quote it earns what the target promises, a sell at a whole price up to 0.1 less. */
  lemma BookedTargetsPay(p: Position, q: Quote, rules: Rules)
    requires WellFormed(p) && p.next < |p.clip.pips| && rules.pip > 0.0 && Bookable(p, q, rules)
    ensures Reaches(p.clip.direction, if p.clip.direction == Buy then q.bid else q.ask,
                    TargetPrice(p, p.next, rules.pip))
    ensures var exit, price := ExitQuote(p.clip.direction, q), TargetPrice(p, p.next, rules.pip);
      && QuotedClose(p, exit, rules.pip).pips * rules.pip
         >= Gain(p.clip.direction, p.clip.entry, price) - (if p.clip.direction == Sell then 0.1 else 0.0)
      && (p.clip.direction == Buy || price.Floor as real != price ==>
            QuotedClose(p, exit, rules.pip).pips * rules.pip >= Gain(p.clip.direction, p.clip.entry, price))
  {
    RealDivMul(Gain(p.clip.direction, p.clip.entry, ExitQuote(p.clip.direction, q)), rules.pip);
  }

  /** Exactly one close was executed: the volume of the target, when fills are exact, and at the quote,
      when the broker grants what it is asked. */
  predicate OneClose(before: seq<Close>, closes: seq<Close>, p: Position, exact: bool, quote: real, pip: real,
                     obliging: bool)
    requires WellFormed(p) && p.next < |p.clip.pips| && pip > 0.0
  {
    && closes != [] && closes[..|closes| - 1] == before
    && var c := closes[|closes| - 1];
       && c.id == p.id && c.group == p.group && (exact ==> c.volume == CloseVolume(p))
       && (obliging ==> c == QuotedClose(p, quote, pip))
  }

  /** A stop is in place, or the broker was asked for it. */
  predicate InPlaceOrAsked(p: Position, stop: real, placed: Placed) {
    Holds(p.clip, stop) || (p.id, stop) in placed.requests
  }

  lemma NoManualGroup(states: map<Id, Position>, group: string)
    ensures NoManual(states, group) ==> !ManualGroup(states, group)
  {
  }

  predicate NoManual(states: map<Id, Position>, group: string) {
    forall id | id in states && states[id].group == group :: !states[id].manual
  }

  /** Every leg of the group has its breakeven stop, or the broker was asked for it. */
  predicate BreakevenAsked(states: map<Id, Position>, group: string, placed: Placed, rules: Rules) {
    forall id | id in states && states[id].group == group ::
      InPlaceOrAsked(states[id],
        ProtectedBreakevenStop(states[id].clip.direction, states[id].clip.entry, rules.digits, rules.bufferTicks),
        placed)
  }

  lemma AllBreakevenAsked(before: map<Id, Position>, after: map<Id, Position>, group: string, ids: seq<Id>,
                          was: Placed, placed: Placed, rules: Rules, obliging: bool)
    requires Lists(before, group, ids) && OnlyStops(before, after)
    requires forall id | id in before :: before[id].id == id
    requires forall i | 0 <= i < |ids| :: Asked(before[ids[i]], after[ids[i]], BreakevenStops(before, ids, rules)[i],
                                                was, placed, obliging)
    ensures BreakevenAsked(after, group, placed, rules)
  {
    forall id | id in after && after[id].group == group
      ensures InPlaceOrAsked(after[id],
        ProtectedBreakevenStop(after[id].clip.direction, after[id].clip.entry, rules.digits, rules.bufferTicks), placed)
    {
      var i :| 0 <= i < |ids| && ids[i] == id;
      assert Asked(before[ids[i]], after[ids[i]], BreakevenStops(before, ids, rules)[i], was, placed, obliging);
    }
  }

  /** Some open leg of the group is one of several manual ones. */
  predicate ManualGroup(states: map<Id, Position>, group: string) {
    exists id | id in states :: states[id].group == group && states[id].manual && states[id].trancheCount > 1
  }

  lemma ManualByListing(states: map<Id, Position>, group: string, ids: seq<Id>)
    requires Lists(states, group, ids)
    ensures ManualMultiLeg(states, ids) <==> ManualGroup(states, group)
  {
    if id :| id in states && states[id].group == group && states[id].manual && states[id].trancheCount > 1 {
      assert id in ids;
      var i :| 0 <= i < |ids| && ids[i] == id;
    }
  }

  /** A manual group has manual legs. */
  lemma ManualLegsThere(states: map<Id, Position>, ids: seq<Id>, completed: Position)
    requires forall i | 0 <= i < |ids| :: ids[i] in states
    ensures ManualMultiLeg(states, ids) ==> GroupLegs(states, ids, completed) != []
  {
    if i :| 0 <= i < |ids| && states[ids[i]].manual && states[ids[i]].trancheCount > 1 {
      var legs := Legs(states, ids) + if completed.id in ids then [] else [completed];
      assert legs[i] == states[ids[i]];
      assert states[ids[i]] in ManualLegs(legs);
    }
  }

  /** Every leg of a manual group was asked for the group's one stop, and when they all hold it the buffer
      is locked on the whole group; a refused plan moves nothing. */
  ghost predicate GroupStopAsked(before: Book, after: Book, group: string, threw: bool, exact: bool, rules: Rules,
                                 obliging: bool)
    requires rules.pip > 0.0 && after.states.Keys == before.states.Keys
  {
    exists ids | Lists(before.states, group, ids) ::
      var plan := GroupMove(before.states, ids, rules);
      && (threw <==> plan.Refused?)
      && (!threw ==>
            && GroupAsked(before.states, after.states, ids, plan.move, before.placed, after.placed, obliging)
            && (exact && ids != [] && GroupHolds(after.states, ids, plan.move) ==>
                  LocksTheWhole(before.states, after.closes, group, Clips(after.states, ids), rules)))
  }

  lemma GroupStopWasAsked(before: Book, after: Book, group: string, ids: seq<Id>, move: Option<real>, threw: bool,
                          exact: bool, rules: Rules, obliging: bool)
    requires rules.pip > 0.0 && after.states.Keys == before.states.Keys && Lists(before.states, group, ids)
    requires threw <==> GroupMove(before.states, ids, rules).Refused?
    requires !threw ==>
               && GroupMove(before.states, ids, rules) == Planned(move)
               && GroupAsked(before.states, after.states, ids, move, before.placed, after.placed, obliging)
    requires exact && !threw && ids != [] && GroupHolds(after.states, ids, move) ==>
               LocksTheWhole(before.states, after.closes, group, Clips(after.states, ids), rules)
    ensures GroupStopAsked(before, after, group, threw, exact, rules, obliging)
  {
  }

  /** Every leg of a manual group was asked for the shallow fill. */
  ghost predicate ShallowAsked(before: Book, after: Book, completed: Position, obliging: bool)
    requires after.states.Keys == before.states.Keys
  {
    exists ids | Lists(before.states, completed.group, ids) && GroupLegs(before.states, ids, completed) != [] ::
      forall i | 0 <= i < |ids| ::
        Asked(before.states[ids[i]], after.states[ids[i]], ShallowEntry(GroupLegs(before.states, ids, completed)),
              before.placed, after.placed, obliging)
  }

  /** What a booked target does to the stops of its group: after the first target a manual group gets one
      stop and every leg of any other its own breakeven; after the second a manual group gets the
      shallow fill; no other target touches the group. */
  ghost predicate GroupProtected(before: Book, after: Book, completed: Position, n: int, used: bool, threw: bool,
                                 exact: bool, rules: Rules, obliging: bool)
    requires rules.pip > 0.0
  {
    && after.states.Keys == before.states.Keys
    && (used <==> (n == 1 || n == 2) && ManualGroup(before.states, completed.group))
    && (threw ==> used && n == 1)
    && (used && n == 1 ==> GroupStopAsked(before, after, completed.group, threw, exact, rules, obliging))
    && (used && n == 2 ==> ShallowAsked(before, after, completed, obliging))
    && (!used && n == 1 ==> BreakevenAsked(after.states, completed.group, after.placed, rules))
    && (!used && n != 1 ==> after.states == before.states && after.placed == before.placed)
  }

  /** What follows a booked target: the group is protected, or this position's own stop trails, and after
      the first target so do the others'. */
  ghost predicate StopsDone(before: Book, after: Book, p: Position, row: nat, n: int, used: bool, threw: bool,
                            exact: bool, rules: Rules, obliging: bool)
    requires rules.pip > 0.0
  {
    && (used <==> (n == 1 || n == 2) && ManualGroup(before.states, p.group))
    && (used ==> GroupProtected(before, after, p, n, used, threw, exact, rules, obliging))
    && (!used ==> !threw && (n == 1 ==> BreakevenAsked(after.states, p.group, after.placed, rules))
                  && (p.id in after.states ==> Trailed(after.states[p.id], row, after.placed, rules)))
  }

  /** A position that is gone has no stop of its own to trail. */
  lemma GoneIsDone(before: Book, after: Book, p: Position, row: nat, n: int, used: bool, threw: bool, exact: bool,
                   rules: Rules, obliging: bool)
    requires rules.pip > 0.0 && GroupProtected(before, after, p, n, used, threw, exact, rules, obliging)
    requires p.id !in after.states
    ensures StopsDone(before, after, p, row, n, used, threw, exact, rules, obliging)
  {
  }

  /** The position's own stop trailed after the group was looked at. */
  lemma TrailedIsDone(before: Book, mid: Book, after: Book, p: Position, row: nat, n: int, r: Position, q: Position,
                      exact: bool, rules: Rules, obliging: bool)
    requires rules.pip > 0.0 && GroupProtected(before, mid, p, n, false, false, exact, rules, obliging)
    requires p.id in mid.states && mid.states[p.id] == r && r.id == p.id && q.id == p.id
    requires after.states == mid.states[p.id := q] && Trailed(q, row, after.placed, rules)
    requires q == r.(clip := r.clip.(stop := q.clip.stop)) && StopKept(r.clip.direction, r.clip.stop, q.clip.stop)
    requires Grows(mid.placed, after.placed)
    ensures StopsDone(before, after, p, row, n, false, false, exact, rules, obliging)
  {
    if n == 1 { BreakevenStays(mid.states, p.group, mid.placed, after.placed, rules, r, q); }
  }

  /** Another stop of one position that is no worse keeps the breakevens. */
  lemma BreakevenStays(states: map<Id, Position>, group: string, was: Placed, placed: Placed, rules: Rules, p: Position,
                       q: Position)
    requires BreakevenAsked(states, group, was, rules) && p.id in states && states[p.id] == p && q.id == p.id
    requires q == p.(clip := p.clip.(stop := q.clip.stop)) && StopKept(p.clip.direction, p.clip.stop, q.clip.stop)
    requires Grows(was, placed)
    ensures BreakevenAsked(states[p.id := q], group, placed, rules)
  {
  }

  /** The stop a target with this number calls for is in place, or the broker was asked for it. */
  predicate TrailedFor(p: Position, n: int, placed: Placed, rules: Rules) {
    var wanted := Desired(p.clip, n, rules.digits, rules.pip, rules.bufferTicks);
    wanted.Planned? && (wanted.move.Some? ==>
                        InPlaceOrAsked(p, RoundToTick(wanted.move.value, TickSize(rules.digits)), placed))
  }

  /** After any target but the last one, the stop it calls for. */
  predicate Trailed(p: Position, row: nat, placed: Placed, rules: Rules) {
    row < |p.clip.pips| - 1 ==> TrailedFor(p, Ordinal(p.clip, row), placed, rules)
  }

  /** Stops only improve, and the broker stays asked. */
  lemma TrailedStays(p: Position, q: Position, n: int, was: Placed, placed: Placed, rules: Rules)
    requires TrailedFor(p, n, was, rules) && q.id == p.id && Grows(was, placed)
    requires q.clip == p.clip.(stop := q.clip.stop) && StopKept(p.clip.direction, p.clip.stop, q.clip.stop)
    ensures TrailedFor(q, n, placed, rules)
  {
    DesiredIgnoresStop(p.clip, q.clip.stop, n, rules.digits, rules.pip, rules.bufferTicks);
  }

  /** After a reported target the stop it calls for is in place or was asked for. */
  lemma NoticedTrails(before: map<Id, Position>, was: Placed, states: map<Id, Position>, placed: Placed, p: Position,
                      q: Position, n: int, rules: Rules, obliging: bool)
    requires Noticed(before, was, states, placed, p, q, n, rules, obliging)
    ensures TrailedFor(q, n, placed, rules) && n in q.reached
  {
    DesiredIgnoresStop(p.clip, q.clip.stop, n, rules.digits, rules.pip, rules.bufferTicks);
    assert q.clip == p.clip.(stop := q.clip.stop);
  }

  /** Every target below this number that is passed has been reported, the new ones with their stops. */
  ghost predicate AllNoticed(p: Position, q: Position, selected: set<int>, quote: Quote, n: int, placed: Placed,
                             rules: Rules)
  {
    && (forall o | 1 <= o < n && Passed(p, selected, quote, o) ::
          o in q.reached && (o !in p.reached ==> TrailedFor(q, o, placed, rules)))
    && (forall o | o in q.reached :: o in p.reached || (1 <= o < n && Passed(p, selected, quote, o)))
  }

  /** The position has a price list and target numbers, and the quote is new to it. */
  predicate Speaks(p: Position, quote: Quote) {
    p.clip.prices.Some? && p.clip.ordinals.Some? && p.clip.ordinals.value != [] && !Stale(p, quote)
  }

  /** Not the last target that is booked, nor any after it. */
  predicate BelowLast(p: Position, selected: set<int>, n: int) {
    exists last :: last in Chosen(p, selected) && n < last
  }

  /** Exactly the passed targets below the last booked one have been reported, the new ones with their
      stops. */
  ghost predicate AllReported(p: Position, q: Position, selected: set<int>, quote: Quote, placed: Placed,
                              rules: Rules)
  {
    && (forall o | Speaks(p, quote) && Passed(p, selected, quote, o) && BelowLast(p, selected, o) ::
          o in q.reached && (o !in p.reached ==> TrailedFor(q, o, placed, rules)))
    && (forall o | o in q.reached ::
          o in p.reached || (Speaks(p, quote) && Passed(p, selected, quote, o) && BelowLast(p, selected, o)))
  }

  /** A manual position has reported every target it should at this quote. */
  ghost predicate PassedReported(p: Position, reached: set<int>, selected: set<int>, quote: Quote) {
    forall o | p.manual && Speaks(p, quote) && Passed(p, selected, quote, o) && BelowLast(p, selected, o) ::
      o in reached
  }

  /** Passed targets do not depend on what managing a position changes. */
  lemma PassedKept(p: Position, r: Position, selected: set<int>, quote: Quote, reached: set<int>)
    requires Evolves(p, r) && PassedReported(r, reached, selected, quote)
    ensures PassedReported(p, reached, selected, quote)
  {
    forall o | p.manual && Speaks(p, quote) && Passed(p, selected, quote, o) && BelowLast(p, selected, o)
      ensures o in reached
    {
      assert Chosen(p, selected) == Chosen(r, selected);
      assert Passed(r, selected, quote, o) && BelowLast(r, selected, o);
    }
  }

  /** Positions that were manual at the start, apart from some, have reported what they should. */
  ghost predicate Heard(start: map<Id, Position>, states: map<Id, Position>, rest: set<Id>, quote: Quote)
    requires states.Keys <= start.Keys
  {
    forall id | id in states && id !in rest ::
      PassedReported(start[id], states[id].reached, SelectedOrdinals(start, start[id].group), quote)
  }

  lemma HeardOneMore(start: map<Id, Position>, before: map<Id, Position>, after: map<Id, Position>, rest: set<Id>,
                     id: Id, quote: Quote)
    requires Kept(start, before) && Kept(before, after) && after.Keys <= start.Keys && id in before
    requires Heard(start, before, rest + {id}, quote)
    requires id in after ==>
               PassedReported(before[id], after[id].reached, SelectedOrdinals(start, before[id].group), quote)
    ensures Heard(start, after, rest, quote)
  {
    forall other | other in after && other !in rest
      ensures PassedReported(start[other], after[other].reached, SelectedOrdinals(start, start[other].group), quote)
    {
      assert Evolves(start[other], before[other]) && Evolves(before[other], after[other]);
      if other == id {
        PassedKept(start[id], before[id], SelectedOrdinals(start, start[id].group), quote, after[id].reached);
      }
    }
  }

  /** What one more processed position does to what was promised of the others. */
  lemma OneMoreProcessed(start: map<Id, Position>, before: Book, after: Book, rest: set<Id>, id: Id, quote: Quote,
                         pip: real, threw: bool)
    requires Kept(start, before.states) && Kept(before.states, after.states) && id in before.states
    requires OthersKept(before.states, after.states, id)
    requires !threw ==> id !in after.states || Settled(after.states[id], quote, pip)
    requires id in after.states ==>
               PassedReported(before.states[id], after.states[id].reached,
                              SelectedOrdinals(start, before.states[id].group), quote)
    ensures Kept(start, after.states) && after.states.Keys >= before.states.Keys - {id}
    ensures !threw && AllSettled(before.states, rest + {id}, quote, pip) ==> AllSettled(after.states, rest, quote, pip)
    ensures Heard(start, before.states, rest + {id}, quote) ==> Heard(start, after.states, rest, quote)
  {
    StillSettled(before.states, after.states, rest + {id}, id, quote, pip);
    KeptTransitive(start, before.states, after.states);
    if Heard(start, before.states, rest + {id}, quote) {
      HeardOneMore(start, before.states, after.states, rest, id, quote);
    }
  }

  /** Positions apart from some have nothing left to book. */
  predicate AllSettled(states: map<Id, Position>, rest: set<Id>, quote: Quote, pip: real) {
    forall id | id in states && id !in rest :: Settled(states[id], quote, pip)
  }

  lemma UpToLast(p: Position, q: Position, selected: set<int>, quote: Quote, last: int, placed: Placed, rules: Rules)
    requires AllNoticed(p, q, selected, quote, Max(1, last), placed, rules) && Speaks(p, quote)
    requires last in Chosen(p, selected) && forall x | x in Chosen(p, selected) :: x <= last
    ensures AllReported(p, q, selected, quote, placed, rules)
  {
  }

  lemma AllNoticedStep(p: Position, copy: Position, q: Position, selected: set<int>, quote: Quote, n: int, was: Placed,
                       placed: Placed, rules: Rules)
    requires 1 <= n && AllNoticed(p, copy, selected, quote, n, was, rules) && Grows(was, placed)
    requires q.id == copy.id && q.clip == copy.clip.(stop := q.clip.stop)
    requires StopKept(copy.clip.direction, copy.clip.stop, q.clip.stop)
    requires if Passed(p, selected, quote, n) && n !in copy.reached
             then q.reached == copy.reached + {n} && TrailedFor(q, n, placed, rules)
             else q.reached == copy.reached
    ensures AllNoticed(p, q, selected, quote, n + 1, placed, rules)
  {
    forall o | 1 <= o < n + 1 && Passed(p, selected, quote, o)
      ensures o in q.reached && (o !in p.reached ==> TrailedFor(q, o, placed, rules))
    {
      if o < n && o !in p.reached { TrailedStays(copy, q, o, was, placed, rules); }
    }
  }

  lemma StopMoveTrails(p: Position, q: Position, row: nat, placed: Placed, rules: Rules)
    requires var plan := Plan(p.clip, row, rules.digits, rules.pip, rules.bufferTicks);
      && plan.Planned? && (plan.move.None? ==> q == p)
      && (plan.move.Some? ==>
            (p.id, plan.move.value) in placed.requests && (q == p || q == Moved(p, plan.move.value)))
    ensures Trailed(q, row, placed, rules)
  {
    DesiredIgnoresStop(p.clip, q.clip.stop, Ordinal(p.clip, row), rules.digits, rules.pip, rules.bufferTicks);
    assert q.clip == p.clip.(stop := q.clip.stop);
  }

  lemma OnlyStopsOthersKept(before: map<Id, Position>, after: map<Id, Position>, id: Id)
    requires OnlyStops(before, after)
    ensures OthersKept(before, after, id)
  {
  }

  lemma ReportedOthersKept(before: map<Id, Position>, placedBefore: Placed, states: map<Id, Position>, placed: Placed,
                           p: Position, q: Position)
    requires p.id in before && Reported(before, placedBefore, states, placed, p, q)
    ensures OthersKept(before, states, p.id)
  {
  }

  lemma StillSettled(before: map<Id, Position>, after: map<Id, Position>, rest: set<Id>, id: Id, q: Quote, pip: real)
    requires Kept(before, after) && OthersKept(before, after, id) && id in rest
    ensures (forall other | other in before && other !in rest :: Settled(before[other], q, pip)) ==>
      forall other | other in after && other !in rest :: Settled(after[other], q, pip)
  {
    forall other | other in after && other !in rest
      ensures Settled(before[other], q, pip) <==> Settled(after[other], q, pip)
    {
      SettledKept(before[other], after[other], q, pip);
    }
  }
}
