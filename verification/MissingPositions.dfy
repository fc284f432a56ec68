/** Positions the broker no longer shows: when the engine gives up on one. */
module MissingPositions {
  import opened Common
  import opened Arith
  import opened Positions

  datatype MissingRecord = MissingRecord(confirmations: nat, firstMissingAt: int, lastCheckedAt: int)

  /** `confirmations` snapshots `recheck` seconds apart have to miss a position. */
  datatype Patience = Patience(confirmations: nat, recheck: int)

  const CLOSE_HISTORY_RETRY_SECONDS := 60
  const CLOSE_HISTORY_MAX_WAIT_SECONDS := 30

  /** What one snapshot says about a position: whether it is there, the price of its closing
      deal when the history has one, and the last stop the engine knows. */
  datatype Sight = Sight(at: int, present: bool, deal: Option<real>, stop: Option<real>)

  datatype Verdict = Keep(record: Option<MissingRecord>) | Drop(price: real)

  function Confirmations(r: Option<MissingRecord>): nat { if r.Some? then r.value.confirmations else 0 }

  /** Seconds between two counted checks once `confirmed` have been counted. */
  function Spacing(confirmed: nat, rules: Patience): int {
    if confirmed >= rules.confirmations then CLOSE_HISTORY_RETRY_SECONDS else rules.recheck
  }

  predicate Due(r: Option<MissingRecord>, now: int, rules: Patience) {
    r.None? || now - r.value.lastCheckedAt >= Spacing(r.value.confirmations, rules)
  }

  function MissingSince(r: Option<MissingRecord>, now: int): int { if r.Some? then r.value.firstMissingAt else now }

  /** The price a missing position closed at: the deal's, or after a wait its last stop. */
  function ClosePrice(r: Option<MissingRecord>, s: Sight): Option<real> {
    if s.deal.Some? then s.deal
    else if s.at - MissingSince(r, s.at) >= CLOSE_HISTORY_MAX_WAIT_SECONDS && s.stop.Some? && s.stop.value > 0.0
        then s.stop
    else None
  }

  function Step(r: Option<MissingRecord>, s: Sight, rules: Patience): Verdict {
    if s.present then Keep(None)
    else if !Due(r, s.at, rules) then Keep(r)
    else
      var counted := Some(MissingRecord(Confirmations(r) + 1, MissingSince(r, s.at), s.at));
      if Confirmations(r) + 1 < rules.confirmations || ClosePrice(r, s).None? then Keep(counted)
      else Drop(ClosePrice(r, s).value)
  }

  // ----- runs ---------------------------------------------------------------------------

  /** A position through a series of snapshots, still tracked after all of them. */
  ghost predicate Run(records: seq<Option<MissingRecord>>, sights: seq<Sight>, rules: Patience) {
    && |records| == |sights| + 1 && records[0] == None
    && forall k | 0 <= k < |sights| :: KeptAt(records, sights, rules, k)
  }

  predicate KeptAt(records: seq<Option<MissingRecord>>, sights: seq<Sight>, rules: Patience, k: nat)
    requires k < |sights| && k + 1 < |records|
  {
    Step(records[k], sights[k], rules) == Keep(records[k + 1])
  }

  /** The snapshots since it was last seen that counted as a check, among the first n. */
  function Marks(records: seq<Option<MissingRecord>>, sights: seq<Sight>, rules: Patience, n: nat): (m: seq<nat>)
    requires |records| == |sights| + 1 && n <= |sights|
    ensures forall i | 0 <= i < |m| :: m[i] < n
  {
    if n == 0 || sights[n - 1].present then []
    else Marks(records, sights, rules, n - 1) + if Due(records[n - 1], sights[n - 1].at, rules) then [n - 1] else []
  }

  /** Checks at snapshots m, in order and spaced, with the position absent from the first check
      to snapshot n. */
  ghost predicate SpacedAbsence(sights: seq<Sight>, m: seq<nat>, n: nat, rules: Patience)
    requires n <= |sights|
  {
    && (forall i | 0 <= i < |m| :: m[i] < n)
    && (forall i, j | 0 <= i < j < |m| && j == i + 1 ::
          m[i] < m[j] && sights[m[j]].at - sights[m[i]].at >= Spacing(j, rules))
    && (m != [] ==> forall k | m[0] <= k < n :: !sights[k].present)
  }

  predicate RecordOf(r: Option<MissingRecord>, sights: seq<Sight>, m: seq<nat>)
    requires forall i | 0 <= i < |m| :: m[i] < |sights|
  {
    if m == [] then r.None?
    else r == Some(MissingRecord(|m|, sights[m[0]].at, sights[m[|m| - 1]].at))
  }

  /** One more counted check. */
  lemma CountCheck(r: Option<MissingRecord>, sights: seq<Sight>, m: seq<nat>, n: nat, rules: Patience)
    requires n < |sights| && SpacedAbsence(sights, m, n, rules) && RecordOf(r, sights, m)
    requires !sights[n].present && Due(r, sights[n].at, rules)
    ensures SpacedAbsence(sights, m + [n], n + 1, rules)
    ensures RecordOf(Some(MissingRecord(Confirmations(r) + 1, MissingSince(r, sights[n].at), sights[n].at)),
                     sights, m + [n])
  {
    var longer := m + [n];
    forall i, j | 0 <= i < j < |longer| && j == i + 1
      ensures longer[i] < longer[j] && sights[longer[j]].at - sights[longer[i]].at >= Spacing(j, rules)
    {
      if j < |m| { assert m[i] < m[j] && sights[m[j]].at - sights[m[i]].at >= Spacing(j, rules); }
    }
  }

  /** A snapshot too early to count. */
  lemma SkipCheck(sights: seq<Sight>, m: seq<nat>, n: nat, rules: Patience)
    requires n < |sights| && SpacedAbsence(sights, m, n, rules) && !sights[n].present
    ensures SpacedAbsence(sights, m, n + 1, rules)
  {
    forall i, j | 0 <= i < j < |m| && j == i + 1
      ensures m[i] < m[j] && sights[m[j]].at - sights[m[i]].at >= Spacing(j, rules)
    {
    }
  }

  lemma MarkStep(r: Option<MissingRecord>, next: Option<MissingRecord>, sights: seq<Sight>, m: seq<nat>, n: nat,
                 rules: Patience)
    requires n < |sights| && SpacedAbsence(sights, m, n, rules) && RecordOf(r, sights, m)
    requires Step(r, sights[n], rules) == Keep(next)
    ensures var more := if sights[n].present then [] else m + if Due(r, sights[n].at, rules) then [n] else [];
      SpacedAbsence(sights, more, n + 1, rules) && RecordOf(next, sights, more)
  {
    if !sights[n].present {
      if Due(r, sights[n].at, rules) {
        CountCheck(r, sights, m, n, rules);
      } else {
        SkipCheck(sights, m, n, rules);
        assert m + [] == m;
      }
    }
  }

  lemma {:induction false} MarksInv(records: seq<Option<MissingRecord>>, sights: seq<Sight>, rules: Patience, n: nat)
    requires Run(records, sights, rules) && n <= |sights|
    ensures SpacedAbsence(sights, Marks(records, sights, rules, n), n, rules)
    ensures RecordOf(records[n], sights, Marks(records, sights, rules, n))
  {
    if n == 0 {
      assert Marks(records, sights, rules, 0) == [];
    } else {
      MarksInv(records, sights, rules, n - 1);
      assert KeptAt(records, sights, rules, n - 1);
      MarkStep(records[n - 1], records[n], sights, Marks(records, sights, rules, n - 1), n - 1, rules);
      MarksNext(records, sights, rules, n - 1);
    }
  }

  lemma MarksNext(records: seq<Option<MissingRecord>>, sights: seq<Sight>, rules: Patience, n: nat)
    requires |records| == |sights| + 1 && n < |sights|
    ensures Marks(records, sights, rules, n + 1)
         == if sights[n].present then []
             else Marks(records, sights, rules, n) + if Due(records[n], sights[n].at, rules) then [n] else []
  {
  }

  lemma AbsenceAppend(sights: seq<Sight>, last: Sight, m: seq<nat>, n: nat, rules: Patience)
    requires n <= |sights| && SpacedAbsence(sights, m, n, rules)
    ensures SpacedAbsence(sights + [last], m, n, rules)
  {
    forall i, j | 0 <= i < j < |m| && j == i + 1
      ensures m[i] < m[j] && (sights + [last])[m[j]].at - (sights + [last])[m[i]].at >= Spacing(j, rules)
    {
      assert m[i] < m[j] && sights[m[j]].at - sights[m[i]].at >= Spacing(j, rules);
    }
  }

  /** The checks up to the one that drops a position. */
  lemma DropIsSpaced(records: seq<Option<MissingRecord>>, sights: seq<Sight>, rules: Patience, last: Sight)
    requires Run(records, sights, rules) && Step(records[|sights|], last, rules).Drop?
    ensures var m := Marks(records, sights, rules, |sights|);
      && SpacedAbsence(sights + [last], m + [|sights|], |sights| + 1, rules) && |m| + 1 >= rules.confirmations
      && RecordOf(records[|sights|], sights, m)
  {
    var m, all := Marks(records, sights, rules, |sights|), sights + [last];
    MarksInv(records, sights, rules, |sights|);
    AbsenceAppend(sights, last, m, |sights|, rules);
    CountCheck(records[|sights|], all, m, |sights|, rules);
  }

  /** A position is dropped only after the configured number of snapshots in a row, each far
      enough after the one before, has missed it, with no snapshot showing it in between; and
      only at the price of a closing deal, or half a minute later at its last stop. */
  lemma DroppedOnlyWhenGone(records: seq<Option<MissingRecord>>, sights: seq<Sight>, rules: Patience, last: Sight)
    requires Run(records, sights, rules) && Step(records[|sights|], last, rules).Drop?
    ensures var m := Marks(records, sights, rules, |sights|) + [|sights|];
      && SpacedAbsence(sights + [last], m, |sights| + 1, rules) && |m| >= rules.confirmations
      && (last.deal == Some(Step(records[|sights|], last, rules).price)
          || (last.deal.None? && last.stop == Some(Step(records[|sights|], last, rules).price)
              && last.stop.value > 0.0 && last.at - (sights + [last])[m[0]].at >= CLOSE_HISTORY_MAX_WAIT_SECONDS))
  {
    DropIsSpaced(records, sights, rules, last);
    var m := Marks(records, sights, rules, |sights|);
    if m != [] { assert (sights + [last])[m[0]] == sights[m[0]]; }
  }

  /** The first k checks take at least k - 1 intervals. */
  lemma {:induction false} SpacedChecksTakeTime(sights: seq<Sight>, m: seq<nat>, n: nat, rules: Patience, k: nat)
    requires n <= |sights| && SpacedAbsence(sights, m, n, rules) && 1 <= k <= |m| && k <= rules.confirmations
    ensures sights[m[k - 1]].at - sights[m[0]].at >= (k - 1) * rules.recheck
  {
    if k > 1 {
      SpacedChecksTakeTime(sights, m, n, rules, k - 1);
      Distribute(rules.recheck, k - 2, 1);
    }
  }

  /** So a live position that shows up often enough is never dropped, and a dropped one has been
      gone for (confirmations - 1) * recheck seconds. */
  lemma DroppedHasBeenGone(records: seq<Option<MissingRecord>>, sights: seq<Sight>, rules: Patience, last: Sight)
    requires Run(records, sights, rules) && Step(records[|sights|], last, rules).Drop? && rules.confirmations >= 1
    ensures var m := Marks(records, sights, rules, |sights|) + [|sights|];
      && |m| >= rules.confirmations && (forall k | m[0] <= k < |sights| :: !sights[k].present)
      && (sights + [last])[m[rules.confirmations - 1]].at - (sights + [last])[m[0]].at
         >= (rules.confirmations - 1) * rules.recheck
  {
    DroppedOnlyWhenGone(records, sights, rules, last);
    var m := Marks(records, sights, rules, |sights|) + [|sights|];
    SpacedChecksTakeTime(sights + [last], m, |sights| + 1, rules, rules.confirmations);
    forall k | m[0] <= k < |sights| ensures !sights[k].present {
      assert !(sights + [last])[k].present;
    }
  }

  /** Without a deal and without a known stop the engine never gives up. */
  lemma NeverDroppedBlind(r: Option<MissingRecord>, s: Sight, rules: Patience)
    requires s.deal.None? && (s.stop.None? || s.stop.value <= 0.0)
    ensures Step(r, s, rules).Keep?
  {
  }

  function RecordIn(records: map<Id, MissingRecord>, id: Id): Option<MissingRecord> {
    if id in records then Some(records[id]) else None
  }

  /** One position moved on by one step. */
  predicate Stepped(before: map<Id, MissingRecord>, after: map<Id, MissingRecord>, dropped: map<Id, real>, id: Id,
                    s: Sight, rules: Patience)
  {
    if id in dropped then RecordIn(after, id).None? && Step(RecordIn(before, id), s, rules) == Drop(dropped[id])
    else Step(RecordIn(before, id), s, rules) == Keep(RecordIn(after, id))
  }

  // ----- when it is dropped -------------------------------------------------------------

  /** A snapshot drops a position exactly when it misses it, is due, completes the confirmations, and a
      price is known: the deal's, or the stop once half a minute has passed since it was first missed. */
  lemma DropsExactly(r: Option<MissingRecord>, s: Sight, rules: Patience, price: real)
    ensures Step(r, s, rules) == Drop(price) <==>
      && !s.present
      && (r.Some? ==> s.at - r.value.lastCheckedAt
                      >= if r.value.confirmations >= rules.confirmations then 60 else rules.recheck)
      && (if r.Some? then r.value.confirmations else 0) + 1 >= rules.confirmations
      && (s.deal == Some(price)
          || (s.deal.None? && r.Some? && s.at - r.value.firstMissingAt >= 30 && s.stop == Some(price) && price > 0.0))
  {
  }

  /** Snapshots that all miss the position and keep the distance asked for. */
  predicate Missed(sights: seq<Sight>, rules: Patience) {
    && (forall i | 0 <= i < |sights| :: !sights[i].present)
    && (forall i | 0 < i < |sights| :: sights[i].at - sights[i - 1].at >= rules.recheck)
  }

  /** While fewer have missed it than are asked for, each of them counts. */
  lemma {:induction false} EachCounts(records: seq<Option<MissingRecord>>, sights: seq<Sight>, rules: Patience, n: nat)
    requires Run(records, sights, rules) && Missed(sights, rules) && 0 < n <= |sights| && n <= rules.confirmations
    ensures records[n] == Some(MissingRecord(n, sights[0].at, sights[n - 1].at))
  {
    assert KeptAt(records, sights, rules, n - 1);
    if n > 1 { EachCounts(records, sights, rules, n - 1); }
  }

  /** The engine's patience ends: of snapshots that keep the distance asked for and all miss the position,
      the one that completes the confirmations drops it if its closing deal is known, and none before
      does. */
  lemma PatienceRunsOut(records: seq<Option<MissingRecord>>, sights: seq<Sight>, last: Sight, rules: Patience)
    requires Run(records, sights, rules) && Missed(sights + [last], rules) && last.deal.Some?
    requires |sights| < rules.confirmations || sights == []
    ensures Step(records[|sights|], last, rules)
         == if |sights| + 1 >= rules.confirmations then Drop(last.deal.value)
             else Keep(Some(MissingRecord(|sights| + 1, (sights + [last])[0].at, last.at)))
  {
    var n := |sights|;
    assert (sights + [last])[n] == last && forall i | 0 <= i < n :: (sights + [last])[i] == sights[i];
    if n > 0 {
      assert (sights + [last])[n].at - (sights + [last])[n - 1].at >= rules.recheck;
      assert Missed(sights, rules) by {
        forall i | 0 < i < n ensures sights[i].at - sights[i - 1].at >= rules.recheck {
          assert (sights + [last])[i].at - (sights + [last])[i - 1].at >= rules.recheck;
        }
      }
      EachCounts(records, sights, rules, n);
    }
  }

  // ----- the tracker ----------------------------------------------------------------------

  class MissingPositions {
    var records: map<Id, MissingRecord>
    /** Tracked positions with the last stop known for each. */
    var tracked: map<Id, Option<real>>
    const rules: Patience

    constructor (rules: Patience, tracked: map<Id, Option<real>>)
      ensures this.rules == rules && this.tracked == tracked && records == map[]
    {
      this.rules, this.tracked, records := rules, tracked, map[];
    }

    /** Takes one snapshot of open positions into account. Every tracked position moves on by
        exactly one step; dropped ones are answered with the price they closed at. */
    method Reconcile(now: int, open: set<Id>, deals: map<Id, real>) returns (dropped: map<Id, real>)
      modifies `records, `tracked
      ensures dropped.Keys <= old(tracked.Keys) && tracked == old(tracked) - dropped.Keys
      ensures forall id | id in old(tracked) ::
        Stepped(old(records), records, dropped, id, SightOf(id, now, open, deals, old(tracked)[id]), rules)
      ensures forall id | id !in old(tracked) :: RecordIn(records, id) == RecordIn(old(records), id)
      ensures forall id | id in dropped ::
        id !in open && if id in deals then dropped[id] == deals[id] else old(tracked)[id] == Some(dropped[id])
    {
      dropped := map[];
      var start, rest := tracked, tracked.Keys;
      while rest != {}
        invariant tracked == start == old(tracked)
        invariant rest <= start.Keys && dropped.Keys <= start.Keys - rest
        invariant forall id | id in rest || id !in start :: RecordIn(records, id) == RecordIn(old(records), id)
        invariant forall id | id in start && id !in rest ::
          Stepped(old(records), records, dropped, id, SightOf(id, now, open, deals, start[id]), rules)
        decreases rest
      {
        var id :| id in rest;
        rest := rest - {id};
        ghost var before, droppedBefore := records, dropped;
        var price := Observe(id, SightOf(id, now, open, deals, start[id]));
        if price.Some? {
          dropped := dropped[id := price.value];
        }
        forall other | other in start && other !in rest
          ensures Stepped(old(records), records, dropped, other, SightOf(other, now, open, deals, start[other]), rules)
        {
          if other != id {
            assert Stepped(old(records), before, droppedBefore, other, SightOf(other, now, open, deals, start[other]),
                           rules);
          }
        }
      }
      forall id | id in dropped
        ensures id !in open && if id in deals then dropped[id] == deals[id] else start[id] == Some(dropped[id])
      {
        assert Stepped(old(records), records, dropped, id, SightOf(id, now, open, deals, start[id]), rules);
        DropsExactly(RecordIn(old(records), id), SightOf(id, now, open, deals, start[id]), rules, dropped[id]);
      }
      tracked := tracked - dropped.Keys;
    }

    method Observe(id: Id, s: Sight) returns (price: Option<real>)
      modifies `records
      ensures Step(RecordIn(old(records), id), s, rules)
           == if price.Some? then Drop(price.value) else Keep(RecordIn(records, id))
      ensures price.Some? ==> RecordIn(records, id).None?
      ensures forall other | other != id :: RecordIn(records, other) == RecordIn(old(records), other)
    {
      if s.present {
        records := records - {id};
        return None;
      }
      var missing := RecordIn(records, id);
      var recheck := if missing.Some? && missing.value.confirmations >= rules.confirmations
                     then CLOSE_HISTORY_RETRY_SECONDS else rules.recheck;
      if missing.Some? && s.at - missing.value.lastCheckedAt < recheck {
        return None;
      }
      var confirmations := Confirmations(missing) + 1;
      var first := if missing.Some? then missing.value.firstMissingAt else s.at;
      if confirmations < rules.confirmations {
        records := records[id := MissingRecord(confirmations, first, s.at)];
        return None;
      }
      price := s.deal;
      var age := if missing.Some? && s.at > first then s.at - first else 0;
      if price.None? && age >= CLOSE_HISTORY_MAX_WAIT_SECONDS && s.stop.Some? && s.stop.value > 0.0 {
        price := s.stop;
      }
      if price.None? {
        records := records[id := MissingRecord(confirmations, first, s.at)];
        return None;
      }
      records := records - {id};
    }
  }

  function SightOf(id: Id, now: int, open: set<Id>, deals: map<Id, real>, stop: Option<real>): Sight {
    Sight(now, id in open, if id in deals then Some(deals[id]) else None, stop)
  }
}
