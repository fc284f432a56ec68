/** The heartbeat that keeps a worker's lease alive and tells it when ownership can no longer
    be proved. */
module Heartbeat {
  import opened Common
  import opened CandidateRecord
  import opened CandidateScripts
  import opened CandidateStore

  /** Milliseconds between two beats: a quarter of the lease unless asked otherwise, and never
      more than a third. */
  function Interval(leaseMs: nat, requested: Option<real>): real {
    var quarter := leaseMs as real / 4.0;
    var wanted := if requested.Some? then requested.value else if quarter > 50.0 then quarter else 50.0;
    var third := leaseMs as real / 3.0;
    if wanted > third then third else wanted
  }

  /** Left alone, a lease is renewed four times in its life, a very short one every 50 ms or three times;
      an interval that is asked for is kept if three of them fit. */
  lemma IntervalExactly(leaseMs: nat, asked: real)
    ensures leaseMs >= 200 ==> 4.0 * Interval(leaseMs, None) == leaseMs as real
    ensures 150 <= leaseMs < 200 ==> Interval(leaseMs, None) == 50.0
    ensures leaseMs < 150 ==> 3.0 * Interval(leaseMs, None) == leaseMs as real
    ensures if 3.0 * asked <= leaseMs as real then Interval(leaseMs, Some(asked)) == asked
            else 3.0 * Interval(leaseMs, Some(asked)) == leaseMs as real
  {
  }

  lemma ThreeBeatsALease(leaseMs: nat, requested: Option<real>)
    ensures 3.0 * Interval(leaseMs, requested) <= leaseMs as real
  {
  }

  /** The lease outlasts two thirds of itself in whole seconds, whenever it starts: so do all
      leases of five seconds and more, and the engine's two minutes. */
  predicate LongEnough(leaseMs: nat) { 2 * (leaseMs % 1000) + 2997 < leaseMs / 1000 * 1000 }

  /** A lease renewed at `beat` runs on past two more intervals, whole seconds and all: until
      then nobody is handed the candidate, under any policy. */
  lemma HeldBetweenBeats(r: Record, other: Identity, policy: ClaimPolicy, beat: nat, now: nat, leaseMs: nat,
                         interval: real)
    requires LongEnough(leaseMs) && 0.0 <= interval && 3.0 * interval <= leaseMs as real
    requires beat <= now && (now - beat) as real <= 2.0 * interval
    requires Leased(r.state) && !r.legacy && r.leaseExpiresAt == Some(beat / 1000 + leaseMs / 1000)
    ensures !ClaimAnswer(Some(r), other, policy, now / 1000).Claimed?
  {
    WholeSeconds(beat, now, leaseMs);
  }

  lemma WholeSeconds(beat: nat, now: nat, leaseMs: nat)
    requires LongEnough(leaseMs) && beat <= now && 3 * (now - beat) <= 2 * leaseMs
    ensures now / 1000 < beat / 1000 + leaseMs / 1000
  {
  }

  /** Exactly which leases hold between beats: for any other one there is a renewal and a moment
      within two thirds of it at which the lease has run out already. */
  lemma HeldExactlyWhenLongEnough(leaseMs: nat)
    ensures LongEnough(leaseMs) <==>
      forall beat: nat, now: nat | beat <= now && 3 * (now - beat) <= 2 * leaseMs ::
        now / 1000 < beat / 1000 + leaseMs / 1000
    ensures leaseMs >= 5000 ==> LongEnough(leaseMs)
  {
    if LongEnough(leaseMs) {
      forall beat: nat, now: nat | beat <= now && 3 * (now - beat) <= 2 * leaseMs
        ensures now / 1000 < beat / 1000 + leaseMs / 1000
      {
        WholeSeconds(beat, now, leaseMs);
      }
    } else {
      var beat, now := 999, 999 + 2 * leaseMs / 3;
      assert beat <= now && 3 * (now - beat) <= 2 * leaseMs;
      assert now / 1000 >= beat / 1000 + leaseMs / 1000;
    }
  }

  /** Within two beats of the interval asked for. */
  predicate Soon(beat: nat, now: nat, leaseMs: nat, requested: Option<real>) {
    now >= beat && Interval(leaseMs, requested) >= 0.0 && (now - beat) as real <= 2.0 * Interval(leaseMs, requested)
  }

  lemma HeldSoon(r: Record, other: Identity, policy: ClaimPolicy, beat: nat, now: nat, leaseMs: nat,
                 requested: Option<real>)
    requires LongEnough(leaseMs) && Soon(beat, now, leaseMs, requested)
    requires Leased(r.state) && !r.legacy && r.leaseExpiresAt == Some(beat / 1000 + leaseMs / 1000)
    ensures !ClaimAnswer(Some(r), other, policy, now / 1000).Claimed? && now <= beat + leaseMs
  {
    ThreeBeatsALease(leaseMs, requested);
    HeldBetweenBeats(r, other, policy, beat, now, leaseMs, Interval(leaseMs, requested));
  }

  class CandidateLeaseHeartbeat {
    const store: CandidateStore
    const id: Identity
    const token: string
    const leaseMs: nat
    var ownershipLost: bool
    /** Broker work watches this and unwinds. */
    var cancelled: bool
    var renewals: nat

    predicate Valid()
      reads this
    {
      ownershipLost == cancelled && id.candidateId != "" && token != ""
    }

    constructor (store: CandidateStore, id: Identity, token: string, leaseMs: nat)
      requires id.candidateId != "" && token != ""
      ensures Valid() && !ownershipLost && renewals == 0
      ensures this.store == store && this.id == id && this.token == token && this.leaseMs == leaseMs
    {
      this.store, this.id, this.token, this.leaseMs := store, id, token, leaseMs;
      ownershipLost, cancelled, renewals := false, false, 0;
    }

    /** Marks ownership lost, once and for good, and cancels what depends on it. */
    method MarkLost()
      requires Valid()
      modifies `ownershipLost, `cancelled
      ensures Valid() && ownershipLost
    {
      if cancelled {
        return;
      }
      ownershipLost := true;
      cancelled := true;
    }

    /** One renewal. `storeFails` stands for a store that cannot be reached: ownership counts as
        lost. True means the lease is ours and freshly renewed, false that ownership is lost and
        stays lost. */
    method RenewOnce(storeFails: bool) returns (ok: bool)
      requires Valid()
      modifies this, store`records
      ensures Valid() && ok == !ownershipLost
      ensures ok <==> !old(ownershipLost) && !storeFails && MayRenew(old(store.View(id.candidateId)), id, token)
      ensures renewals == old(renewals) + if ok then 1 else 0
      ensures !ok ==> store.records == old(store.records)
      ensures ok ==>
        && store.View(id.candidateId)
            == Some(RenewedRecord(old(store.View(id.candidateId)).value, leaseMs, store.Now()))
        && id.candidateId in store.records && store.records[id.candidateId].goneAfter == store.clockMs + leaseMs
    {
      if ownershipLost {
        return false;
      }
      if storeFails {
        MarkLost();
        return false;
      }
      ok := store.Renew(id, token, leaseMs);
      if !ok {
        MarkLost();
        return;
      }
      renewals := renewals + 1;
    }

    /** Asked right before every broker side effect. After a yes nobody else is handed the
        candidate for the next two intervals: neither does the lease run out nor its key. */
    method EnsureOwnership(storeFails: bool) returns (ok: bool)
      requires Valid()
      modifies this, store`records
      ensures Valid() && ok == !ownershipLost && (old(ownershipLost) ==> !ok)
      ensures ok ==> store.View(id.candidateId).Some? && OwnsLease(store.View(id.candidateId).value, token)
      ensures ok && LongEnough(leaseMs) ==> forall other, policy, now: nat, requested |
        Soon(store.clockMs, now, leaseMs, requested) ::
          !ClaimAnswer(store.ViewAt(id.candidateId, now), other, policy, now / 1000).Claimed?
    {
      if ownershipLost {
        return false;
      }
      ok := RenewOnce(storeFails);
      if ok && LongEnough(leaseMs) {
        var r := store.View(id.candidateId).value;
        forall other, policy, now: nat, requested | Soon(store.clockMs, now, leaseMs, requested)
          ensures !ClaimAnswer(store.ViewAt(id.candidateId, now), other, policy, now / 1000).Claimed?
        {
          HeldSoon(r, other, policy, store.clockMs, now, leaseMs, requested);
        }
      }
    }
  }
}
