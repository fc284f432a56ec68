/** The candidate store: one record and one absence-progress entry per candidate, both
    with an expiry time, rewritten in place by atomic scripts that read the server clock. */
module CandidateStore {
  import opened Common
  import opened CandidateRecord
  import opened CandidateScripts

  /** A stored value and the moment (milliseconds) after which the key is gone. */
  datatype Entry<T> = Entry(value: T, goneAfter: int)

  class CandidateStore {
    var clockMs: nat
    var records: map<string, Entry<Stored>>
    var progress: map<string, Entry<Progress>>

    constructor ()
      ensures records == map[] && progress == map[] && clockMs == 0
    {
      clockMs := 0;
      records := map[];
      progress := map[];
    }

    function Now(): int reads this { clockMs / 1000 }

    /** The record a script reads: nothing once the key has expired. */
    function View(key: string): Option<Record>
      reads this
    {
      ViewAt(key, clockMs)
    }

    /** What a script would read at some moment if nothing is written until then. */
    function ViewAt(key: string, at: int): Option<Record>
      reads this
    {
      if key in records && at <= records[key].goneAfter then Some(Decode(records[key].value)) else None
    }

    function ProgressView(key: string): Option<Progress>
      reads this
    {
      if key in progress && clockMs <= progress[key].goneAfter
      then Some(progress[key].value) else None
    }

    /** A structured write of `r`, kept for `ttlMs`. */
    function Written(key: string, r: Record, ttlMs: nat): map<string, Entry<Stored>>
      reads this
    {
      records[key := Entry(Encode(r), clockMs + ttlMs)]
    }

    method Elapse(ms: nat)
      modifies this`clockMs
      ensures clockMs == old(clockMs) + ms
    {
      clockMs := clockMs + ms;
    }

    method Acquire(id: Identity, token: string, leaseMs: nat, policy: ClaimPolicy)
      returns (code: ClaimCode, attempt: int)
      modifies this`records
      ensures code == ClaimAnswer(old(View(id.candidateId)), id, policy, Now())
      ensures code.Claimed? ==>
        var r := ClaimedRecord(old(View(id.candidateId)), id, token, leaseMs, Now());
        && attempt == r.attempt && records == old(Written(id.candidateId, r, leaseMs))
        && (id.candidateId != "" && token != "" ==> View(id.candidateId) == Some(r))
      ensures !code.Claimed? ==> records == old(records)
    {
      var now := clockMs / 1000;
      var recoveredFrom;
      code, attempt, recoveredFrom := Judge(id, policy);
      if !code.Claimed? {
        return;
      }
      var claimedState := Processing;
      var lastError: Option<string> := None;
      if recoveredFrom.Some? {
        claimedState := BrokerReconciling;
        lastError := Some(StateName(recoveredFrom.value));
      }
      attempt := attempt + 1;
      var claimed := Record(Some(id.candidateId), NonEmpty(Some(id.streamEventId)), claimedState,
                            Some(token), Some(now + leaseMs / 1000), attempt, lastError, None, now, false);
      ClaimedReadsBack(View(id.candidateId), id, token, leaseMs, now);
      records := records[id.candidateId := Entry(Encode(claimed), clockMs + leaseMs)];
    }

    /** What the claim script decides before it writes: its answer, the attempts so far, and the
        state a recovery claim takes over from. */
    method Judge(id: Identity, policy: ClaimPolicy)
      returns (code: ClaimCode, attempt: int, recoveredFrom: Option<State>)
      ensures code == ClaimAnswer(View(id.candidateId), id, policy, Now())
      ensures code.Claimed? ==> attempt == if View(id.candidateId).Some? then View(id.candidateId).value.attempt else 0
      ensures code.Claimed? ==>
        recoveredFrom ==
          if TakesOverRecovery(View(id.candidateId)) then Some(View(id.candidateId).value.state) else None
    {
      var now := clockMs / 1000;
      var record := View(id.candidateId);
      attempt, recoveredFrom := 0, None;
      if record.Some? {
        var r := record.value;
        attempt := r.attempt;
        if r.state.Unreadable? {
          return Conflict, attempt, None;
        }
        if !IdentityMatches(r, id) {
          return Conflict, attempt, None;
        }
        if Terminal(r.state) {
          if !(policy.allowRejectedReclaim && r.state.Rejected?) {
            return AlreadyTerminal, attempt, None;
          }
        } else if NeedsRecovery(r.state) {
          if !policy.allowRecoveryAdoption {
            return RecoveryRequired, attempt, None;
          }
          if r.leaseExpiresAt.Some? && r.leaseExpiresAt.value > now {
            return ActiveElsewhere, attempt, None;
          }
          recoveredFrom := Some(r.state);
        } else if Active(r.state) {
          if r.legacy {
            return ActiveElsewhere, attempt, None;
          }
          if r.leaseExpiresAt.None? || r.leaseExpiresAt.value > now {
            return ActiveElsewhere, attempt, None;
          }
          if r.state.BrokerSubmitting? {
            if !policy.allowBrokerSubmittingReclaim {
              return RecoveryRequired, attempt, None;
            }
            recoveredFrom := Some(r.state);
          }
        } else if !Retryable(r.state) {
          return Conflict, attempt, None;
        }
      }
      code := Claimed;
    }

    method Renew(id: Identity, token: string, leaseMs: nat) returns (ok: bool)
      modifies this`records
      ensures ok <==> MayRenew(old(View(id.candidateId)), id, token)
      ensures records == if ok
        then old(Written(id.candidateId, RenewedRecord(View(id.candidateId).value, leaseMs, Now()), leaseMs))
        else old(records)
      ensures ok ==> View(id.candidateId) == Some(RenewedRecord(old(View(id.candidateId)).value, leaseMs, Now()))
    {
      var now := clockMs / 1000;
      var view := View(id.candidateId);
      if view.None? || view.value.state.Unreadable? {
        return false;
      }
      var record := view.value;
      if !IdentityMatches(record, id) {
        return false;
      }
      if !OwnsLease(record, token) {
        return false;
      }
      if !Active(record.state) && !NeedsRecovery(record.state) {
        return false;
      }
      record := record.(leaseExpiresAt := Some(now + leaseMs / 1000));
      record := record.(updatedAt := now);
      DecodeNormal(records[id.candidateId].value);
      DecodeEncode(record);
      records := records[id.candidateId := Entry(Encode(record), clockMs + leaseMs)];
      ok := true;
    }

    method Transition(id: Identity, token: string, to: State, leaseMs: nat, error: Option<string>)
      returns (ok: bool)
      modifies this`records
      ensures ok <==> MayTransition(old(View(id.candidateId)), id, token, to)
      ensures records == if ok
        then old(Written(id.candidateId,
                         TransitionedRecord(View(id.candidateId).value, to, leaseMs, error, Now()),
                         RECORD_TTL_MS))
        else old(records)
      ensures ok ==> View(id.candidateId) ==
                     Some(TransitionedRecord(old(View(id.candidateId)).value, to, leaseMs, error, Now()))
    {
      var now := clockMs / 1000;
      var view := View(id.candidateId);
      if view.None? || view.value.state.Unreadable? {
        return false;
      }
      var record := view.value;
      if !IdentityMatches(record, id) || Terminal(record.state) || !OwnsLease(record, token) {
        return false;
      }
      if !CanTransition(record.state, to) {
        return false;
      }
      record := record.(state := to);
      record := record.(updatedAt := now);
      if NonEmpty(error).Some? {
        record := record.(lastError := error);
      }
      if to.RetryableError? {
        record := record.(leaseToken := None);
        record := record.(leaseExpiresAt := None);
      } else {
        record := record.(leaseExpiresAt := Some(now + leaseMs / 1000));
      }
      DecodeNormal(records[id.candidateId].value);
      DecodeEncode(record);
      records := records[id.candidateId := Entry(Encode(record), clockMs + RECORD_TTL_MS)];
      ok := true;
    }

    method Complete(id: Identity, token: string, outcome: string) returns (ok: bool)
      modifies this`records
      ensures ok <==> MayComplete(old(View(id.candidateId)), id, token)
      ensures records == if ok
        then old(Written(id.candidateId, CompletedRecord(View(id.candidateId).value, outcome, Now()), RECORD_TTL_MS))
        else old(records)
      ensures ok ==> View(id.candidateId) == Some(CompletedRecord(old(View(id.candidateId)).value, outcome, Now()))
    {
      var now := clockMs / 1000;
      var view := View(id.candidateId);
      if view.None? || view.value.state.Unreadable? {
        return false;
      }
      var record := view.value;
      if !IdentityMatches(record, id) || Terminal(record.state) || !OwnsLease(record, token) {
        return false;
      }
      if !Active(record.state) && !NeedsRecovery(record.state) {
        return false;
      }
      DecodeNormal(records[id.candidateId].value);
      if "ordered:" <= outcome {
        record := record.(state := Ordered);
      } else if "rejected:" <= outcome {
        record := record.(state := Rejected);
      } else {
        record := record.(state := Completed);
      }
      record := record.(outcome := NonEmpty(Some(outcome)));
      record := record.(leaseToken := None, leaseExpiresAt := None, updatedAt := now);
      DecodeEncode(record);
      records := records[id.candidateId := Entry(Encode(record), clockMs + RECORD_TTL_MS)];
      ok := true;
    }

    /** Some((recorded, confirmations)) or None when the caller is fenced out. */
    method RecordAbsenceCheck(id: Identity, token: string, interval: int, ttlMs: nat)
      returns (answer: Option<(bool, int)>)
      modifies this`progress
      ensures answer.Some? <==> MayRecordAbsence(View(id.candidateId), id, token)
      ensures answer.Some? ==> (answer.value.0 <==> CheckDue(old(ProgressView(id.candidateId)), id, interval, Now()))
      ensures answer.Some? && answer.value.0 ==>
        var p := NextProgress(old(ProgressView(id.candidateId)), id, Now());
        && answer.value.1 == p.confirmations
        && progress == old(progress)[id.candidateId := Entry(p, clockMs + ttlMs)]
      ensures answer.Some? && !answer.value.0 ==>
        answer.value.1 == old(ProgressView(id.candidateId)).value.confirmations
      ensures answer.None? || !answer.value.0 ==> progress == old(progress)
    {
      var now := clockMs / 1000;
      var view := View(id.candidateId);
      if view.None? || view.value.state.Unreadable? {
        return None;
      }
      if !IdentityMatches(view.value, id) || !OwnsLease(view.value, token) {
        return None;
      }
      if !view.value.state.BrokerReconciling? {
        return None;
      }
      var confirmations := 0;
      var lastCheckAt: Option<int> := None;
      var raw := ProgressView(id.candidateId);
      if raw.Some? && raw.value.id == id {
        confirmations := raw.value.confirmations;
        lastCheckAt := Some(raw.value.lastCheckAt);
      }
      if lastCheckAt.Some? {
        if now - lastCheckAt.value < interval {
          return Some((false, confirmations));
        }
      }
      confirmations := confirmations + 1;
      progress := progress[id.candidateId := Entry(Progress(id, confirmations, now), clockMs + ttlMs)];
      answer := Some((true, confirmations));
    }

    method ClearProgress(key: string)
      modifies this`progress
      ensures progress == old(progress) - {key}
    {
      progress := progress - {key};
    }
  }
}
