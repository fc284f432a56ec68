/** What the store scripts mean for the workers that share a candidate: who is handed it, what a claim,
    a release or a completion leaves to the next one, and which checks for its absence count. */
module ClaimRules {
  import opened Common
  import opened CandidateRecord
  import opened CandidateScripts

  // ----- claims -----------------------------------------------------------------------------

  /** The record names exactly this candidate and stream event, or is an old marker that names none. */
  predicate Names(r: Record, id: Identity) {
    r.legacy || (r.candidateId == Some(id.candidateId) && r.streamEventId == Some(id.streamEventId)
                 && id.candidateId != "" && id.streamEventId != "")
  }

  /** A structured record whose lease runs until `end`. */
  predicate LeasedUntil(r: Record, id: Identity, end: int) {
    !r.legacy && Names(r, id) && r.leaseExpiresAt == Some(end)
  }

  /** A lease without an end never ends for a worker in execution. */
  predicate RunsOn(end: Option<int>, now: int) { end.None? || now < end.value }

  /** Without a record, or after a release, everybody is handed the candidate; in execution nobody before
      the lease has ended and everybody then; with an order possibly out only those who ask for it. */
  lemma ClaimsByState(r: Record, id: Identity, policy: ClaimPolicy, now: int, end: Option<int>)
    requires !r.legacy && Names(r, id) && r.leaseExpiresAt == end && !r.state.Unreadable? && !r.state.Unlisted?
    ensures ClaimAnswer(None, id, policy, now) == Claimed
    ensures var answer := ClaimAnswer(Some(r), id, policy, now);
      match r.state
      case Published => answer == Claimed
      case RetryableError => answer == Claimed
      case Processing => answer == if RunsOn(end, now) then ActiveElsewhere else Claimed
      case BrokerSubmitting =>
        answer == if RunsOn(end, now) then ActiveElsewhere
                  else if policy.allowBrokerSubmittingReclaim then Claimed else RecoveryRequired
      case BrokerOutcomeUnknown =>
        answer == if !policy.allowRecoveryAdoption then RecoveryRequired
                  else if end.Some? && now < end.value then ActiveElsewhere else Claimed
      case BrokerReconciling =>
        answer == if !policy.allowRecoveryAdoption then RecoveryRequired
                  else if end.Some? && now < end.value then ActiveElsewhere else Claimed
      case Rejected => answer == if policy.allowRejectedReclaim then Claimed else AlreadyTerminal
      case _ => answer == AlreadyTerminal
  {
  }

  /** Only a record that can be read and carries no other identity is ever handed out or refused for what
      it says. */
  lemma ConflictsExactly(r: Record, id: Identity, policy: ClaimPolicy, now: int)
    ensures ClaimAnswer(Some(r), id, policy, now) == Conflict <==>
      r.state.Unreadable? || r.state.Unlisted? || !Names(r, id)
  {
  }

  /** What a claim makes of each of the markers older executors wrote. */
  lemma MarkerClaims(text: string, id: Identity, policy: ClaimPolicy, now: int)
    ensures var answer := ClaimAnswer(Some(Decode(Marker(text))), id, policy, now);
      answer ==
      if text == "published" then Claimed
      else if text == "processing" then ActiveElsewhere
      else if text == "dry_run" || "ordered:" <= text || "flip_pending:" <= text then AlreadyTerminal
      else if "rejected:" <= text then (if policy.allowRejectedReclaim then Claimed else AlreadyTerminal)
      else Conflict
  {
    FirstLetters(text);
  }

  lemma FirstLetters(text: string)
    ensures "ordered:" <= text ==> !("rejected:" <= text) && !("flip_pending:" <= text)
    ensures "rejected:" <= text ==> !("flip_pending:" <= text)
    ensures "ordered:" <= text || "rejected:" <= text ==> text !in {"published", "processing", "dry_run"}
  {
    if text != [] {
      assert "ordered:"[0] == 'o' && "rejected:"[0] == 'r' && "flip_pending:"[0] == 'f';
      assert "published"[0] == 'p' && "processing"[0] == 'p' && "dry_run"[0] == 'd';
    }
  }

  // ----- what the scripts leave behind ------------------------------------------------------

  /** A claim leaves its claimant the lease, counts one more attempt, and goes to reconciling exactly when
      an order may be out, naming the state it found. */
  lemma ClaimLeaves(view: Option<Record>, id: Identity, token: string, leaseMs: nat, now: int)
    requires id.candidateId != "" && id.streamEventId != "" && token != ""
    ensures var r := ClaimedRecord(view, id, token, leaseMs, now);
      && LeasedUntil(r, id, now + leaseMs / 1000) && Fenced(Some(r), id, token) && MayRenew(Some(r), id, token)
      && r.attempt == (if view.None? then 0 else view.value.attempt) + 1
      && (r.state == BrokerReconciling || r.state == Processing)
      && (r.state == BrokerReconciling <==> r.lastError.Some?)
      && (r.lastError == Some("broker_submitting") <==> view.Some? && view.value.state == BrokerSubmitting)
      && (r.lastError == Some("broker_outcome_unknown") <==> view.Some? && view.value.state == BrokerOutcomeUnknown)
      && (r.lastError == Some("broker_reconciling") <==> view.Some? && view.value.state == BrokerReconciling)
      && (r.lastError.Some? ==> view.Some? && view.value.state in {BrokerSubmitting, BrokerOutcomeUnknown,
                                                                    BrokerReconciling})
  {
    assert "broker_submitting"[7] != "broker_outcome_unknown"[7];
    assert "broker_submitting"[7] != "broker_reconciling"[7];
    assert "broker_outcome_unknown"[7] != "broker_reconciling"[7];
  }

  /** Any leased state but an unknown outcome may be given up as unknown; execution and reconciliation
      may be given back for another try; only execution goes on to submitting. */
  lemma TransitionsExactly(from: State, to: State)
    ensures CanTransition(from, to) <==>
      || (to == BrokerOutcomeUnknown && from in {Processing, BrokerSubmitting, BrokerReconciling})
      || (to == RetryableError && from in {Processing, BrokerReconciling})
      || (to == BrokerSubmitting && from == Processing)
  {
  }

  /** The owner of a leased record may do what the tables allow; nobody else may do anything. */
  lemma OwnersExactly(r: Record, id: Identity, token: string, to: State)
    requires !r.legacy
    ensures var owns := Names(r, id) && token != "" && r.leaseToken == Some(token);
      var leased := r.state in {Processing, BrokerSubmitting, BrokerOutcomeUnknown, BrokerReconciling};
      && (MayRenew(Some(r), id, token) <==> owns && leased)
      && (MayComplete(Some(r), id, token) <==> owns && leased)
      && (MayRecordAbsence(Some(r), id, token) <==> owns && r.state == BrokerReconciling)
      && (MayTransition(Some(r), id, token, to) <==> owns && CanTransition(r.state, to))
    ensures !MayRenew(None, id, token) && !MayComplete(None, id, token) && !MayRecordAbsence(None, id, token)
         && !MayTransition(None, id, token, to)
  {
  }

  /** A renewal moves the end of the lease and the time of the update, and nothing else. */
  lemma RenewalLeaves(r: Record, id: Identity, token: string, leaseMs: nat, now: int)
    requires MayRenew(Some(r), id, token) && !r.legacy
    ensures var r' := RenewedRecord(r, leaseMs, now);
      && LeasedUntil(r', id, now + leaseMs / 1000) && MayRenew(Some(r'), id, token)
      && r' == r.(leaseExpiresAt := r'.leaseExpiresAt, updatedAt := now)
  {
  }

  /** After a transition the owner holds a fresh lease in the new state, or, given back, everybody may
      claim it at once and the owner may do nothing more. An error that is not empty replaces the last
      one. */
  lemma TransitionLeaves(r: Record, id: Identity, token: string, to: State, leaseMs: nat, error: Option<string>,
                         now: int)
    requires MayTransition(Some(r), id, token, to) && !r.legacy
    ensures var r' := TransitionedRecord(r, to, leaseMs, error, now);
      && r'.state == to && r'.attempt == r.attempt && r'.updatedAt == now && r'.outcome == r.outcome
      && r'.lastError == (if error.Some? && error != Some("") then error else r.lastError)
      && if to == RetryableError
         then !Fenced(Some(r'), id, token)
              && (forall policy, later :: ClaimAnswer(Some(r'), id, policy, later) == Claimed)
         else LeasedUntil(r', id, now + leaseMs / 1000) && Fenced(Some(r'), id, token)
  {
  }

  // ----- completion ---------------------------------------------------------------------------

  /** A completed candidate is given to nobody any more, whatever is asked for, except one that was
      rejected and only to those who ask for those. Its owner may do nothing more. */
  lemma CompletedIsFinal(r: Record, id: Identity, token: string, outcome: string, now: int, policy: ClaimPolicy,
                         later: int, other: string)
    requires MayComplete(Some(r), id, token) && !r.legacy
    ensures var r' := CompletedRecord(r, outcome, now);
      && ClaimAnswer(Some(r'), id, policy, later)
         == (if "rejected:" <= outcome && policy.allowRejectedReclaim then Claimed else AlreadyTerminal)
      && r'.outcome == (if outcome == "" then None else Some(outcome)) && r'.updatedAt == now
      && !Fenced(Some(r'), id, other)
  {
    FirstLetters(outcome);
  }

  /** A completion and an older marker with the same text mean the same state and outcome. */
  lemma OutcomesAgree(r: Record, text: string, now: int)
    requires "ordered:" <= text || "rejected:" <= text
    ensures CompletedRecord(r, text, now).state == Decode(Marker(text)).state
    ensures CompletedRecord(r, text, now).outcome == Decode(Marker(text)).outcome
    ensures "ordered:" <= text ==> CompletedRecord(r, text, now).state == Ordered
  {
    FirstLetters(text);
  }

  // ----- checks for absence -------------------------------------------------------------------

  /** The progress after the owner of the recovery checked at these moments. */
  function Checked(progress: Option<Progress>, id: Identity, interval: int, times: seq<int>): Option<Progress> {
    if times == [] then progress else
    var before := Checked(progress, id, interval, times[..|times| - 1]);
    var now := times[|times| - 1];
    if CheckDue(before, id, interval, now) then Some(NextProgress(before, id, now)) else before
  }

  /** Progress of nobody or of another candidate. */
  predicate NotOwn(progress: Option<Progress>, id: Identity) { progress.Some? ==> progress.value.id != id }

  /** Checks that keep their distance all count, from one when there was no progress of this candidate. */
  lemma {:induction false} SpacedChecksCount(progress: Option<Progress>, id: Identity, interval: int, times: seq<int>)
    requires NotOwn(progress, id) && times != []
    requires forall i | 0 < i < |times| :: times[i] - times[i - 1] >= interval
    ensures Checked(progress, id, interval, times) == Some(Progress(id, |times|, times[|times| - 1]))
  {
    if |times| > 1 { SpacedChecksCount(progress, id, interval, times[..|times| - 1]); }
  }

  /** A check that comes too early changes nothing. */
  lemma EarlyChecksDoNot(progress: Progress, id: Identity, interval: int, now: int)
    requires progress.id == id && now - progress.lastCheckAt < interval
    ensures Checked(Some(progress), id, interval, [now]) == Some(progress)
  {
    assert [now][..0] == [];
  }
}
