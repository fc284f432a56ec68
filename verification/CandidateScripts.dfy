/** When each store script takes effect, and the record it leaves behind. The class
    CandidateStore runs the scripts step by step against these definitions; the run
    models build on them. */
module CandidateScripts {
  import opened Common
  import opened CandidateRecord

  /** The relaxations a caller may ask for when it claims a candidate. */
  datatype ClaimPolicy = ClaimPolicy(
    allowRejectedReclaim: bool,
    allowBrokerSubmittingReclaim: bool,
    allowRecoveryAdoption: bool)

  const DEFAULT_POLICY := ClaimPolicy(false, false, false)
  const RECOVERY_POLICY := ClaimPolicy(false, true, true)

  /** Two minutes: the window every transition and every claim of the engine uses. */
  const LEASE_MS: nat := 120_000
  /** Seven days: the lifetime of a record written by a transition or completion. */
  const RECORD_TTL_MS: nat := 604_800_000

  datatype ClaimCode = Claimed | ActiveElsewhere | AlreadyTerminal | RecoveryRequired | Conflict

  predicate Expired(r: Record, now: int) { r.leaseExpiresAt.Some? && r.leaseExpiresAt.value <= now }

  /** A claim that takes the record over for broker reconciliation. */
  predicate TakesOverRecovery(view: Option<Record>) {
    view.Some? && BrokerUncertain(view.value.state)
  }

  predicate Conflicts(r: Record, id: Identity) {
    r.state.Unreadable? || r.state.Unlisted? || !IdentityMatches(r, id)
  }

  /** Someone may still be working under the lease the record carries. */
  predicate HeldElsewhere(r: Record, now: int) {
    if NeedsRecovery(r.state) then r.leaseExpiresAt.Some? && r.leaseExpiresAt.value > now
    else r.legacy || !Expired(r, now)
  }

  /** What a claim is answered, as a function of the record it finds. */
  function ClaimAnswer(view: Option<Record>, id: Identity, policy: ClaimPolicy, now: int): ClaimCode {
    if view.None? then Claimed else
    var r := view.value;
    if Conflicts(r, id) then Conflict
    else if Terminal(r.state) then
      (if policy.allowRejectedReclaim && r.state.Rejected? then Claimed else AlreadyTerminal)
    else if Retryable(r.state) then Claimed
    else if NeedsRecovery(r.state) && !policy.allowRecoveryAdoption then RecoveryRequired
    else if HeldElsewhere(r, now) then ActiveElsewhere
    else if r.state.BrokerSubmitting? && !policy.allowBrokerSubmittingReclaim then RecoveryRequired
    else Claimed
  }

  function StateName(s: State): string {
    match s
    case BrokerSubmitting => "broker_submitting"
    case BrokerOutcomeUnknown => "broker_outcome_unknown"
    case BrokerReconciling => "broker_reconciling"
    case _ => ""
  }

  function ClaimedRecord(view: Option<Record>, id: Identity, token: string, leaseMs: nat, now: int): Record {
    Record(Some(id.candidateId),
           NonEmpty(Some(id.streamEventId)),
           if TakesOverRecovery(view) then BrokerReconciling else Processing,
           Some(token),
           Some(now + leaseMs / 1000),
           1 + (if view.Some? then view.value.attempt else 0),
           if TakesOverRecovery(view) then Some(StateName(view.value.state)) else None,
           None,
           now,
           false)
  }

  /** A claimed record is read back as it was written, unless the claimant names nothing. */
  lemma ClaimedReadsBack(view: Option<Record>, id: Identity, token: string, leaseMs: nat, now: int)
    ensures var r := ClaimedRecord(view, id, token, leaseMs, now);
      id.candidateId != "" && token != "" ==> Decode(Encode(r)) == r
  {
    if id.candidateId != "" && token != "" {
      DecodeEncode(ClaimedRecord(view, id, token, leaseMs, now));
    }
  }

  /** The fence every later mutation passes: same identity, same token. */
  predicate Fenced(view: Option<Record>, id: Identity, token: string) {
    && view.Some? && !view.value.state.Unreadable?
    && IdentityMatches(view.value, id) && OwnsLease(view.value, token)
  }

  predicate MayRenew(view: Option<Record>, id: Identity, token: string) {
    Fenced(view, id, token) && Leased(view.value.state)
  }

  function RenewedRecord(r: Record, leaseMs: nat, now: int): Record {
    r.(leaseExpiresAt := Some(now + leaseMs / 1000), updatedAt := now)
  }

  predicate MayTransition(view: Option<Record>, id: Identity, token: string, to: State) {
    Fenced(view, id, token) && CanTransition(view.value.state, to)
  }

  function TransitionedRecord(r: Record, to: State, leaseMs: nat, lastError: Option<string>, now: int): Record {
    var moved := r.(state := to, updatedAt := now,
                    lastError := if NonEmpty(lastError).Some? then lastError else r.lastError);
    if to.RetryableError? then moved.(leaseToken := None, leaseExpiresAt := None)
    else moved.(leaseExpiresAt := Some(now + leaseMs / 1000))
  }

  predicate MayComplete(view: Option<Record>, id: Identity, token: string) {
    Fenced(view, id, token) && Leased(view.value.state)
  }

  function CompletedRecord(r: Record, outcome: string, now: int): Record {
    r.(state := OutcomeState(outcome), outcome := NonEmpty(Some(outcome)),
       leaseToken := None, leaseExpiresAt := None, updatedAt := now)
  }

  /** Durable progress towards confirming that the broker holds no order. */
  datatype Progress = Progress(id: Identity, confirmations: int, lastCheckAt: int)

  predicate MayRecordAbsence(view: Option<Record>, id: Identity, token: string) {
    Fenced(view, id, token) && view.value.state.BrokerReconciling?
  }

  /** Progress of another candidate or another stream event does not count. */
  function ProgressOf(progress: Option<Progress>, id: Identity): Option<Progress> {
    if progress.Some? && progress.value.id == id then progress else None
  }

  /** The interval since the previous recorded check has passed, or there was none. */
  predicate CheckDue(progress: Option<Progress>, id: Identity, interval: int, now: int) {
    var p := ProgressOf(progress, id);
    p.None? || now - p.value.lastCheckAt >= interval
  }

  function NextProgress(progress: Option<Progress>, id: Identity, now: int): Progress {
    var p := ProgressOf(progress, id);
    Progress(id, 1 + (if p.Some? then p.value.confirmations else 0), now)
  }
}
