/** The execution record of one candidate: its states, their categories, and how
    the text kept in the store is read back. */
module CandidateRecord {
  import opened Common

  datatype State =
    | Published | RetryableError
    | Processing | BrokerSubmitting
    | BrokerOutcomeUnknown | BrokerReconciling
    | Ordered | Completed | Rejected | DryRun
    | Unreadable            // a payload that cannot be decoded
    | Unlisted(name: string) // a structured record in a state no table lists

  predicate Terminal(s: State) { s.Ordered? || s.Completed? || s.Rejected? || s.DryRun? }

  predicate Retryable(s: State) { s.Published? || s.RetryableError? }

  predicate Active(s: State) { s.Processing? || s.BrokerSubmitting? }

  predicate NeedsRecovery(s: State) { s.BrokerOutcomeUnknown? || s.BrokerReconciling? }

  /** The states in which an order may already be at the broker. */
  predicate BrokerUncertain(s: State) { s.BrokerSubmitting? || NeedsRecovery(s) }

  /** States held under a lease. */
  predicate Leased(s: State) { Active(s) || NeedsRecovery(s) }

  predicate CanTransition(from: State, to: State) {
    match from
    case Processing => to.BrokerSubmitting? || to.BrokerOutcomeUnknown? || to.RetryableError?
    case BrokerSubmitting => to.BrokerOutcomeUnknown?
    case BrokerReconciling => to.BrokerOutcomeUnknown? || to.RetryableError?
    case _ => false
  }

  /** The terminal state an outcome text leads to. */
  function OutcomeState(outcome: string): State {
    if "ordered:" <= outcome then Ordered
    else if "rejected:" <= outcome then Rejected
    else Completed
  }

  datatype Record = Record(
    candidateId: Option<string>,
    streamEventId: Option<string>,
    state: State,
    leaseToken: Option<string>,
    leaseExpiresAt: Option<int>,
    attempt: int,
    lastError: Option<string>,
    outcome: Option<string>,
    updatedAt: int,
    legacy: bool)

  /** What a key holds: a JSON object with its fields, a JSON text that does not
      parse, or one of the plain markers older executors wrote. */
  datatype Stored =
    | Json(fields: Fields)
    | BrokenJson
    | Marker(text: string)

  datatype Fields = Fields(
    candidateId: Option<string>,
    streamEventId: Option<string>,
    state: Option<State>,
    leaseToken: Option<string>,
    leaseExpiresAt: Option<int>,
    attempt: Option<int>,
    lastError: Option<string>,
    outcome: Option<string>,
    updatedAt: Option<int>,
    version: Option<int>)

  /** Null and the empty text both read as absent. */
  function NonEmpty(text: Option<string>): Option<string> {
    if text == Some("") then None else text
  }

  function OrZero(n: Option<int>): int { if n.Some? then n.value else 0 }

  function OrEmpty(text: Option<string>): string { if text.Some? then text.value else "" }

  function LegacyRecord(state: State, outcome: Option<string>): Record {
    Record(None, None, state, None, None, 0, None, outcome, 0, true)
  }

  function Decode(raw: Stored): Record {
    match raw
    case BrokenJson => LegacyRecord(Unreadable, None)
    case Json(f) =>
      if f.state.None? || f.version != Some(1) then LegacyRecord(Unreadable, None)
      else Record(NonEmpty(f.candidateId), NonEmpty(f.streamEventId), f.state.value,
                  NonEmpty(f.leaseToken), f.leaseExpiresAt, OrZero(f.attempt),
                  NonEmpty(f.lastError), NonEmpty(f.outcome), OrZero(f.updatedAt), false)
    case Marker(text) =>
      if text == "published" then LegacyRecord(Published, None)
      else if text == "processing" then LegacyRecord(Processing, None)
      else if text == "dry_run" then LegacyRecord(DryRun, Some(text))
      else if "ordered:" <= text then LegacyRecord(Ordered, Some(text))
      else if "rejected:" <= text then LegacyRecord(Rejected, Some(text))
      else if "flip_pending:" <= text then LegacyRecord(Completed, Some(text))
      else LegacyRecord(Unreadable, None)
  }

  function Encode(r: Record): Stored {
    Json(Fields(Some(OrEmpty(r.candidateId)), r.streamEventId, Some(r.state), r.leaseToken,
                r.leaseExpiresAt, Some(r.attempt), r.lastError, r.outcome, Some(r.updatedAt), Some(1)))
  }

  /** No field holds an empty text: how every record read from the store looks. */
  predicate Normal(r: Record) {
    && r.candidateId != Some("") && r.streamEventId != Some("") && r.leaseToken != Some("")
    && r.lastError != Some("") && r.outcome != Some("")
  }

  /** Reading back what was written returns the record, apart from the legacy mark
      that a structured write removes. */
  lemma DecodeEncode(r: Record)
    requires Normal(r)
    ensures Decode(Encode(r)) == r.(legacy := false)
  {
    if r.candidateId.None? { assert NonEmpty(Some("")) == None; }
  }

  lemma DecodeNormal(raw: Stored)
    ensures Normal(Decode(raw))
    ensures Decode(raw).legacy ==> Decode(raw).leaseToken.None?
  {
    match raw
    case Json(_) =>
    case BrokenJson =>
    case Marker(text) =>
  }

  datatype Identity = Identity(candidateId: string, streamEventId: string)

  /** A structured record of a candidate, as the scripts write it. */
  function RecordOf(id: Identity, state: State, lease: Option<(string, int)>, attempt: int,
                    error: Option<string>, at: int): Record {
    Record(Some(id.candidateId), Some(id.streamEventId), state,
           if lease.Some? then Some(lease.value.0) else None, if lease.Some? then Some(lease.value.1) else None,
           attempt, error, None, at, false)
  }

  /** A structured record must carry exactly the caller's identity; a legacy marker
      carries none and matches everyone. */
  predicate IdentityMatches(r: Record, id: Identity) {
    r.legacy
    || (&& r.candidateId == Some(id.candidateId) && id.candidateId != ""
        && r.streamEventId == Some(id.streamEventId) && id.streamEventId != "")
  }

  predicate OwnsLease(r: Record, token: string) {
    token != "" && r.leaseToken == Some(token)
  }
}
