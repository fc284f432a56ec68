/** Whole runs of the store scripts on one candidate: any number of workers, crashes (a
    worker that calls nothing more), arbitrary waiting, and key expiry. */
module LeaseProtocol {
  import opened Common
  import opened CandidateRecord
  import opened CandidateScripts

  /** `evicts`: the candidate key disappears when its time to live runs out, as the store
      really behaves. Without it the record is kept until it is rewritten, which is what
      the recovery design assumes. */
  datatype Config = Config(id: Identity, evicts: bool, interval: nat)

  /** One successful claim: its token, when it was made, and until when its lease ran or
      runs. Renewals and transitions extend it, a release or a completion ends it. */
  datatype Claim = Claim(token: string, since: int, until: int, recovery: bool)

  /** One recorded absence check. */
  datatype Check = Check(at: int, token: string)

  datatype Sys = Sys(
    clockMs: nat,
    record: Option<Record>,
    goneAfter: int,
    progress: Option<Progress>,
    progressGoneAfter: int,
    claims: seq<Claim>,   // every claim so far, oldest first
    checks: seq<Check>)   // the absence checks recorded since progress was last cleared

  datatype Call =
    | Elapse(ms: nat)
    | Acquire(token: string, policy: ClaimPolicy)
    | Renew(token: string)
    | Transition(token: string, to: State, error: Option<string>)
    | Complete(token: string, outcome: string)
    | RecordAbsence(token: string, ttlMs: nat)
    | ClearProgress

  function Now(s: Sys): int { s.clockMs / 1000 }

  function View(cfg: Config, s: Sys): Option<Record> {
    if cfg.evicts && s.clockMs > s.goneAfter then None else s.record
  }

  function ProgressView(s: Sys): Option<Progress> {
    if s.clockMs > s.progressGoneAfter then None else s.progress
  }

  function Tokens(claims: seq<Claim>): set<string> { set c | c in claims :: c.token }

  /** Lease tokens are drawn at random from 24 bytes: no two claims share one. The
      rejected-reclaim relaxation belongs to flip rendezvous keys only. */
  predicate Enabled(s: Sys, c: Call) {
    c.Acquire? ==> c.token != "" && c.token !in Tokens(s.claims) && !c.policy.allowRejectedReclaim
  }

  predicate TakesEffect(cfg: Config, s: Sys, c: Call) {
    match c
    case Elapse(_) => true
    case ClearProgress => true
    case Acquire(token, policy) => ClaimAnswer(View(cfg, s), cfg.id, policy, Now(s)).Claimed?
    case Renew(token) => MayRenew(View(cfg, s), cfg.id, token)
    case Transition(token, to, _) => MayTransition(View(cfg, s), cfg.id, token, to)
    case Complete(token, _) => MayComplete(View(cfg, s), cfg.id, token)
    case RecordAbsence(token, _) =>
      MayRecordAbsence(View(cfg, s), cfg.id, token) && CheckDue(ProgressView(s), cfg.id, cfg.interval, Now(s))
  }

  function Extend(claims: seq<Claim>, token: string, until: int): seq<Claim> {
    seq(|claims|, i requires 0 <= i < |claims| =>
      if claims[i].token == token then claims[i].(until := until) else claims[i])
  }

  function End(claims: seq<Claim>, token: string, now: int): seq<Claim> {
    seq(|claims|, i requires 0 <= i < |claims| =>
      if claims[i].token == token && now < claims[i].until then claims[i].(until := now) else claims[i])
  }

  function Next(cfg: Config, s: Sys, c: Call): Sys {
    var now := Now(s);
    if !TakesEffect(cfg, s, c) then s else
    match c
    case Elapse(ms) => s.(clockMs := s.clockMs + ms)
    case Acquire(token, policy) =>
      var r := ClaimedRecord(View(cfg, s), cfg.id, token, LEASE_MS, now);
      s.(record := Some(r), goneAfter := s.clockMs + LEASE_MS,
         claims := s.claims + [Claim(token, now, now + LEASE_MS / 1000, TakesOverRecovery(View(cfg, s)))])
    case Renew(token) =>
      s.(record := Some(RenewedRecord(View(cfg, s).value, LEASE_MS, now)), goneAfter := s.clockMs + LEASE_MS,
         claims := Extend(s.claims, token, now + LEASE_MS / 1000))
    case Transition(token, to, error) =>
      s.(record := Some(TransitionedRecord(View(cfg, s).value, to, LEASE_MS, error, now)),
         goneAfter := s.clockMs + RECORD_TTL_MS,
         claims := if to.RetryableError? then End(s.claims, token, now)
                   else Extend(s.claims, token, now + LEASE_MS / 1000))
    case Complete(token, outcome) =>
      s.(record := Some(CompletedRecord(View(cfg, s).value, outcome, now)), goneAfter := s.clockMs + RECORD_TTL_MS,
         claims := End(s.claims, token, now))
    case RecordAbsence(token, ttlMs) =>
      s.(progress := Some(NextProgress(ProgressView(s), cfg.id, now)), progressGoneAfter := s.clockMs + ttlMs,
         checks := (if ProgressOf(ProgressView(s), cfg.id).Some? then s.checks else []) + [Check(now, token)])
    case ClearProgress => s.(progress := None, checks := [])
  }

  /** A candidate enters with no record, a published one, an older marker, or a record
      nobody holds. */
  predicate Init(s: Sys) {
    && s.claims == [] && s.checks == [] && s.progress == None
    && (s.record.Some? ==> s.record.value.leaseToken.None? && (Leased(s.record.value.state) ==> s.record.value.legacy))
  }

  predicate Trace(cfg: Config, tr: seq<Sys>, calls: seq<Call>) {
    && |tr| == |calls| + 1 && Init(tr[0])
    && forall i | 0 <= i < |calls| :: Enabled(tr[i], calls[i]) && tr[i + 1] == Next(cfg, tr[i], calls[i])
  }

  // ----- the invariant of every run ---------------------------------------------------

  function Last(claims: seq<Claim>): Claim requires claims != [] { claims[|claims| - 1] }

  predicate ClaimsInOrder(claims: seq<Claim>, now: int) {
    && (forall i | 0 <= i < |claims| ::
          claims[i].token != "" && claims[i].since <= now && claims[i].since <= claims[i].until)
    && (forall i, j | 0 <= i < j < |claims| ::
          claims[i].token != claims[j].token && claims[i].until <= claims[j].since)
  }

  /** A lease is out: the record carries the latest claim and outlives it. */
  predicate HeldByLatest(s: Sys, r: Record) {
    && s.claims != [] && r.leaseToken == Some(Last(s.claims).token)
    && r.leaseExpiresAt == Some(Last(s.claims).until)
    && s.goneAfter >= 1000 * Last(s.claims).until
    && (r.state.BrokerReconciling? ==> Last(s.claims).recovery)
    && (Active(r.state) ==> !Last(s.claims).recovery)
  }

  predicate LeaseOut(s: Sys) { s.record.Some? && Leased(s.record.value.state) && !s.record.value.legacy }

  predicate Inv(s: Sys) {
    && ClaimsInOrder(s.claims, Now(s))
    && (LeaseOut(s) ==> HeldByLatest(s, s.record.value))
    && (!LeaseOut(s) ==> && (s.record.Some? ==> s.record.value.leaseToken.None?)
                         && (s.claims != [] ==> Last(s.claims).until <= Now(s)))
    && (s.record.Some? && s.record.value.legacy ==> s.claims == [])
  }

  /** Whoever passes the fence is the latest claimant. */
  lemma FencedIsLatest(cfg: Config, s: Sys, token: string)
    requires Inv(s) && Fenced(View(cfg, s), cfg.id, token)
    ensures LeaseOut(s) && token == Last(s.claims).token
    ensures forall i | 0 <= i < |s.claims| - 1 :: s.claims[i].token != token
  {
  }

  lemma ExtendLatest(s: Sys, until: int)
    requires ClaimsInOrder(s.claims, Now(s)) && s.claims != [] && until >= Now(s)
    ensures Extend(s.claims, Last(s.claims).token, until)
            == s.claims[|s.claims| - 1 := Last(s.claims).(until := until)]
    ensures ClaimsInOrder(Extend(s.claims, Last(s.claims).token, until), Now(s))
  {
  }

  lemma EndLatest(s: Sys)
    requires ClaimsInOrder(s.claims, Now(s)) && s.claims != []
    ensures ClaimsInOrder(End(s.claims, Last(s.claims).token, Now(s)), Now(s))
    ensures Last(End(s.claims, Last(s.claims).token, Now(s))).until <= Now(s)
  {
  }

  /** Nobody claims a candidate before the previous lease has run out or was given up. */
  lemma ClaimComesAfter(cfg: Config, s: Sys, token: string, policy: ClaimPolicy)
    requires Inv(s) && Enabled(s, Acquire(token, policy)) && TakesEffect(cfg, s, Acquire(token, policy))
    ensures s.claims != [] ==> Last(s.claims).until <= Now(s)
  {
    if LeaseOut(s) && View(cfg, s).None? {
      assert s.clockMs > 1000 * Last(s.claims).until;
    }
  }

  lemma AcquireStep(cfg: Config, s: Sys, token: string, policy: ClaimPolicy)
    requires Inv(s) && Enabled(s, Acquire(token, policy)) && TakesEffect(cfg, s, Acquire(token, policy))
    ensures Inv(Next(cfg, s, Acquire(token, policy)))
  {
    ClaimComesAfter(cfg, s, token, policy);
    var s' := Next(cfg, s, Acquire(token, policy));
    forall i, j | 0 <= i < j < |s'.claims|
      ensures s'.claims[i].token != s'.claims[j].token && s'.claims[i].until <= s'.claims[j].since
    {
      if j == |s.claims| {
        assert s.claims[i] in s.claims;
        if i < j - 1 { assert s.claims[i].until <= s.claims[j - 1].since; }
      }
    }
  }

  lemma RenewStep(cfg: Config, s: Sys, token: string)
    requires Inv(s) && TakesEffect(cfg, s, Renew(token))
    ensures Inv(Next(cfg, s, Renew(token)))
  {
    FencedIsLatest(cfg, s, token);
    ExtendLatest(s, Now(s) + LEASE_MS / 1000);
  }

  lemma TransitionStep(cfg: Config, s: Sys, token: string, to: State, error: Option<string>)
    requires Inv(s) && TakesEffect(cfg, s, Transition(token, to, error))
    ensures Inv(Next(cfg, s, Transition(token, to, error)))
  {
    FencedIsLatest(cfg, s, token);
    if to.RetryableError? { EndLatest(s); } else { ExtendLatest(s, Now(s) + LEASE_MS / 1000); }
  }

  lemma CompleteStep(cfg: Config, s: Sys, token: string, outcome: string)
    requires Inv(s) && TakesEffect(cfg, s, Complete(token, outcome))
    ensures Inv(Next(cfg, s, Complete(token, outcome)))
  {
    FencedIsLatest(cfg, s, token);
    EndLatest(s);
  }

  lemma QuietStep(cfg: Config, s: Sys, c: Call)
    requires Inv(s) && (c.Elapse? || c.ClearProgress? || c.RecordAbsence?)
    ensures Inv(Next(cfg, s, c))
  {
  }

  lemma InvStep(cfg: Config, s: Sys, c: Call)
    requires Inv(s) && Enabled(s, c)
    ensures Inv(Next(cfg, s, c))
  {
    if TakesEffect(cfg, s, c) {
      match c
      case Elapse(_) => QuietStep(cfg, s, c);
      case ClearProgress => QuietStep(cfg, s, c);
      case RecordAbsence(_, _) => QuietStep(cfg, s, c);
      case Acquire(token, policy) => AcquireStep(cfg, s, token, policy);
      case Renew(token) => RenewStep(cfg, s, token);
      case Transition(token, to, error) => TransitionStep(cfg, s, token, to, error);
      case Complete(token, outcome) => CompleteStep(cfg, s, token, outcome);
    }
  }

  lemma {:induction false} InvAlways(cfg: Config, tr: seq<Sys>, calls: seq<Call>, i: nat)
    requires Trace(cfg, tr, calls) && i < |tr|
    ensures Inv(tr[i])
  {
    if i > 0 {
      InvAlways(cfg, tr, calls, i - 1);
      InvStep(cfg, tr[i - 1], calls[i - 1]);
    }
  }

  // ----- fencing and disjoint leases --------------------------------------------------

  predicate TokenCall(c: Call) { c.Renew? || c.Transition? || c.Complete? || c.RecordAbsence? }

  /** In every run, eviction or not: a renewal, transition, completion or absence record
      takes effect only for the latest claimant, and no earlier claimant shares its token. */
  lemma OnlyTheLatestClaimantActs(cfg: Config, tr: seq<Sys>, calls: seq<Call>, i: nat)
    requires Trace(cfg, tr, calls) && i < |calls|
    requires TokenCall(calls[i]) && TakesEffect(cfg, tr[i], calls[i])
    ensures tr[i].claims != [] && calls[i].token == Last(tr[i].claims).token
    ensures forall k | 0 <= k < |tr[i].claims| - 1 :: tr[i].claims[k].token != calls[i].token
  {
    InvAlways(cfg, tr, calls, i);
    FencedIsLatest(cfg, tr[i], calls[i].token);
  }

  /** In every run, eviction or not: the lease of an earlier claim has run out, or was given
      up, when a later claim is made. */
  lemma LeasesNeverOverlap(cfg: Config, tr: seq<Sys>, calls: seq<Call>, i: nat, j: nat, k: nat)
    requires Trace(cfg, tr, calls) && i < |tr| && j < k < |tr[i].claims|
    ensures tr[i].claims[j].until <= tr[i].claims[k].since
  {
    InvAlways(cfg, tr, calls, i);
  }

  // ----- no silent return to normal execution -----------------------------------------

  /** The claim that released the candidate was a recovery claim, the latest one, and it
      released from `broker_reconciling`. */
  predicate RecoveryRelease(cfg: Config, s: Sys, c: Call) {
    && c.Transition? && c.to.RetryableError? && TakesEffect(cfg, s, c)
    && View(cfg, s).value.state.BrokerReconciling?
    && s.claims != [] && Last(s.claims).recovery && c.token == Last(s.claims).token
  }

  predicate InState(s: Sys, p: State -> bool) { s.record.Some? && p(s.record.value.state) }

  /** A claim made after the candidate's key has run out. */
  predicate ClaimsGoneKey(cfg: Config, s: Sys, c: Call) { cfg.evicts && c.Acquire? && s.clockMs > s.goneAfter }

  /** Such a claim is granted to anybody, as a normal one: the candidate starts over. */
  lemma GoneKeyRestarts(cfg: Config, s: Sys, c: Call)
    requires ClaimsGoneKey(cfg, s, c)
    ensures TakesEffect(cfg, s, c)
    ensures var s' := Next(cfg, s, c);
      && s'.record.Some? && s'.record.value.state.Processing?
      && !Last(s'.claims).recovery && Last(s'.claims).token == c.token
  {
  }

  /** One step out of the broker-uncertain states either stays there, ends the candidate, is a
      release by the current recovery owner, or claims a key that has run out. */
  lemma UncertainStep(cfg: Config, s: Sys, c: Call)
    requires Inv(s) && Enabled(s, c)
    requires s.record.Some? && !s.record.value.legacy
    requires BrokerUncertain(s.record.value.state) || Terminal(s.record.value.state)
    ensures var r := Next(cfg, s, c).record;
      && r.Some? && !r.value.legacy
      && (|| BrokerUncertain(r.value.state) || Terminal(r.value.state) || RecoveryRelease(cfg, s, c)
          || ClaimsGoneKey(cfg, s, c))
  {
    if TokenCall(c) && TakesEffect(cfg, s, c) { FencedIsLatest(cfg, s, c.token); }
  }

  /** With or without key expiry, every run from a state in which an order may be at the broker back
      to normal execution contains a release by the current recovery owner, or a claim made after
      the key has run out. */
  lemma RetryTakesReleaseOrEviction(cfg: Config, tr: seq<Sys>, calls: seq<Call>, i: nat, j: nat)
    requires Trace(cfg, tr, calls) && i <= j < |tr|
    requires InState(tr[i], (s: State) => BrokerUncertain(s)) && !tr[i].record.value.legacy
    requires InState(tr[j], (s: State) => s.Processing? || Retryable(s))
    ensures exists k | i <= k < j :: RecoveryRelease(cfg, tr[k], calls[k]) || ClaimsGoneKey(cfg, tr[k], calls[k])
  {
    var k := i;
    while !RecoveryRelease(cfg, tr[k], calls[k]) && !ClaimsGoneKey(cfg, tr[k], calls[k])
      invariant i <= k < j
      invariant tr[k].record.Some? && !tr[k].record.value.legacy
      invariant BrokerUncertain(tr[k].record.value.state) || Terminal(tr[k].record.value.state)
      decreases j - k
    {
      InvAlways(cfg, tr, calls, k);
      UncertainStep(cfg, tr[k], calls[k]);
      k := k + 1;
    }
  }

  /** Without key expiry, every run from a state in which an order may be at the broker back
      to normal execution passes through a release out of `broker_reconciling`, made by the
      current recovery owner. */
  lemma NoSilentRetry(cfg: Config, tr: seq<Sys>, calls: seq<Call>, i: nat, j: nat)
    requires Trace(cfg, tr, calls) && !cfg.evicts && i <= j < |tr|
    requires InState(tr[i], (s: State) => BrokerUncertain(s)) && !tr[i].record.value.legacy
    requires InState(tr[j], (s: State) => s.Processing? || Retryable(s))
    ensures exists k | i <= k < j :: RecoveryRelease(cfg, tr[k], calls[k])
  {
    RetryTakesReleaseOrEviction(cfg, tr, calls, i, j);
  }

  /** No script changes the record of an ended candidate while it lasts. */
  lemma EndedStep(cfg: Config, s: Sys, c: Call)
    requires Enabled(s, c) && s.record.Some? && Terminal(s.record.value.state)
    requires cfg.evicts ==> s.clockMs <= s.goneAfter
    ensures Next(cfg, s, c).record == s.record && Next(cfg, s, c).goneAfter == s.goneAfter
  {
  }

  lemma {:induction false} ClockOnlyRuns(cfg: Config, tr: seq<Sys>, calls: seq<Call>, i: nat, j: nat)
    requires Trace(cfg, tr, calls) && i <= j < |tr|
    ensures tr[i].clockMs <= tr[j].clockMs
  {
    if i < j { ClockOnlyRuns(cfg, tr, calls, i, j - 1); }
  }

  /** In every run an ended candidate stays exactly as it ended: for good, or with key expiry until the
      key runs out. */
  lemma {:induction false} EndIsFinal(cfg: Config, tr: seq<Sys>, calls: seq<Call>, i: nat, j: nat)
    requires Trace(cfg, tr, calls) && i <= j < |tr|
    requires tr[i].record.Some? && Terminal(tr[i].record.value.state)
    requires cfg.evicts ==> tr[j].clockMs <= tr[i].goneAfter
    ensures tr[j].record == tr[i].record && tr[j].goneAfter == tr[i].goneAfter
  {
    if i < j {
      ClockOnlyRuns(cfg, tr, calls, j - 1, j);
      EndIsFinal(cfg, tr, calls, i, j - 1);
      EndedStep(cfg, tr[j - 1], calls[j - 1]);
    }
  }

  // ----- what key expiry changes ------------------------------------------------------

  /** With key expiry, a candidate left alone in a broker-uncertain state is handed out for
      normal execution exactly when its key has run out. */
  lemma RestartsExactlyAfterEviction(cfg: Config, s: Sys, idleMs: nat)
    requires cfg.evicts && Inv(s) && s.record.Some? && !s.record.value.legacy
    requires BrokerUncertain(s.record.value.state) && IdentityMatches(s.record.value, cfg.id)
    ensures var later := Next(cfg, s, Elapse(idleMs));
      ClaimAnswer(View(cfg, later), cfg.id, DEFAULT_POLICY, Now(later)).Claimed? <==> s.clockMs + idleMs > s.goneAfter
  {
  }

  function EvictionRecord(id: Identity, state: State): Record {
    Record(Some(id.candidateId), Some(id.streamEventId), state, Some("a"), Some(120), 1, None, None, 0, false)
  }

  function EvictionCalls(): seq<Call> {
    [Acquire("a", DEFAULT_POLICY), Transition("a", BrokerSubmitting, None), Renew("a"),
     Elapse(120_001), Acquire("b", DEFAULT_POLICY)]
  }

  function EvictionRun(id: Identity): seq<Sys> {
    var first := Claim("a", 0, 120, false);
    [Sys(0, None, 0, None, 0, [], []),
     Sys(0, Some(EvictionRecord(id, Processing)), 120_000, None, 0, [first], []),
     Sys(0, Some(EvictionRecord(id, BrokerSubmitting)), RECORD_TTL_MS, None, 0, [first], []),
     Sys(0, Some(EvictionRecord(id, BrokerSubmitting)), 120_000, None, 0, [first], []),
     Sys(120_001, Some(EvictionRecord(id, BrokerSubmitting)), 120_000, None, 0, [first], []),
     Sys(120_001, Some(EvictionRecord(id, Processing).(leaseToken := Some("b"), leaseExpiresAt := Some(240),
                                                       updatedAt := 120)),
         240_001, None, 0, [first, Claim("b", 120, 240, false)], [])]
  }

  lemma EvictionStart(id: Identity, cfg: Config)
    requires id.candidateId != "" && id.streamEventId != "" && cfg == Config(id, true, 3)
    ensures Enabled(EvictionRun(id)[0], EvictionCalls()[0])
    ensures Next(cfg, EvictionRun(id)[0], EvictionCalls()[0]) == EvictionRun(id)[1]
  {
  }

  lemma EvictionSubmit(id: Identity, cfg: Config)
    requires id.candidateId != "" && id.streamEventId != "" && cfg == Config(id, true, 3)
    ensures Next(cfg, EvictionRun(id)[1], EvictionCalls()[1]) == EvictionRun(id)[2]
  {
    assert Extend([Claim("a", 0, 120, false)], "a", 120) == [Claim("a", 0, 120, false)];
  }

  lemma EvictionRenew(id: Identity, cfg: Config)
    requires id.candidateId != "" && id.streamEventId != "" && cfg == Config(id, true, 3)
    ensures Next(cfg, EvictionRun(id)[2], EvictionCalls()[2]) == EvictionRun(id)[3]
    ensures Next(cfg, EvictionRun(id)[3], EvictionCalls()[3]) == EvictionRun(id)[4]
  {
    assert Extend([Claim("a", 0, 120, false)], "a", 120) == [Claim("a", 0, 120, false)];
  }

  lemma EvictionRestart(id: Identity, cfg: Config)
    requires id.candidateId != "" && id.streamEventId != "" && cfg == Config(id, true, 3)
    ensures Enabled(EvictionRun(id)[4], EvictionCalls()[4])
    ensures Next(cfg, EvictionRun(id)[4], EvictionCalls()[4]) == EvictionRun(id)[5]
  {
    var s := EvictionRun(id)[4];
    assert forall c | c in s.claims :: c.token == "a";
    assert View(cfg, s).None?;
  }

  /** A worker submits, its heartbeat renews once, it crashes: two minutes later the key is
      gone and the candidate starts over, with no recovery in between. */
  lemma EvictionLosesTheCandidate(id: Identity)
    requires id.candidateId != "" && id.streamEventId != ""
    ensures Trace(Config(id, true, 3), EvictionRun(id), EvictionCalls())
    ensures InState(EvictionRun(id)[3], (s: State) => s.BrokerSubmitting?)
    ensures InState(EvictionRun(id)[5], (s: State) => s.Processing?)
    ensures forall k | 3 <= k < 5 :: !RecoveryRelease(Config(id, true, 3), EvictionRun(id)[k], EvictionCalls()[k])
  {
    var cfg := Config(id, true, 3);
    EvictionStart(id, cfg);
    EvictionSubmit(id, cfg);
    EvictionRenew(id, cfg);
    EvictionRestart(id, cfg);
  }
}
