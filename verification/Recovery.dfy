/** Executors, recovery workers and the broker, over whole runs: at most one claim of a
    candidate ever gets an order accepted. The record is kept until rewritten (no key
    expiry), and a snapshot with its recorded check is one step. The gate before a broker call is
    taken step by step: what it reads may be as old as anything else, as long as it reads within
    a lease. Releasing a candidate and clearing its absence progress are two steps, and a worker
    may crash between them, as long as the progress is gone when the gate is passed again. */
module Recovery {
  import opened Common
  import opened CandidateRecord
  import opened CandidateScripts
  import opened LeaseProtocol
  import opened AbsenceQuorum
  import opened Adoption
  import Arith

  /** `required`: the number of confirmations that prove absence. `expectedIds`: the client
      order ids the candidate's orders carry. */
  datatype Setup = Setup(cfg: Config, required: nat, expectedIds: seq<string>, candidateToken: string)

  predicate ValidSetup(p: Setup) { !p.cfg.evicts && p.required >= 1 }

  /** The visibility window the quorum gives the broker, in seconds. */
  function Window(p: Setup): int { (p.required - 1) * p.cfg.interval }

  /** An order sent to the broker: under which claim, when that claim was last verified, and
      whether the broker took it. */
  datatype Submission = Submission(token: string, orderId: string, checkedAt: int, accepted: bool)

  datatype World = World(
    sys: Sys,
    renewed: map<string, int>,     // when each claim in the gate renewed its lease
    gated: map<string, int>,       // last ownership check of every claim that passed the gate
    submissions: seq<Submission>,
    emptySnapshots: seq<int>,      // when a snapshot without a related object was taken
    quorum: set<string>)           // recovery claims whose last check completed the quorum

  datatype Event =
    | Wait(ms: nat)
    | Claim(token: string, policy: ClaimPolicy)
    | Heartbeat(token: string)
    | GateRenew(token: string)
    | GateRead(token: string)
    | GateEnter(token: string)
    | Recheck(token: string)
    | Submit(token: string, orderId: string, accepted: bool)
    | MarkUnknown(token: string)
    | Finish(token: string, outcome: string)
    | ReleaseRetryable(token: string)
    | EmptySnapshot(token: string, ttlMs: nat, objects: seq<BrokerObject>)
    | ReleaseAbsent(token: string)
    | ClearAbsence

  const LEASE_SECONDS: int := LEASE_MS / 1000

  // The ownership gate before a broker call: renew the lease; read the record; let the caller
  // through if it reads `broker_submitting`, without looking at the token; else ask for that
  // state, which the store grants the owner only.

  function Enter(token: string): Call { Transition(token, BrokerSubmitting, None) }

  predicate PassesGate(p: Setup, w: World, e: Event) {
    || (e.GateRead? && w.sys.record.Some? && w.sys.record.value.state.BrokerSubmitting?)
    || (e.GateEnter? && TakesEffect(p.cfg, w.sys, Enter(e.token)))
  }

  /** The caller reads before a lease has passed since it renewed. */
  predicate Timely(w: World, e: Event) {
    e.GateRead? && e.token in w.renewed ==> Now(w.sys) < w.renewed[e.token] + LEASE_SECONDS
  }

  /** No counted check of an earlier recovery is left when a claim passes the gate. */
  predicate ClearedFirst(p: Setup, w: World, e: Event) {
    PassesGate(p, w, e) ==> ProgressView(w.sys).None?
  }

  predicate NormalClaim(s: Sys, token: string) {
    exists i | 0 <= i < |s.claims| :: s.claims[i].token == token && !s.claims[i].recovery
  }

  /** The broker object an accepted order turned into: it reports the order's id, or reports
      no id and keeps the comment the order was sent with. */
  predicate Carries(p: Setup, o: BrokerObject, orderId: string) {
    (orderId != "" && o.clientOrderId == orderId)
    || (o.clientOrderId == "" && Contains(o.comment, p.candidateToken))
  }

  /** What the executors do, and what the broker is assumed to do: an order it accepts is in
      every snapshot taken at least `Window` seconds after the ownership check it was sent
      under, no matter how late the request itself arrives. */
  predicate May(p: Setup, w: World, e: Event) {
    match e
    case Claim(token, policy) => Enabled(w.sys, Acquire(token, policy))
    case GateRead(token) => token in w.renewed
    case Recheck(token) => token in w.gated
    case Submit(token, orderId, accepted) =>
      token in w.gated && orderId in p.expectedIds
      && (accepted ==> forall at | at in w.emptySnapshots :: at < w.gated[token] + Window(p))
    case ReleaseRetryable(token) => NormalClaim(w.sys, token)
    case EmptySnapshot(_, _, objects) =>
      && (forall o | o in objects :: !Adoptable(o, p.expectedIds, p.candidateToken)
                                     && !Foreign(o, p.expectedIds, p.candidateToken))
      && (forall sent | sent in w.submissions && sent.accepted && Now(w.sys) >= sent.checkedAt + Window(p) ::
            exists o | o in objects :: Carries(p, o, sent.orderId))
    case ReleaseAbsent(token) => token in w.quorum
    case _ => true
  }

  function After(p: Setup, w: World, e: Event): World {
    var s := w.sys;
    match e
    case Wait(ms) => w.(sys := Next(p.cfg, s, Elapse(ms)))
    case Claim(token, policy) => w.(sys := Next(p.cfg, s, Acquire(token, policy)))
    case Heartbeat(token) => w.(sys := Next(p.cfg, s, Renew(token)))
    case GateRenew(token) =>
      w.(sys := Next(p.cfg, s, Renew(token)),
         renewed := if TakesEffect(p.cfg, s, Renew(token)) then w.renewed[token := Now(s)] else w.renewed - {token})
    case GateRead(token) => if PassesGate(p, w, e) then w.(gated := w.gated[token := Now(s)]) else w
    case GateEnter(token) =>
      w.(sys := Next(p.cfg, s, Enter(token)),
         gated := if PassesGate(p, w, e) then w.gated[token := Now(s)] else w.gated)
    case Recheck(token) =>
      w.(sys := Next(p.cfg, s, Renew(token)),
         gated := if TakesEffect(p.cfg, s, Renew(token)) then w.gated[token := Now(s)] else w.gated)
    case Submit(token, orderId, accepted) =>
      if token in w.gated
      then w.(submissions := w.submissions + [Submission(token, orderId, w.gated[token], accepted)]) else w
    case MarkUnknown(token) => w.(sys := Next(p.cfg, s, Transition(token, BrokerOutcomeUnknown, None)))
    case Finish(token, outcome) =>
      w.(sys := Next(p.cfg, s, Complete(token, outcome)), renewed := w.renewed - {token})
    case ReleaseRetryable(token) =>
      w.(sys := Next(p.cfg, s, Transition(token, RetryableError, None)), renewed := w.renewed - {token})
    case EmptySnapshot(token, ttlMs, _) =>
      var s' := Next(p.cfg, s, RecordAbsence(token, ttlMs));
      w.(sys := s', emptySnapshots := w.emptySnapshots + [Now(s)],
         quorum := if TakesEffect(p.cfg, s, RecordAbsence(token, ttlMs))
                      && s'.progress.value.confirmations >= p.required
                   then w.quorum + {token} else w.quorum)
    case ReleaseAbsent(token) =>
      w.(sys := Next(p.cfg, s, Transition(token, RetryableError, None)), renewed := w.renewed - {token})
    case ClearAbsence => w.(sys := Next(p.cfg, s, ClearProgress))
  }

  predicate Start(w: World) {
    Init(w.sys) && w.renewed == map[] && w.gated == map[] && w.submissions == [] && w.emptySnapshots == []
        && w.quorum == {}
  }

  predicate Steps(p: Setup, run: seq<World>, events: seq<Event>) {
    && ValidSetup(p) && |run| == |events| + 1 && Start(run[0])
    && forall i | 0 <= i < |events| :: May(p, run[i], events[i]) && run[i + 1] == After(p, run[i], events[i])
  }

  predicate InTime(p: Setup, w: World, e: Event) { Timely(w, e) && ClearedFirst(p, w, e) }

  /** A run in which nobody stalls in the gate for a whole lease, and a released candidate's progress
      is cleared, or has run out, before it passes the gate again. */
  predicate Run(p: Setup, run: seq<World>, events: seq<Event>) {
    Steps(p, run, events) && forall i | 0 <= i < |events| :: InTime(p, run[i], events[i])
  }

  // ----- invariants -------------------------------------------------------------------

  /** No order sent under a check made at `checkedAt` can be accepted any more: a snapshot
      that must have shown it was empty. */
  predicate Dead(p: Setup, empties: seq<int>, checkedAt: int) {
    exists at | at in empties :: at >= checkedAt + Window(p)
  }

  predicate AllDead(p: Setup, gated: map<string, int>, empties: seq<int>) {
    forall t | t in gated :: Dead(p, empties, gated[t])
  }

  predicate AllDeadBut(p: Setup, gated: map<string, int>, empties: seq<int>, token: string) {
    forall t | t in gated && t != token :: Dead(p, empties, gated[t])
  }

  predicate AtMostOneLive(p: Setup, gated: map<string, int>, empties: seq<int>) {
    forall t, u | t in gated && u in gated && t != u :: Dead(p, empties, gated[t]) || Dead(p, empties, gated[u])
  }

  /** The states in which an order may be live or may have been. */
  predicate Exposed(s: Sys) {
    s.record.Some? && (BrokerUncertain(s.record.value.state) || Terminal(s.record.value.state))
  }

  /** Which claims may still have an order at the broker, given the record. */
  predicate Suspects(p: Setup, s: Sys, gated: map<string, int>, empties: seq<int>) {
    && AtMostOneLive(p, gated, empties)
    && (!Exposed(s) ==> AllDead(p, gated, empties))
    && (LeaseOut(s) && s.claims != [] ==>
          && (!Last(s.claims).recovery ==> AllDeadBut(p, gated, empties, Last(s.claims).token))
          && (s.record.value.state.Processing? ==> Last(s.claims).token !in gated))
  }

  predicate GateLog(s: Sys, gated: map<string, int>) {
    && (forall t | t in gated :: NormalClaim(s, t) && gated[t] <= Now(s))
    && (s.record.Some? && s.record.value.legacy ==> gated == map[])
  }

  predicate OrderLog(p: Setup, gated: map<string, int>, submissions: seq<Submission>, empties: seq<int>) {
    forall o | o in submissions ::
      && o.token in gated && o.checkedAt <= gated[o.token] && o.orderId in p.expectedIds
      && (o.accepted ==> forall at | at in empties :: at < o.checkedAt + Window(p))
  }

  /** Every ownership check of an earlier claim lies before the first recorded check, and a claim
      that passed the gate meets no progress. */
  predicate ProgressInv(s: Sys, gated: map<string, int>) {
    && (ProgressView(s).Some? && s.checks != [] ==> forall t | t in gated :: gated[t] <= s.checks[0].at)
    && (LeaseOut(s) && s.claims != [] && !Last(s.claims).recovery && Last(s.claims).token in gated ==>
          ProgressView(s).None?)
  }

  predicate QuorumInv(p: Setup, s: Sys, gated: map<string, int>, empties: seq<int>, quorum: set<string>) {
    && quorum <= Tokens(s.claims)
    && (s.claims != [] && Last(s.claims).token in quorum ==> Last(s.claims).recovery && AllDead(p, gated, empties))
  }

  predicate WorldInv(p: Setup, w: World) {
    && Inv(w.sys) && ChecksInv(p.cfg, w.sys)
    && Suspects(p, w.sys, w.gated, w.emptySnapshots)
    && GateLog(w.sys, w.gated)
    && OrderLog(p, w.gated, w.submissions, w.emptySnapshots)
    && (forall at | at in w.emptySnapshots :: at <= Now(w.sys))
    && ProgressInv(w.sys, w.gated)
    && QuorumInv(p, w.sys, w.gated, w.emptySnapshots, w.quorum)
  }

  /** The claim renewed at `at` has a lease at least that long. */
  predicate HeldSince(s: Sys, token: string, at: int) {
    && at <= Now(s)
    && exists i | 0 <= i < |s.claims| :: s.claims[i].token == token && s.claims[i].until >= at + LEASE_SECONDS
  }

  predicate RenewalsInv(s: Sys, renewed: map<string, int>) {
    forall t | t in renewed :: HeldSince(s, t, renewed[t])
  }

  // ----- one event at a time ----------------------------------------------------------

  /** What a call on the store leaves of the history. */
  lemma CallStep(p: Setup, s: Sys, c: Call)
    requires Inv(s) && ChecksInv(p.cfg, s) && Enabled(s, c)
    ensures var s' := Next(p.cfg, s, c);
      && Inv(s') && ChecksInv(p.cfg, s') && Now(s) <= Now(s')
      && Tokens(s.claims) <= Tokens(s'.claims)
      && (forall t | NormalClaim(s, t) :: NormalClaim(s', t))
  {
    var s' := Next(p.cfg, s, c);
    InvStep(p.cfg, s, c);
    ChecksStep(p.cfg, s, c);
    StepKeepsClaims(p.cfg, s, c);
    forall t | t in Tokens(s.claims) ensures t in Tokens(s'.claims) {
      var i :| 0 <= i < |s.claims| && s.claims[i].token == t;
      assert s'.claims[i] in s'.claims;
    }
    forall t | NormalClaim(s, t) ensures NormalClaim(s', t) {
      var i :| 0 <= i < |s.claims| && s.claims[i].token == t && !s.claims[i].recovery;
      assert s'.claims[i].token == t;
    }
  }

  /** A call by token keeps the latest claim the latest. */
  lemma LatestKept(p: Setup, s: Sys, c: Call)
    requires Inv(s) && !c.Acquire? && s.claims != []
    ensures var s' := Next(p.cfg, s, c);
      s'.claims != [] && Last(s'.claims).token == Last(s.claims).token
      && Last(s'.claims).recovery == Last(s.claims).recovery
  {
    StepKeepsClaims(p.cfg, s, c);
  }

  /** A normal claim that passed the gate and still holds the candidate meets no progress. */
  lemma NormalHolder(p: Setup, w: World, token: string)
    requires ValidSetup(p) && WorldInv(p, w) && NormalClaim(w.sys, token)
    requires Fenced(View(p.cfg, w.sys), p.cfg.id, token) && Leased(w.sys.record.value.state)
    ensures LeaseOut(w.sys) && !Last(w.sys.claims).recovery && (token in w.gated ==> ProgressView(w.sys).None?)
    ensures token == Last(w.sys.claims).token && token !in w.quorum
  {
    FencedIsLatest(p.cfg, w.sys, token);
  }

  /** The part of the invariant that a call leaving the logs alone keeps. */
  lemma LogsKept(p: Setup, w: World, c: Call)
    requires ValidSetup(p) && WorldInv(p, w) && Enabled(w.sys, c)
    ensures var s' := Next(p.cfg, w.sys, c);
      && Inv(s') && ChecksInv(p.cfg, s')
      && GateLog(s', w.gated) && w.quorum <= Tokens(s'.claims)
      && (forall at | at in w.emptySnapshots :: at <= Now(s'))
  {
    CallStep(p, w.sys, c);
  }

  /** A call by token that neither submits nor counts nor, unless by a normal claim, releases. */
  predicate PlainCall(w: World, c: Call) {
    || c.Renew? || c.Complete? || (c.Transition? && c.to.BrokerOutcomeUnknown?)
    || (c.Transition? && c.to.RetryableError? && NormalClaim(w.sys, c.token))
  }

  lemma TokenProgress(p: Setup, w: World, c: Call)
    requires ValidSetup(p) && WorldInv(p, w) && PlainCall(w, c) && TakesEffect(p.cfg, w.sys, c)
    ensures ProgressInv(Next(p.cfg, w.sys, c), w.gated)
  {
    FencedIsLatest(p.cfg, w.sys, c.token);
    LatestKept(p, w.sys, c);
  }

  lemma TokenSuspects(p: Setup, w: World, c: Call)
    requires ValidSetup(p) && WorldInv(p, w) && PlainCall(w, c) && TakesEffect(p.cfg, w.sys, c)
    ensures Suspects(p, Next(p.cfg, w.sys, c), w.gated, w.emptySnapshots)
  {
    FencedIsLatest(p.cfg, w.sys, c.token);
    LatestKept(p, w.sys, c);
    if c.Transition? && c.to.RetryableError? { NormalHolder(p, w, c.token); }
  }

  lemma TokenQuorum(p: Setup, w: World, c: Call)
    requires ValidSetup(p) && WorldInv(p, w) && PlainCall(w, c) && TakesEffect(p.cfg, w.sys, c)
    ensures QuorumInv(p, Next(p.cfg, w.sys, c), w.gated, w.emptySnapshots, w.quorum)
  {
    LogsKept(p, w, c);
    FencedIsLatest(p.cfg, w.sys, c.token);
    LatestKept(p, w.sys, c);
  }

  lemma TokenEvent(p: Setup, w: World, c: Call)
    requires ValidSetup(p) && WorldInv(p, w) && PlainCall(w, c)
    ensures WorldInv(p, w.(sys := Next(p.cfg, w.sys, c)))
  {
    LogsKept(p, w, c);
    if TakesEffect(p.cfg, w.sys, c) {
      TokenProgress(p, w, c);
      TokenSuspects(p, w, c);
      TokenQuorum(p, w, c);
    }
  }

  lemma WaitEvent(p: Setup, w: World, ms: nat)
    requires ValidSetup(p) && WorldInv(p, w)
    ensures WorldInv(p, w.(sys := Next(p.cfg, w.sys, Elapse(ms))))
  {
    LogsKept(p, w, Elapse(ms));
  }

  lemma ClearEvent(p: Setup, w: World)
    requires ValidSetup(p) && WorldInv(p, w)
    ensures WorldInv(p, w.(sys := Next(p.cfg, w.sys, ClearProgress)))
  {
    LogsKept(p, w, ClearProgress);
  }

  lemma GatedIsKnown(p: Setup, w: World)
    requires WorldInv(p, w)
    ensures forall t | t in w.gated :: t in Tokens(w.sys.claims)
  {
    forall t | t in w.gated ensures t in Tokens(w.sys.claims) {
      var i :| 0 <= i < |w.sys.claims| && w.sys.claims[i].token == t && !w.sys.claims[i].recovery;
      assert w.sys.claims[i] in w.sys.claims;
    }
  }

  lemma ClaimEvent(p: Setup, w: World, token: string, policy: ClaimPolicy)
    requires ValidSetup(p) && WorldInv(p, w) && Enabled(w.sys, Acquire(token, policy))
    ensures WorldInv(p, w.(sys := Next(p.cfg, w.sys, Acquire(token, policy))))
  {
    LogsKept(p, w, Acquire(token, policy));
    GatedIsKnown(p, w);
  }

  /** Noting a check of the claim that holds the candidate. */
  lemma NoteCheck(p: Setup, w: World, token: string)
    requires ValidSetup(p) && WorldInv(p, w) && NormalClaim(w.sys, token)
    requires LeaseOut(w.sys) && ProgressView(w.sys).None? && !w.sys.record.value.state.Processing?
    requires !Last(w.sys.claims).recovery && token == Last(w.sys.claims).token && token !in w.quorum
    ensures WorldInv(p, w.(gated := w.gated[token := Now(w.sys)]))
  {
    var gated := w.gated[token := Now(w.sys)];
    assert AllDeadBut(p, gated, w.emptySnapshots, token);
  }

  lemma HolderAfter(p: Setup, w: World, token: string, c: Call)
    requires ValidSetup(p) && WorldInv(p, w) && NormalClaim(w.sys, token) && c == Renew(token)
    requires TakesEffect(p.cfg, w.sys, c) && token in w.gated
    ensures var s' := Next(p.cfg, w.sys, c);
      LeaseOut(s') && ProgressView(s').None? && !Last(s'.claims).recovery && token == Last(s'.claims).token
      && token !in w.quorum && NormalClaim(s', token)
  {
    NormalHolder(p, w, token);
    LatestKept(p, w.sys, c);
    CallStep(p, w.sys, c);
  }

  lemma Rechecked(p: Setup, w: World, token: string)
    requires ValidSetup(p) && WorldInv(p, w) && token in w.gated && TakesEffect(p.cfg, w.sys, Renew(token))
    ensures var s' := Next(p.cfg, w.sys, Renew(token));
      WorldInv(p, w.(sys := s', gated := w.gated[token := Now(s')]))
  {
    TokenEvent(p, w, Renew(token));
    HolderAfter(p, w, token, Renew(token));
    NoteCheck(p, w.(sys := Next(p.cfg, w.sys, Renew(token))), token);
  }

  lemma RecheckEvent(p: Setup, w: World, token: string)
    requires ValidSetup(p) && WorldInv(p, w) && token in w.gated
    ensures WorldInv(p, After(p, w, Recheck(token)))
  {
    if TakesEffect(p.cfg, w.sys, Renew(token)) { Rechecked(p, w, token); }
  }

  /** Entering `broker_submitting`, before the check is noted. */
  lemma EnterSubmitting(p: Setup, w: World, token: string)
    requires ValidSetup(p) && WorldInv(p, w)
    requires TakesEffect(p.cfg, w.sys, Transition(token, BrokerSubmitting, None))
    ensures var w' := w.(sys := Next(p.cfg, w.sys, Transition(token, BrokerSubmitting, None)));
      WorldInv(p, w') && w'.sys.record.value.state.BrokerSubmitting?
  {
    var c := Transition(token, BrokerSubmitting, None);
    FencedIsLatest(p.cfg, w.sys, token);
    LogsKept(p, w, c);
    LatestKept(p, w.sys, c);
  }

  lemma LatestIsNormal(s: Sys)
    requires Inv(s) && LeaseOut(s) && s.record.value.state.BrokerSubmitting?
    ensures NormalClaim(s, Last(s.claims).token)
  {
    assert s.claims[|s.claims| - 1].token == Last(s.claims).token;
  }

  /** What holds in a world right after a claim has passed the gate. */
  predicate AtTheBroker(s: Sys, token: string) {
    LeaseOut(s) && s.claims != [] && s.record.value.state.BrokerSubmitting? && Last(s.claims).token == token
  }

  lemma NoteCheckAtTheBroker(p: Setup, w: World, token: string)
    requires ValidSetup(p) && WorldInv(p, w) && AtTheBroker(w.sys, token) && ProgressView(w.sys).None?
    ensures WorldInv(p, w.(gated := w.gated[token := Now(w.sys)]))
  {
    LatestIsNormal(w.sys);
    NoteCheck(p, w, token);
  }

  lemma GateEnters(p: Setup, w: World, token: string)
    requires ValidSetup(p) && WorldInv(p, w) && LeaseOut(w.sys) && w.sys.claims != []
    requires token == Last(w.sys.claims).token
    requires TakesEffect(p.cfg, w.sys, Transition(token, BrokerSubmitting, None))
    ensures var w' := w.(sys := Next(p.cfg, w.sys, Transition(token, BrokerSubmitting, None)));
      WorldInv(p, w') && AtTheBroker(w'.sys, token) && Now(w'.sys) == Now(w.sys)
  {
    EnterSubmitting(p, w, token);
    LatestKept(p, w.sys, Transition(token, BrokerSubmitting, None));
  }

  /** Whoever reads within a lease of its renewal still is the owner. */
  lemma StillOwner(s: Sys, token: string, at: int)
    requires Inv(s) && HeldSince(s, token, at) && Now(s) < at + LEASE_SECONDS
    ensures LeaseOut(s) && s.claims != [] && Last(s.claims).token == token
  {
    var i :| 0 <= i < |s.claims| && s.claims[i].token == token && s.claims[i].until >= at + LEASE_SECONDS;
    assert Last(s.claims).since <= Now(s);
  }

  lemma GateReadEvent(p: Setup, w: World, token: string)
    requires ValidSetup(p) && WorldInv(p, w) && RenewalsInv(w.sys, w.renewed)
    requires token in w.renewed && InTime(p, w, GateRead(token)) && PassesGate(p, w, GateRead(token))
    ensures AtTheBroker(w.sys, token) && WorldInv(p, After(p, w, GateRead(token)))
  {
    StillOwner(w.sys, token, w.renewed[token]);
    NoteCheckAtTheBroker(p, w, token);
  }

  lemma GateEnterEvent(p: Setup, w: World, token: string)
    requires ValidSetup(p) && WorldInv(p, w) && ClearedFirst(p, w, GateEnter(token))
    ensures WorldInv(p, After(p, w, GateEnter(token)))
    ensures PassesGate(p, w, GateEnter(token)) ==> AtTheBroker(After(p, w, GateEnter(token)).sys, token)
  {
    if PassesGate(p, w, GateEnter(token)) {
      FencedIsLatest(p.cfg, w.sys, token);
      GateEnters(p, w, token);
      var w1 := w.(sys := Next(p.cfg, w.sys, Enter(token)));
      NoteCheckAtTheBroker(p, w1, token);
      assert After(p, w, GateEnter(token)) == w1.(gated := w.gated[token := Now(w1.sys)]);
    } else {
      assert After(p, w, GateEnter(token)) == w;
    }
  }

  /** The invariant does not speak of who is in the gate. */
  lemma AnyRenewals(p: Setup, w: World, renewed: map<string, int>)
    requires WorldInv(p, w)
    ensures WorldInv(p, w.(renewed := renewed))
  {
  }

  lemma ReleaseAbsentEvent(p: Setup, w: World, token: string)
    requires ValidSetup(p) && WorldInv(p, w) && token in w.quorum
    ensures WorldInv(p, After(p, w, ReleaseAbsent(token)))
  {
    var c := Transition(token, RetryableError, None);
    if TakesEffect(p.cfg, w.sys, c) {
      FencedIsLatest(p.cfg, w.sys, token);
      LogsKept(p, w, c);
      LatestKept(p, w.sys, c);
    }
  }

  lemma SubmitEvent(p: Setup, w: World, e: Event)
    requires ValidSetup(p) && WorldInv(p, w) && May(p, w, e) && e.Submit?
    ensures WorldInv(p, After(p, w, e))
  {
  }

  /** One more empty snapshot can only rule more orders out. */
  lemma MoreEmpty(p: Setup, w: World)
    requires ValidSetup(p) && WorldInv(p, w)
    requires forall o | o in w.submissions && o.accepted :: Now(w.sys) < o.checkedAt + Window(p)
    ensures WorldInv(p, w.(emptySnapshots := w.emptySnapshots + [Now(w.sys)]))
  {
    var empties := w.emptySnapshots + [Now(w.sys)];
    forall t | t in w.gated && Dead(p, w.emptySnapshots, w.gated[t]) ensures Dead(p, empties, w.gated[t]) {
      var at :| at in w.emptySnapshots && at >= w.gated[t] + Window(p);
      assert at in empties;
    }
  }

  /** A completed quorum rules out every order sent before it. */
  lemma QuorumRulesOut(p: Setup, w: World)
    requires ValidSetup(p) && WorldInv(p, w) && Now(w.sys) in w.emptySnapshots
    requires ProgressView(w.sys).Some? && w.sys.progress.value.lastCheckAt == Now(w.sys)
    requires w.sys.progress.value.confirmations >= p.required
    ensures AllDead(p, w.gated, w.emptySnapshots)
  {
    var checks := w.sys.checks;
    SpacedSpan(checks, p.cfg.interval, |checks| - 1);
    Arith.MulMonotone(p.required - 1, |checks| - 1, p.cfg.interval);
    forall t | t in w.gated ensures Dead(p, w.emptySnapshots, w.gated[t]) {
      assert Now(w.sys) >= w.gated[t] + Window(p);
    }
  }

  lemma RecordCheck(p: Setup, w: World, token: string, ttlMs: nat)
    requires ValidSetup(p) && WorldInv(p, w) && TakesEffect(p.cfg, w.sys, RecordAbsence(token, ttlMs))
    ensures WorldInv(p, w.(sys := Next(p.cfg, w.sys, RecordAbsence(token, ttlMs))))
    ensures token == Last(w.sys.claims).token && Last(w.sys.claims).recovery
  {
    FencedIsLatest(p.cfg, w.sys, token);
    LogsKept(p, w, RecordAbsence(token, ttlMs));
  }

  /** A snapshot classified as empty is one no accepted order had to be in yet. */
  lemma NothingDueWasAccepted(p: Setup, w: World, e: Event)
    requires WorldInv(p, w) && May(p, w, e) && e.EmptySnapshot?
    ensures forall o | o in w.submissions && o.accepted :: Now(w.sys) < o.checkedAt + Window(p)
  {
  }

  lemma EmptySnapshotEvent(p: Setup, w: World, e: Event)
    requires ValidSetup(p) && WorldInv(p, w) && May(p, w, e) && e.EmptySnapshot?
    ensures WorldInv(p, After(p, w, e))
  {
    var token, ttlMs := e.token, e.ttlMs;
    NothingDueWasAccepted(p, w, e);
    MoreEmpty(p, w);
    var w1 := w.(emptySnapshots := w.emptySnapshots + [Now(w.sys)]);
    var c := RecordAbsence(token, ttlMs);
    if TakesEffect(p.cfg, w1.sys, c) {
      RecordCheck(p, w1, token, ttlMs);
      var w2 := w1.(sys := Next(p.cfg, w1.sys, c));
      if w2.sys.progress.value.confirmations >= p.required {
        QuorumRulesOut(p, w2);
        assert Last(w2.sys.claims) in w2.sys.claims;
      }
    }
  }

  lemma EventStep(p: Setup, w: World, e: Event)
    requires ValidSetup(p) && WorldInv(p, w) && RenewalsInv(w.sys, w.renewed) && May(p, w, e) && InTime(p, w, e)
    ensures WorldInv(p, After(p, w, e))
  {
    AnyRenewals(p, w, After(p, w, e).renewed);
    var w := w.(renewed := After(p, w, e).renewed);
    match e
    case Wait(ms) => WaitEvent(p, w, ms);
    case Claim(token, policy) => ClaimEvent(p, w, token, policy);
    case Heartbeat(token) => TokenEvent(p, w, Renew(token));
    case GateRenew(token) => TokenEvent(p, w, Renew(token));
    case GateRead(token) => if PassesGate(p, w, e) { GateReadEvent(p, w, token); }
    case GateEnter(token) => GateEnterEvent(p, w, token);
    case Recheck(token) => RecheckEvent(p, w, token);
    case Submit(_, _, _) => SubmitEvent(p, w, e);
    case MarkUnknown(token) => TokenEvent(p, w, Transition(token, BrokerOutcomeUnknown, None));
    case Finish(token, outcome) => TokenEvent(p, w, Complete(token, outcome));
    case ReleaseRetryable(token) => TokenEvent(p, w, Transition(token, RetryableError, None));
    case EmptySnapshot(_, _, _) => EmptySnapshotEvent(p, w, e);
    case ReleaseAbsent(token) => ReleaseAbsentEvent(p, w, token);
    case ClearAbsence => ClearEvent(p, w);
  }

  // ----- who is in the gate -------------------------------------------------------------------

  /** A call keeps the renewals of all claims it does not end. */
  lemma HeldOn(cfg: Config, s: Sys, c: Call, token: string, at: int)
    requires Inv(s) && Enabled(s, c) && HeldSince(s, token, at)
    requires !((c.Complete? || (c.Transition? && c.to.RetryableError?)) && c.token == token)
    ensures HeldSince(Next(cfg, s, c), token, at)
  {
    var i :| 0 <= i < |s.claims| && s.claims[i].token == token && s.claims[i].until >= at + LEASE_SECONDS;
    assert Next(cfg, s, c).claims[i].token == token && Next(cfg, s, c).claims[i].until >= at + LEASE_SECONDS;
  }

  lemma RenewalNoted(p: Setup, s: Sys, token: string)
    requires Inv(s) && TakesEffect(p.cfg, s, Renew(token))
    ensures HeldSince(Next(p.cfg, s, Renew(token)), token, Now(s))
  {
    FencedIsLatest(p.cfg, s, token);
    assert Next(p.cfg, s, Renew(token)).claims[|s.claims| - 1].until == Now(s) + LEASE_SECONDS;
  }

  lemma AllHeldOn(p: Setup, s: Sys, c: Call, renewed: map<string, int>)
    requires Inv(s) && Enabled(s, c) && RenewalsInv(s, renewed)
    requires c.Complete? || (c.Transition? && c.to.RetryableError?) ==> c.token !in renewed
    ensures RenewalsInv(Next(p.cfg, s, c), renewed)
  {
    forall t | t in renewed ensures HeldSince(Next(p.cfg, s, c), t, renewed[t]) {
      HeldOn(p.cfg, s, c, t, renewed[t]);
    }
  }

  lemma RenewalsStep(p: Setup, w: World, e: Event)
    requires ValidSetup(p) && WorldInv(p, w) && RenewalsInv(w.sys, w.renewed) && May(p, w, e)
    ensures RenewalsInv(After(p, w, e).sys, After(p, w, e).renewed)
  {
    match e
    case Wait(ms) => AllHeldOn(p, w.sys, Elapse(ms), w.renewed);
    case Claim(token, policy) => AllHeldOn(p, w.sys, Acquire(token, policy), w.renewed);
    case Heartbeat(token) => AllHeldOn(p, w.sys, Renew(token), w.renewed);
    case GateRenew(token) =>
      AllHeldOn(p, w.sys, Renew(token), w.renewed);
      if TakesEffect(p.cfg, w.sys, Renew(token)) { RenewalNoted(p, w.sys, token); }
    case GateRead(_) =>
    case GateEnter(token) => AllHeldOn(p, w.sys, Enter(token), w.renewed);
    case Recheck(token) => AllHeldOn(p, w.sys, Renew(token), w.renewed);
    case Submit(_, _, _) =>
    case MarkUnknown(token) => AllHeldOn(p, w.sys, Transition(token, BrokerOutcomeUnknown, None), w.renewed);
    case Finish(token, outcome) => AllHeldOn(p, w.sys, Complete(token, outcome), w.renewed - {token});
    case ReleaseRetryable(token) =>
      AllHeldOn(p, w.sys, Transition(token, RetryableError, None), w.renewed - {token});
    case EmptySnapshot(token, ttlMs, _) => AllHeldOn(p, w.sys, RecordAbsence(token, ttlMs), w.renewed);
    case ReleaseAbsent(token) =>
      AllHeldOn(p, w.sys, Transition(token, RetryableError, None), w.renewed - {token});
    case ClearAbsence => AllHeldOn(p, w.sys, ClearProgress, w.renewed);
  }

  lemma {:induction false} AlwaysWorldInv(p: Setup, run: seq<World>, events: seq<Event>, i: nat)
    requires Run(p, run, events) && i < |run|
    ensures WorldInv(p, run[i]) && RenewalsInv(run[i].sys, run[i].renewed)
  {
    if i > 0 {
      AlwaysWorldInv(p, run, events, i - 1);
      EventStep(p, run[i - 1], events[i - 1]);
      RenewalsStep(p, run[i - 1], events[i - 1]);
    }
  }

  // ----- at most once -----------------------------------------------------------------

  /** In every run, all orders the broker ever accepts for a candidate were sent under one
      and the same claim. */
  lemma AtMostOneClaimReachesTheBroker(p: Setup, run: seq<World>, events: seq<Event>, i: nat)
    requires Run(p, run, events) && i < |run|
    ensures forall a, b | a in run[i].submissions && b in run[i].submissions && a.accepted && b.accepted ::
              a.token == b.token
  {
    AlwaysWorldInv(p, run, events, i);
  }

  /** An earlier claim that can no longer get an order accepted, for good. */
  predicate Retired(p: Setup, w: World, token: string) {
    && token in w.gated && Dead(p, w.emptySnapshots, w.gated[token])
    && w.sys.claims != [] && token in Tokens(w.sys.claims) && token != Last(w.sys.claims).token
  }

  lemma OneCall(p: Setup, w: World, c: Call)
    requires WorldInv(p, w) && !c.Acquire? && w.sys.claims != []
    ensures var s' := Next(p.cfg, w.sys, c);
      s'.claims != [] && Tokens(w.sys.claims) <= Tokens(s'.claims)
      && Last(s'.claims).token == Last(w.sys.claims).token
  {
    CallStep(p, w.sys, c);
    LatestKept(p, w.sys, c);
  }

  /** Only a claim changes who is latest, and then to a fresh token. */
  lemma LatestAfter(p: Setup, w: World, e: Event)
    requires ValidSetup(p) && WorldInv(p, w) && May(p, w, e) && w.sys.claims != []
    ensures var s' := After(p, w, e).sys;
      && s'.claims != [] && Tokens(w.sys.claims) <= Tokens(s'.claims)
      && (Last(s'.claims).token == Last(w.sys.claims).token || Last(s'.claims).token !in Tokens(w.sys.claims))
  {
    match e
    case Claim(t, policy) => CallStep(p, w.sys, Acquire(t, policy));
    case GateRenew(t) => OneCall(p, w, Renew(t));
    case GateRead(_) =>
    case GateEnter(t) => OneCall(p, w, Enter(t));
    case Recheck(t) => OneCall(p, w, Renew(t));
    case Submit(_, _, _) =>
    case ReleaseAbsent(t) => OneCall(p, w, Transition(t, RetryableError, None));
    case Wait(ms) => OneCall(p, w, Elapse(ms));
    case Heartbeat(t) => OneCall(p, w, Renew(t));
    case MarkUnknown(t) => OneCall(p, w, Transition(t, BrokerOutcomeUnknown, None));
    case Finish(t, outcome) => OneCall(p, w, Complete(t, outcome));
    case ReleaseRetryable(t) => OneCall(p, w, Transition(t, RetryableError, None));
    case EmptySnapshot(t, ttlMs, _) => OneCall(p, w, RecordAbsence(t, ttlMs));
    case ClearAbsence => OneCall(p, w, ClearProgress);
  }

  /** Only the latest claimant's ownership checks are noted. */
  lemma ChecksOfOthersKept(p: Setup, w: World, e: Event, token: string)
    requires ValidSetup(p) && WorldInv(p, w) && RenewalsInv(w.sys, w.renewed) && May(p, w, e) && InTime(p, w, e)
    requires token in w.gated && w.sys.claims != [] && token != Last(w.sys.claims).token
    ensures token in After(p, w, e).gated && After(p, w, e).gated[token] == w.gated[token]
  {
    if e.Recheck? && TakesEffect(p.cfg, w.sys, Renew(e.token)) { FencedIsLatest(p.cfg, w.sys, e.token); }
    if e.GateRead? && PassesGate(p, w, e) { StillOwner(w.sys, e.token, w.renewed[e.token]); }
    if e.GateEnter? && PassesGate(p, w, e) { FencedIsLatest(p.cfg, w.sys, e.token); }
  }

  lemma StaysRetired(p: Setup, w: World, e: Event, token: string)
    requires ValidSetup(p) && WorldInv(p, w) && RenewalsInv(w.sys, w.renewed) && May(p, w, e) && InTime(p, w, e)
    requires Retired(p, w, token)
    ensures Retired(p, After(p, w, e), token)
  {
    var at :| at in w.emptySnapshots && at >= w.gated[token] + Window(p);
    LatestAfter(p, w, e);
    ChecksOfOthersKept(p, w, e, token);
    assert at in After(p, w, e).emptySnapshots;
  }

  lemma {:induction false} RetiredForGood(p: Setup, run: seq<World>, events: seq<Event>, i: nat, j: nat, token: string)
    requires Run(p, run, events) && i <= j < |run| && Retired(p, run[i], token)
    ensures Retired(p, run[j], token)
  {
    if i < j {
      RetiredForGood(p, run, events, i, j - 1, token);
      AlwaysWorldInv(p, run, events, j - 1);
      StaysRetired(p, run[j - 1], events[j - 1], token);
    }
  }

  /** When a claim passes the gate to the broker, no order of any earlier claim was accepted
      and none ever will be, however late its request arrives. */
  lemma GateOpensOnlyWhenNothingWasAccepted(p: Setup, run: seq<World>, events: seq<Event>, i: nat, j: nat)
    requires Run(p, run, events) && i < j < |run|
    requires (events[i].GateRead? || events[i].GateEnter?) && PassesGate(p, run[i], events[i])
    ensures forall o | o in run[j].submissions && o.accepted && o.token in run[i].gated :: o.token == events[i].token
  {
    AlwaysWorldInv(p, run, events, i);
    if events[i].GateRead? {
      GateReadEvent(p, run[i], events[i].token);
    } else {
      GateEnterEvent(p, run[i], events[i].token);
    }
    AlwaysWorldInv(p, run, events, i + 1);
    AlwaysWorldInv(p, run, events, j);
    forall o | o in run[j].submissions && o.accepted && o.token in run[i].gated
      ensures o.token == events[i].token
    {
      if o.token != events[i].token {
        var c :| 0 <= c < |run[i + 1].sys.claims| && run[i + 1].sys.claims[c].token == o.token
                 && !run[i + 1].sys.claims[c].recovery;
        assert run[i + 1].sys.claims[c] in run[i + 1].sys.claims;
        RetiredForGood(p, run, events, i + 1, j, o.token);
      }
    }
  }

  // ----- after the end ------------------------------------------------------------------

  lemma EndedEvent(p: Setup, w: World, e: Event)
    requires ValidSetup(p) && May(p, w, e) && w.sys.record.Some? && Terminal(w.sys.record.value.state)
    ensures After(p, w, e).sys.record == w.sys.record && !PassesGate(p, w, e)
  {
    match e
    case Wait(ms) => EndedStep(p.cfg, w.sys, Elapse(ms));
    case Claim(token, policy) => EndedStep(p.cfg, w.sys, Acquire(token, policy));
    case Heartbeat(token) => EndedStep(p.cfg, w.sys, Renew(token));
    case GateRenew(token) => EndedStep(p.cfg, w.sys, Renew(token));
    case GateRead(token) =>
    case GateEnter(token) => EndedStep(p.cfg, w.sys, Enter(token));
    case Recheck(token) => EndedStep(p.cfg, w.sys, Renew(token));
    case Submit(_, _, _) =>
    case MarkUnknown(token) => EndedStep(p.cfg, w.sys, Transition(token, BrokerOutcomeUnknown, None));
    case Finish(token, outcome) => EndedStep(p.cfg, w.sys, Complete(token, outcome));
    case ReleaseRetryable(token) => EndedStep(p.cfg, w.sys, Transition(token, RetryableError, None));
    case EmptySnapshot(token, ttlMs, _) => EndedStep(p.cfg, w.sys, RecordAbsence(token, ttlMs));
    case ReleaseAbsent(token) => EndedStep(p.cfg, w.sys, Transition(token, RetryableError, None));
    case ClearAbsence => EndedStep(p.cfg, w.sys, ClearProgress);
  }

  lemma {:induction false} EndedStays(p: Setup, run: seq<World>, events: seq<Event>, i: nat, j: nat)
    requires Steps(p, run, events) && i <= j < |run|
    requires run[i].sys.record.Some? && Terminal(run[i].sys.record.value.state)
    ensures run[j].sys.record == run[i].sys.record
  {
    if i < j {
      EndedStays(p, run, events, i, j - 1);
      EndedEvent(p, run[j - 1], events[j - 1]);
    }
  }

  /** Once the owner has finished a candidate it stays in the state its outcome names, and no claim ever
      passes the gate again, however badly timed the run is. */
  lemma FinishedIsFinal(p: Setup, run: seq<World>, events: seq<Event>, i: nat, j: nat)
    requires Steps(p, run, events) && i < j < |run| && events[i].Finish?
    requires TakesEffect(p.cfg, run[i].sys, Complete(events[i].token, events[i].outcome))
    ensures run[j].sys.record.Some?
    ensures var state, outcome := run[j].sys.record.value.state, events[i].outcome;
      state == if "ordered:" <= outcome then Ordered else if "rejected:" <= outcome then Rejected else Completed
    ensures j < |events| ==> !PassesGate(p, run[j], events[j])
  {
    assert run[i + 1] == After(p, run[i], events[i]);
    EndedStays(p, run, events, i + 1, j);
    if j < |events| { EndedEvent(p, run[j], events[j]); }
  }
}
