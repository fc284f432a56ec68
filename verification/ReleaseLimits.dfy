/** What a crash between releasing a candidate and clearing its absence progress can cost: a run in
    which the count left behind completes the next quorum, and the broker accepts two orders. */
module ReleaseLimits {
  import opened Common
  import opened CandidateRecord
  import opened CandidateScripts
  import opened LeaseProtocol
  import opened AbsenceQuorum
  import opened Recovery

  /** A recovery worker that finds progress left over starts counting from it: its first
      check counts as the first one exactly when no live progress was left. */
  lemma FirstCheckCountsFromOneExactlyAfterClear(cfg: Config, tr: seq<Sys>, calls: seq<Call>, i: nat)
    requires Trace(cfg, tr, calls) && i < |calls| && calls[i].RecordAbsence? && TakesEffect(cfg, tr[i], calls[i])
    ensures tr[i + 1].progress.value.confirmations == 1 <==> ProgressView(tr[i]).None?
  {
    ChecksAlways(cfg, tr, calls, i);
  }

  /** Two empty snapshots 200 seconds apart prove absence. */
  function StaleSetup(id: Identity): Setup { Setup(Config(id, false, 200), 2, ["x"], "y") }

  // ----- the store ------------------------------------------------------------------------

  /** Worker `a` enters `broker_submitting` and dies. `b` counts two empty snapshots, releases, and
      dies. `c` submits and dies. `d` counts one snapshot, which is the third, releases and clears.
      `e` submits. */
  function StaleCall(k: nat): Call {
    match k
    case 0 => Acquire("a", DEFAULT_POLICY)
    case 1 => Enter("a")
    case 2 => Elapse(121_000)
    case 3 => Acquire("b", RECOVERY_POLICY)
    case 4 => RecordAbsence("b", 300_000)
    case 5 => Elapse(100_000)
    case 6 => Renew("b")
    case 7 => Elapse(100_000)
    case 8 => RecordAbsence("b", 300_000)
    case 9 => Transition("b", RetryableError, None)
    case 10 => Elapse(10_000)
    case 11 => Acquire("c", DEFAULT_POLICY)
    case 12 => Enter("c")
    case 13 => Elapse(190_000)
    case 14 => Acquire("d", RECOVERY_POLICY)
    case 15 => RecordAbsence("d", 300_000)
    case 16 => Transition("d", RetryableError, None)
    case 17 => ClearProgress
    case 18 => Acquire("e", DEFAULT_POLICY)
    case _ => Enter("e")
  }

  function StaleClock(k: nat): nat {
    if k <= 2 then 0 else if k <= 5 then 121_000 else if k <= 7 then 221_000
    else if k <= 10 then 321_000 else if k <= 13 then 331_000 else 521_000
  }

  function StaleRecord(id: Identity, k: nat): Option<Record> {
    var why := Some("broker_submitting");
    if k == 0 then None
    else if k == 1 then Some(RecordOf(id, Processing, Some(("a", 120)), 1, None, 0))
    else if k <= 3 then Some(RecordOf(id, BrokerSubmitting, Some(("a", 120)), 1, None, 0))
    else if k <= 6 then Some(RecordOf(id, BrokerReconciling, Some(("b", 241)), 2, why, 121))
    else if k <= 9 then Some(RecordOf(id, BrokerReconciling, Some(("b", 341)), 2, why, 221))
    else if k <= 11 then Some(RecordOf(id, RetryableError, None, 2, why, 321))
    else if k == 12 then Some(RecordOf(id, Processing, Some(("c", 451)), 3, None, 331))
    else if k <= 14 then Some(RecordOf(id, BrokerSubmitting, Some(("c", 451)), 3, None, 331))
    else if k <= 16 then Some(RecordOf(id, BrokerReconciling, Some(("d", 641)), 4, why, 521))
    else if k <= 18 then Some(RecordOf(id, RetryableError, None, 4, why, 521))
    else if k == 19 then Some(RecordOf(id, Processing, Some(("e", 641)), 5, None, 521))
    else Some(RecordOf(id, BrokerSubmitting, Some(("e", 641)), 5, None, 521))
  }

  function StaleGone(k: nat): int {
    if k == 0 then 0 else if k == 1 then 120_000 else if k <= 3 then RECORD_TTL_MS
    else if k <= 6 then 241_000 else if k <= 9 then 341_000 else if k <= 11 then 321_000 + RECORD_TTL_MS
    else if k == 12 then 451_000 else if k <= 14 then 331_000 + RECORD_TTL_MS
    else if k <= 16 then 641_000 else if k <= 18 then 521_000 + RECORD_TTL_MS
    else if k == 19 then 641_000 else 521_000 + RECORD_TTL_MS
  }

  function StaleClaims(k: nat): seq<Claim> {
    var a := Claim.Claim("a", 0, 120, false);
    var b := Claim.Claim("b", 121, if k <= 6 then 241 else if k <= 9 then 341 else 321, true);
    var c := Claim.Claim("c", 331, 451, false);
    var d := Claim.Claim("d", 521, if k <= 16 then 641 else 521, true);
    if k == 0 then [] else if k <= 3 then [a] else if k <= 11 then [a, b] else if k <= 14 then [a, b, c]
    else if k <= 18 then [a, b, c, d] else [a, b, c, d, Claim.Claim("e", 521, 641, false)]
  }

  function StaleProgress(id: Identity, k: nat): Option<Progress> {
    if k <= 4 then None else if k <= 8 then Some(Progress(id, 1, 121))
    else if k <= 15 then Some(Progress(id, 2, 321)) else if k <= 17 then Some(Progress(id, 3, 521)) else None
  }

  function StaleProgressGone(k: nat): int {
    if k <= 4 then 0 else if k <= 8 then 421_000 else if k <= 15 then 621_000 else 821_000
  }

  function StaleChecks(k: nat): seq<Check> {
    var first, second, third := Check(121, "b"), Check(321, "b"), Check(521, "d");
    if k <= 4 then [] else if k <= 8 then [first] else if k <= 15 then [first, second]
    else if k <= 17 then [first, second, third] else []
  }

  function StaleSys(id: Identity, k: nat): Sys {
    Sys(StaleClock(k), StaleRecord(id, k), StaleGone(k), StaleProgress(id, k), StaleProgressGone(k), StaleClaims(k),
        StaleChecks(k))
  }

  /** One call of the run takes effect and leads on. */
  predicate Leads(id: Identity, k: nat) {
    var cfg, s, c := StaleSetup(id).cfg, StaleSys(id, k), StaleCall(k);
    Enabled(s, c) && TakesEffect(cfg, s, c) && Next(cfg, s, c) == StaleSys(id, k + 1)
  }

  predicate Named(id: Identity) { id.candidateId != "" && id.streamEventId != "" }

  lemma FirstClaims(id: Identity, k: nat)
    requires Named(id) && (k == 0 || k == 3)
    ensures Leads(id, k)
  {
    assert Next(StaleSetup(id).cfg, StaleSys(id, k), StaleCall(k)).claims == StaleClaims(k + 1);
  }

  lemma LaterClaims(id: Identity, k: nat)
    requires Named(id) && (k == 11 || k == 14 || k == 18)
    ensures Leads(id, k)
  {
    assert Next(StaleSetup(id).cfg, StaleSys(id, k), StaleCall(k)).claims == StaleClaims(k + 1);
  }

  lemma FirstEnters(id: Identity, k: nat)
    requires Named(id) && k == 1
    ensures Leads(id, k)
  {
    assert Next(StaleSetup(id).cfg, StaleSys(id, k), StaleCall(k)).claims == StaleClaims(k + 1);
  }

  lemma LaterEnters(id: Identity, k: nat)
    requires Named(id) && (k == 12 || k == 19)
    ensures Leads(id, k)
  {
    assert Next(StaleSetup(id).cfg, StaleSys(id, k), StaleCall(k)).claims == StaleClaims(k + 1);
  }

  lemma FirstWaits(id: Identity, k: nat)
    requires Named(id) && (k == 2 || k == 5 || k == 7)
    ensures Leads(id, k)
  {
  }

  lemma LaterWaits(id: Identity, k: nat)
    requires Named(id) && (k == 10 || k == 13)
    ensures Leads(id, k)
  {
  }

  lemma FirstChecks(id: Identity, k: nat)
    requires Named(id) && (k == 4 || k == 8)
    ensures Leads(id, k)
  {
    assert Next(StaleSetup(id).cfg, StaleSys(id, k), StaleCall(k)).checks == StaleChecks(k + 1);
  }

  lemma LastCheck(id: Identity, k: nat)
    requires Named(id) && k == 15
    ensures Leads(id, k)
  {
    assert Next(StaleSetup(id).cfg, StaleSys(id, k), StaleCall(k)).checks == StaleChecks(k + 1);
  }

  lemma BeatsOnce(id: Identity, k: nat)
    requires Named(id) && k == 6
    ensures Leads(id, k)
  {
    assert Next(StaleSetup(id).cfg, StaleSys(id, k), StaleCall(k)).claims == StaleClaims(k + 1);
  }

  lemma Releases(id: Identity, k: nat)
    requires Named(id) && (k == 9 || k == 16)
    ensures Leads(id, k)
  {
    assert Next(StaleSetup(id).cfg, StaleSys(id, k), StaleCall(k)).claims == StaleClaims(k + 1);
  }

  lemma Clears(id: Identity, k: nat)
    requires Named(id) && k == 17
    ensures Leads(id, k)
  {
  }

  lemma AllLead(id: Identity, k: nat)
    requires Named(id) && k < 20
    ensures Leads(id, k)
  {
    if k == 0 || k == 3 { FirstClaims(id, k); }
    else if k == 11 || k == 14 || k == 18 { LaterClaims(id, k); }
    else if k == 1 { FirstEnters(id, k); }
    else if k == 12 || k == 19 { LaterEnters(id, k); }
    else if k == 10 || k == 13 { LaterWaits(id, k); }
    else if k == 4 || k == 8 { FirstChecks(id, k); }
    else if k == 6 { BeatsOnce(id, k); }
    else if k == 9 || k == 16 { Releases(id, k); }
    else if k == 15 { LastCheck(id, k); }
    else if k == 17 { Clears(id, k); }
    else { FirstWaits(id, k); }
  }

  /** Renewing at the moment of the claim changes nothing. */
  predicate RenewsInPlace(id: Identity, k: nat, token: string) {
    var cfg, s := StaleSetup(id).cfg, StaleSys(id, k);
    TakesEffect(cfg, s, Renew(token)) && Next(cfg, s, Renew(token)) == s
  }

  lemma GateRenewals(id: Identity, k: nat, token: string)
    requires Named(id) && ((k == 1 && token == "a") || (k == 12 && token == "c") || (k == 19 && token == "e"))
    ensures RenewsInPlace(id, k, token)
  {
    assert Next(StaleSetup(id).cfg, StaleSys(id, k), Renew(token)).claims == StaleClaims(k);
  }

  // ----- the workers and the broker -------------------------------------------------------

  function StaleEvent(k: nat): Event {
    match k
    case 0 => Event.Claim("a", DEFAULT_POLICY)
    case 1 => GateRenew("a")
    case 2 => GateRead("a")
    case 3 => GateEnter("a")
    case 4 => Wait(121_000)
    case 5 => Event.Claim("b", RECOVERY_POLICY)
    case 6 => EmptySnapshot("b", 300_000, [])
    case 7 => Wait(100_000)
    case 8 => Heartbeat("b")
    case 9 => Wait(100_000)
    case 10 => EmptySnapshot("b", 300_000, [])
    case 11 => ReleaseAbsent("b")
    case 12 => Wait(10_000)
    case 13 => Event.Claim("c", DEFAULT_POLICY)
    case 14 => GateRenew("c")
    case 15 => GateRead("c")
    case 16 => GateEnter("c")
    case 17 => Submit("c", "x", true)
    case 18 => Wait(190_000)
    case 19 => Event.Claim("d", RECOVERY_POLICY)
    case 20 => EmptySnapshot("d", 300_000, [])
    case 21 => ReleaseAbsent("d")
    case 22 => ClearAbsence
    case 23 => Event.Claim("e", DEFAULT_POLICY)
    case 24 => GateRenew("e")
    case 25 => GateRead("e")
    case 26 => GateEnter("e")
    case _ => Submit("e", "x", true)
  }

  /** How many of the store's calls have led to world k. */
  function CallsMade(k: nat): nat {
    if k <= 1 then k else if k <= 3 then 1 else if k <= 14 then k - 2 else if k <= 16 then 12
    else if k == 17 then 13 else if k <= 24 then k - 5 else if k <= 26 then 19 else 20
  }

  function InTheGate(k: nat): map<string, int> {
    if k <= 1 then map[] else if k <= 14 then map["a" := 0]
    else if k <= 24 then map["a" := 0, "c" := 331] else map["a" := 0, "c" := 331, "e" := 521]
  }

  function Gated(k: nat): map<string, int> {
    if k <= 3 then map[] else if k <= 16 then map["a" := 0]
    else if k <= 26 then map["a" := 0, "c" := 331] else map["a" := 0, "c" := 331, "e" := 521]
  }

  function Sent(k: nat): seq<Submission> {
    if k <= 17 then [] else if k <= 27 then [Submission("c", "x", 331, true)]
    else [Submission("c", "x", 331, true), Submission("e", "x", 521, true)]
  }

  function Empties(k: nat): seq<int> {
    if k <= 6 then [] else if k <= 10 then [121] else if k <= 20 then [121, 321] else [121, 321, 521]
  }

  function Proven(k: nat): set<string> { if k <= 10 then {} else if k <= 20 then {"b"} else {"b", "d"} }

  function StaleWorld(id: Identity, k: nat): World {
    World(StaleSys(id, CallsMade(k)), InTheGate(k), Gated(k), Sent(k), Empties(k), Proven(k))
  }

  predicate StaleStep(id: Identity, k: nat) {
    && May(StaleSetup(id), StaleWorld(id, k), StaleEvent(k))
    && After(StaleSetup(id), StaleWorld(id, k), StaleEvent(k)) == StaleWorld(id, k + 1)
  }

  // What single events do, whatever the world.

  predicate MakesCall(e: Event, c: Call) {
    match e
    case Wait(ms) => c == Elapse(ms)
    case Claim(token, policy) => c == Acquire(token, policy)
    case Heartbeat(token) => c == Renew(token)
    case ClearAbsence => c == ClearProgress
    case _ => false
  }

  lemma CallOn(p: Setup, w: World, e: Event, c: Call, next: Sys)
    requires MakesCall(e, c) && Enabled(w.sys, c) && Next(p.cfg, w.sys, c) == next
    ensures May(p, w, e) && After(p, w, e) == w.(sys := next)
  {
  }

  lemma EnterOn(p: Setup, w: World, token: string, next: Sys)
    requires TakesEffect(p.cfg, w.sys, Enter(token)) && Next(p.cfg, w.sys, Enter(token)) == next
    ensures May(p, w, GateEnter(token))
    ensures After(p, w, GateEnter(token)) == w.(sys := next, gated := w.gated[token := Now(w.sys)])
  {
  }

  lemma RenewOn(p: Setup, w: World, token: string)
    requires TakesEffect(p.cfg, w.sys, Renew(token)) && Next(p.cfg, w.sys, Renew(token)) == w.sys
    ensures May(p, w, GateRenew(token))
    ensures After(p, w, GateRenew(token)) == w.(renewed := w.renewed[token := Now(w.sys)])
  {
  }

  lemma ReleaseOn(p: Setup, w: World, token: string, next: Sys)
    requires token in w.quorum && Next(p.cfg, w.sys, Transition(token, RetryableError, None)) == next
    ensures May(p, w, ReleaseAbsent(token))
    ensures After(p, w, ReleaseAbsent(token)) == w.(sys := next, renewed := w.renewed - {token})
  {
  }

  /** An empty snapshot of no objects at all, taken before any accepted order has to be in it. */
  lemma SnapshotOn(p: Setup, w: World, token: string, next: Sys)
    requires TakesEffect(p.cfg, w.sys, RecordAbsence(token, 300_000)) && next.progress.Some?
    requires Next(p.cfg, w.sys, RecordAbsence(token, 300_000)) == next
    requires forall sent | sent in w.submissions :: Now(w.sys) < sent.checkedAt + Window(p)
    ensures May(p, w, EmptySnapshot(token, 300_000, []))
    ensures After(p, w, EmptySnapshot(token, 300_000, []))
         == w.(sys := next, emptySnapshots := w.emptySnapshots + [Now(w.sys)],
               quorum := if next.progress.value.confirmations >= p.required then w.quorum + {token} else w.quorum)
  {
  }

  /** Nothing but the store changes from world k to the next. */
  predicate OnlyTheStore(k: nat) {
    && InTheGate(k) == InTheGate(k + 1) && Gated(k) == Gated(k + 1) && Sent(k) == Sent(k + 1)
    && Empties(k) == Empties(k + 1) && Proven(k) == Proven(k + 1)
  }

  lemma PlainStep(id: Identity, k: nat, n: nat)
    requires Named(id) && n < 20 && CallsMade(k) == n && CallsMade(k + 1) == n + 1 && OnlyTheStore(k)
    requires MakesCall(StaleEvent(k), StaleCall(n))
    ensures StaleStep(id, k)
  {
    AllLead(id, n);
    CallOn(StaleSetup(id), StaleWorld(id, k), StaleEvent(k), StaleCall(n), StaleSys(id, n + 1));
  }

  lemma PlainSteps(id: Identity, k: nat)
    requires Named(id)
    requires k == 0 || k == 4 || k == 5 || k == 7 || k == 8 || k == 9
    ensures StaleStep(id, k)
  {
    PlainStep(id, k, CallsMade(k));
  }

  lemma LaterPlainSteps(id: Identity, k: nat)
    requires Named(id)
    requires k == 12 || k == 13 || k == 18 || k == 19 || k == 22 || k == 23
    ensures StaleStep(id, k)
  {
    PlainStep(id, k, CallsMade(k));
  }

  lemma GateStep(id: Identity, k: nat, token: string)
    requires Named(id) && (k == 1 || k == 14 || k == 24) && StaleEvent(k) == GateRenew(token)
    ensures StaleStep(id, k)
  {
    GateRenewals(id, CallsMade(k), token);
    RenewOn(StaleSetup(id), StaleWorld(id, k), token);
    assert InTheGate(k)[token := Now(StaleSys(id, CallsMade(k)))] == InTheGate(k + 1);
  }

  lemma ReadStep(id: Identity, k: nat)
    requires Named(id) && (k == 2 || k == 15 || k == 25)
    ensures StaleStep(id, k)
  {
  }

  lemma EnterStep(id: Identity, k: nat, n: nat, token: string)
    requires Named(id) && (k == 3 || k == 16 || k == 26) && CallsMade(k) == n && CallsMade(k + 1) == n + 1
    requires StaleEvent(k) == GateEnter(token) && StaleCall(n) == Enter(token) && n < 20
    ensures StaleStep(id, k)
  {
    AllLead(id, n);
    EnterOn(StaleSetup(id), StaleWorld(id, k), token, StaleSys(id, n + 1));
    assert Gated(k)[token := Now(StaleSys(id, n))] == Gated(k + 1);
  }

  lemma ReleaseStep(id: Identity, k: nat, n: nat, token: string)
    requires Named(id) && (k == 11 || k == 21) && CallsMade(k) == n && CallsMade(k + 1) == n + 1
    requires StaleEvent(k) == ReleaseAbsent(token) && StaleCall(n) == Transition(token, RetryableError, None) && n < 20
    ensures StaleStep(id, k)
  {
    AllLead(id, n);
    assert token in Proven(k);
    ReleaseOn(StaleSetup(id), StaleWorld(id, k), token, StaleSys(id, n + 1));
    assert InTheGate(k) - {token} == InTheGate(k + 1);
  }

  lemma SnapshotStep(id: Identity, k: nat, n: nat, token: string)
    requires Named(id) && (k == 6 || k == 10 || k == 20) && CallsMade(k) == n && CallsMade(k + 1) == n + 1
    requires StaleEvent(k) == EmptySnapshot(token, 300_000, []) && n < 20
    requires StaleCall(n) == RecordAbsence(token, 300_000)
    ensures StaleStep(id, k)
  {
    AllLead(id, n);
    SnapshotOn(StaleSetup(id), StaleWorld(id, k), token, StaleSys(id, n + 1));
    assert Empties(k) + [Now(StaleSys(id, n))] == Empties(k + 1);
    assert Proven(k) + (if k == 6 then {} else {token}) == Proven(k + 1);
  }

  lemma SubmitStep(id: Identity, k: nat)
    requires Named(id) && (k == 17 || k == 27)
    ensures StaleStep(id, k)
  {
    assert Sent(17) + [Submission("c", "x", 331, true)] == Sent(18);
    assert Sent(27) + [Submission("e", "x", 521, true)] == Sent(28);
  }

  lemma AllSteps(id: Identity, k: nat)
    requires Named(id) && k < 28
    ensures StaleStep(id, k)
  {
    match k
    case 1 => GateStep(id, 1, "a");
    case 14 => GateStep(id, 14, "c");
    case 24 => GateStep(id, 24, "e");
    case 3 => EnterStep(id, 3, 1, "a");
    case 16 => EnterStep(id, 16, 12, "c");
    case 26 => EnterStep(id, 26, 19, "e");
    case 6 => SnapshotStep(id, 6, 4, "b");
    case 10 => SnapshotStep(id, 10, 8, "b");
    case 20 => SnapshotStep(id, 20, 15, "d");
    case 11 => ReleaseStep(id, 11, 9, "b");
    case 21 => ReleaseStep(id, 21, 16, "d");
    case _ =>
      if k == 2 || k == 15 || k == 25 { ReadStep(id, k); }
      else if k == 17 || k == 27 { SubmitStep(id, k); }
      else if k <= 9 { PlainSteps(id, k); }
      else { LaterPlainSteps(id, k); }
  }

  function StaleEvents(): seq<Event> { seq(28, k requires 0 <= k < 28 => StaleEvent(k)) }

  function StaleRun(id: Identity): seq<World> { seq(29, k requires 0 <= k < 29 => StaleWorld(id, k)) }

  /** Only the gate passed at step 16 meets progress that was not cleared. */
  lemma OnlyOneOutOfTime(id: Identity, k: nat)
    requires Named(id) && k < 28
    ensures Timely(StaleWorld(id, k), StaleEvent(k))
    ensures ClearedFirst(StaleSetup(id), StaleWorld(id, k), StaleEvent(k)) <==> k != 16
  {
    if k == 16 { AllLead(id, 12); }
  }

  /** Release and clear taken apart: a worker dies between them, and all steps are in time but the
      one that passes the gate with the old count still there. A single snapshot then completes the
      quorum of two, and the broker accepts an order of two claims. */
  lemma StaleQuorumLetsTwoClaimsThrough(id: Identity)
    requires Named(id)
    ensures var p, run, events := StaleSetup(id), StaleRun(id), StaleEvents();
      && Steps(p, run, events)
      && (forall k | 0 <= k < |events| :: InTime(p, run[k], events[k]) <==> k != 16)
    ensures (forall k | 16 <= k < 21 :: StaleEvent(k).EmptySnapshot? <==> k == 20) && "d" in StaleWorld(id, 21).quorum
    ensures var sent := StaleWorld(id, 28).submissions;
      |sent| == 2 && sent[0].accepted && sent[1].accepted && sent[0].token != sent[1].token
  {
    var p, run, events := StaleSetup(id), StaleRun(id), StaleEvents();
    forall k | 0 <= k < |events|
      ensures May(p, run[k], events[k]) && run[k + 1] == After(p, run[k], events[k])
      ensures InTime(p, run[k], events[k]) <==> k != 16
    {
      AllSteps(id, k);
      OnlyOneOutOfTime(id, k);
    }
  }
}
