/** The quorum of empty broker snapshots, over whole runs: how far apart the recorded checks
    lie and who recorded them. */
module AbsenceQuorum {
  import opened Common
  import opened CandidateRecord
  import opened CandidateScripts
  import opened LeaseProtocol

  predicate Spaced(checks: seq<Check>, interval: int) {
    forall i | 0 <= i < |checks| - 1 :: checks[i + 1].at - checks[i].at >= interval
  }

  /** The check was recorded under a claim that took the candidate over for recovery. */
  predicate ByRecoveryOwner(check: Check, claims: seq<Claim>) {
    exists i | 0 <= i < |claims| ::
      claims[i].token == check.token && claims[i].recovery && claims[i].since <= check.at
  }

  predicate ChecksInv(cfg: Config, s: Sys) {
    && Spaced(s.checks, cfg.interval)
    && (forall i | 0 <= i < |s.checks| :: ByRecoveryOwner(s.checks[i], s.claims) && s.checks[i].at <= Now(s))
    && (s.progress.None? ==> s.checks == [])
    && (s.progress.Some? ==>
          && s.checks != [] && s.progress.value.id == cfg.id
          && s.progress.value.confirmations == |s.checks|
          && s.progress.value.lastCheckAt == s.checks[|s.checks| - 1].at)
  }

  /** A claim keeps its token, its start and its purpose for ever. */
  predicate Keeps(before: seq<Claim>, after: seq<Claim>) {
    && |before| <= |after|
    && forall i | 0 <= i < |before| ::
         after[i].token == before[i].token && after[i].since == before[i].since
             && after[i].recovery == before[i].recovery
  }

  lemma StepKeepsClaims(cfg: Config, s: Sys, c: Call)
    ensures Keeps(s.claims, Next(cfg, s, c).claims)
  {
  }

  lemma OwnerKept(check: Check, before: seq<Claim>, after: seq<Claim>)
    requires ByRecoveryOwner(check, before) && Keeps(before, after)
    ensures ByRecoveryOwner(check, after)
  {
    var i :| 0 <= i < |before| && before[i].token == check.token && before[i].recovery && before[i].since <= check.at;
    assert after[i].token == check.token;
  }

  lemma ChecksStep(cfg: Config, s: Sys, c: Call)
    requires Inv(s) && ChecksInv(cfg, s) && Enabled(s, c)
    ensures ChecksInv(cfg, Next(cfg, s, c))
  {
    var s' := Next(cfg, s, c);
    StepKeepsClaims(cfg, s, c);
    forall i | 0 <= i < |s'.checks| ensures ByRecoveryOwner(s'.checks[i], s'.claims) {
      CheckKept(cfg, s, c, i);
    }
    ChecksSpaced(cfg, s, c);
  }

  lemma ChecksSpaced(cfg: Config, s: Sys, c: Call)
    requires ChecksInv(cfg, s)
    ensures var s' := Next(cfg, s, c);
      && Spaced(s'.checks, cfg.interval) && (forall i | 0 <= i < |s'.checks| :: s'.checks[i].at <= Now(s'))
  {
  }

  lemma CheckKept(cfg: Config, s: Sys, c: Call, i: nat)
    requires Inv(s) && ChecksInv(cfg, s) && Enabled(s, c) && i < |Next(cfg, s, c).checks|
    ensures ByRecoveryOwner(Next(cfg, s, c).checks[i], Next(cfg, s, c).claims)
  {
    var s' := Next(cfg, s, c);
    StepKeepsClaims(cfg, s, c);
    if c.RecordAbsence? && TakesEffect(cfg, s, c) && i == |s'.checks| - 1 {
      FencedIsLatest(cfg, s, c.token);
      assert s'.claims[|s'.claims| - 1].recovery;
    } else {
      assert s'.checks[i] == s.checks[i];
      OwnerKept(s.checks[i], s.claims, s'.claims);
    }
  }

  lemma {:induction false} ChecksAlways(cfg: Config, tr: seq<Sys>, calls: seq<Call>, i: nat)
    requires Trace(cfg, tr, calls) && i < |tr|
    ensures ChecksInv(cfg, tr[i])
  {
    if i > 0 {
      ChecksAlways(cfg, tr, calls, i - 1);
      InvAlways(cfg, tr, calls, i - 1);
      ChecksStep(cfg, tr[i - 1], calls[i - 1]);
    }
  }

  lemma {:induction false} SpacedSpan(checks: seq<Check>, interval: int, k: nat)
    requires Spaced(checks, interval) && k < |checks|
    ensures checks[k].at - checks[0].at >= k * interval
  {
    if k > 0 {
      SpacedSpan(checks, interval, k - 1);
    }
  }

  /** In every run, whatever the restarts and changes of worker: k confirmations since
      progress was last cleared mean k recorded checks spread over at least (k-1) recheck
      intervals of store time, each recorded by the owner of a recovery claim. */
  lemma QuorumTakesTime(cfg: Config, tr: seq<Sys>, calls: seq<Call>, i: nat)
    requires Trace(cfg, tr, calls) && i < |tr| && tr[i].progress.Some?
    ensures var s := tr[i]; var k := s.progress.value.confirmations;
      && k == |s.checks| >= 1
      && s.checks[k - 1].at - s.checks[0].at >= (k - 1) * cfg.interval
      && s.progress.value.lastCheckAt == s.checks[k - 1].at <= Now(s)
      && forall j | 0 <= j < k :: ByRecoveryOwner(s.checks[j], s.claims)
  {
    ChecksAlways(cfg, tr, calls, i);
    SpacedSpan(tr[i].checks, cfg.interval, |tr[i].checks| - 1);
  }
}
