/** How long the ownership gate may take between renewing a lease and reading the record: while
    less than a lease it reads its own submission, from a lease on it may read another's. */
module GateLimits {
  import opened Common
  import opened CandidateRecord
  import opened CandidateScripts
  import opened LeaseProtocol
  import opened Recovery

  /** The worker itself gives its claim up. */
  predicate GivesUp(c: Call, token: string) {
    (c.Complete? || (c.Transition? && c.to.RetryableError?)) && c.token == token
  }

  lemma {:induction false} RenewalLasts(cfg: Config, tr: seq<Sys>, calls: seq<Call>, i: nat, j: nat, token: string)
    requires Trace(cfg, tr, calls) && i < j < |tr| && calls[i] == Renew(token) && TakesEffect(cfg, tr[i], calls[i])
    requires forall k | i < k < j :: !GivesUp(calls[k], token)
    ensures HeldSince(tr[j], token, Now(tr[i]))
  {
    InvAlways(cfg, tr, calls, j - 1);
    if j == i + 1 {
      FencedIsLatest(cfg, tr[i], token);
      assert tr[j].claims[|tr[i].claims| - 1].until == Now(tr[i]) + LEASE_SECONDS;
    } else {
      RenewalLasts(cfg, tr, calls, i, j - 1, token);
      HeldOn(cfg, tr[j - 1], calls[j - 1], token, Now(tr[i]));
    }
  }

  /** The ownership gate renews the lease and then reads the record; if it reads
      `broker_submitting` it lets the caller through without looking at the token. In every run,
      with or without key expiry, what it reads is the caller's own while less than a lease has
      passed since the renewal and the caller has not given its claim up. */
  lemma TimelyGateReadIsOwn(cfg: Config, tr: seq<Sys>, calls: seq<Call>, i: nat, j: nat, token: string)
    requires Trace(cfg, tr, calls) && i < j < |tr| && calls[i] == Renew(token) && TakesEffect(cfg, tr[i], calls[i])
    requires forall k | i < k < j :: !GivesUp(calls[k], token)
    requires Now(tr[j]) < Now(tr[i]) + LEASE_SECONDS
    ensures View(cfg, tr[j]).Some? && OwnsLease(View(cfg, tr[j]).value, token)
  {
    RenewalLasts(cfg, tr, calls, i, j, token);
    InvAlways(cfg, tr, calls, j);
    StillOwner(tr[j], token, Now(tr[i]));
  }

  function StallSetup(id: Identity): Setup { Setup(Config(id, false, 3), 2, ["x"], "y") }

  /** `a` renews and stalls for `delay` seconds; `b` claims the candidate, passes the gate and
      submits; `a` reads and submits too. */
  function StallEvents(delay: nat): seq<Event> {
    [Event.Claim("a", DEFAULT_POLICY), GateRenew("a"), Wait(1000 * delay),
     Event.Claim("b", DEFAULT_POLICY), GateRenew("b"), GateRead("b"), GateEnter("b"), Submit("b", "x", true),
     GateRead("a"), Submit("a", "x", true)]
  }

  function StallRecord(id: Identity, delay: nat, k: nat): Option<Record> {
    if k == 0 then None
    else if k <= 3 then Some(RecordOf(id, Processing, Some(("a", 120)), 1, None, 0))
    else if k <= 6 then Some(RecordOf(id, Processing, Some(("b", delay + 120)), 2, None, delay))
    else Some(RecordOf(id, BrokerSubmitting, Some(("b", delay + 120)), 2, None, delay))
  }

  function StallSys(id: Identity, delay: nat, k: nat): Sys {
    var both := [Claim.Claim("a", 0, 120, false), Claim.Claim("b", delay, delay + 120, false)];
    Sys(if k <= 2 then 0 else 1000 * delay, StallRecord(id, delay, k),
        if k == 0 then 0 else if k <= 3 then 120_000
        else if k <= 6 then 1000 * delay + 120_000 else 1000 * delay + RECORD_TTL_MS,
        None, 0, if k == 0 then [] else if k <= 3 then both[..1] else both, [])
  }

  function StallWorld(id: Identity, delay: nat, k: nat): World {
    World(StallSys(id, delay, k),
          if k <= 1 then map[] else if k <= 4 then map["a" := 0] else map["a" := 0, "b" := delay],
          if k <= 6 then map[] else if k <= 8 then map["b" := delay] else map["a" := delay, "b" := delay],
          if k <= 7 then [] else if k <= 9 then [Submission("b", "x", delay, true)]
          else [Submission("b", "x", delay, true), Submission("a", "x", delay, true)],
          [], {})
  }

  predicate StallSteps(id: Identity, delay: nat, k: nat)
    requires k < 10
  {
    && May(StallSetup(id), StallWorld(id, delay, k), StallEvents(delay)[k])
    && After(StallSetup(id), StallWorld(id, delay, k), StallEvents(delay)[k]) == StallWorld(id, delay, k + 1)
  }

  lemma StallClaims(id: Identity, delay: nat, k: nat)
    requires id.candidateId != "" && id.streamEventId != "" && delay >= LEASE_SECONDS && (k == 0 || k == 3)
    ensures StallSteps(id, delay, k)
  {
    var next := After(StallSetup(id), StallWorld(id, delay, k), StallEvents(delay)[k]);
    assert next.sys.claims == StallWorld(id, delay, k + 1).sys.claims;
  }

  lemma FirstRenewalStored(id: Identity, delay: nat)
    requires id.candidateId != "" && id.streamEventId != ""
    ensures TakesEffect(StallSetup(id).cfg, StallSys(id, delay, 1), Renew("a"))
    ensures Next(StallSetup(id).cfg, StallSys(id, delay, 1), Renew("a")) == StallSys(id, delay, 2)
  {
    var next := Next(StallSetup(id).cfg, StallSys(id, delay, 1), Renew("a"));
    assert next.claims == StallSys(id, delay, 2).claims;
  }

  lemma SecondRenewalStored(id: Identity, delay: nat)
    requires id.candidateId != "" && id.streamEventId != ""
    ensures TakesEffect(StallSetup(id).cfg, StallSys(id, delay, 4), Renew("b"))
    ensures Next(StallSetup(id).cfg, StallSys(id, delay, 4), Renew("b")) == StallSys(id, delay, 5)
  {
    var next := Next(StallSetup(id).cfg, StallSys(id, delay, 4), Renew("b"));
    assert next.claims == StallSys(id, delay, 5).claims;
  }

  lemma StallRenewals(id: Identity, delay: nat, k: nat)
    requires id.candidateId != "" && id.streamEventId != "" && (k == 1 || k == 4)
    ensures StallSteps(id, delay, k)
  {
    if k == 1 { FirstRenewalStored(id, delay); } else { SecondRenewalStored(id, delay); }
  }

  lemma StallEnters(id: Identity, delay: nat)
    requires id.candidateId != "" && id.streamEventId != "" && delay >= LEASE_SECONDS
    ensures StallSteps(id, delay, 6)
  {
    var next := After(StallSetup(id), StallWorld(id, delay, 6), StallEvents(delay)[6]);
    assert next.sys.claims == StallWorld(id, delay, 7).sys.claims;
  }

  lemma StallReads(id: Identity, delay: nat, k: nat)
    requires id.candidateId != "" && id.streamEventId != "" && delay >= LEASE_SECONDS && (k == 2 || k == 5 || k == 8)
    ensures StallSteps(id, delay, k)
  {
  }

  lemma StallSubmits(id: Identity, delay: nat, k: nat)
    requires id.candidateId != "" && id.streamEventId != "" && delay >= LEASE_SECONDS && (k == 7 || k == 9)
    ensures StallSteps(id, delay, k)
  {
    var next := After(StallSetup(id), StallWorld(id, delay, k), StallEvents(delay)[k]);
    assert next.submissions == StallWorld(id, delay, k + 1).submissions;
  }

  lemma StallStep(id: Identity, delay: nat, k: nat)
    requires id.candidateId != "" && id.streamEventId != "" && delay >= LEASE_SECONDS && k < 10
    ensures StallSteps(id, delay, k)
  {
    if k == 0 || k == 3 { StallClaims(id, delay, k); }
    else if k == 1 || k == 4 { StallRenewals(id, delay, k); }
    else if k == 6 { StallEnters(id, delay); }
    else if k == 7 || k == 9 { StallSubmits(id, delay, k); }
    else { StallReads(id, delay, k); }
  }

  /** The lease is exactly as long as the gate may take: for every delay of a lease or more there
      is a run, all other steps in time, in which two claims both pass the gate and the broker
      accepts an order of each. */
  lemma StalledGateLetsTwoClaimsThrough(id: Identity, delay: nat) returns (run: seq<World>)
    requires id.candidateId != "" && id.streamEventId != "" && delay >= LEASE_SECONDS
    ensures var p, events := StallSetup(id), StallEvents(delay);
      && Steps(p, run, events)
      && (forall k | 0 <= k < |events| :: (k == 8 || Timely(run[k], events[k])) && ClearedFirst(p, run[k], events[k]))
      && events[8] == GateRead("a") && "a" in run[8].renewed && Now(run[8].sys) == run[8].renewed["a"] + delay
      && exists a, b | a in run[10].submissions && b in run[10].submissions ::
           a.accepted && b.accepted && a.token != b.token
  {
    run := seq(11, k requires 0 <= k < 11 => StallWorld(id, delay, k));
    forall k | 0 <= k < 10
      ensures May(StallSetup(id), run[k], StallEvents(delay)[k])
              && run[k + 1] == After(StallSetup(id), run[k], StallEvents(delay)[k])
    {
      StallStep(id, delay, k);
      assert StallSteps(id, delay, k);
    }
    var b, a := Submission("b", "x", delay, true), Submission("a", "x", delay, true);
    assert run[10].submissions == [b, a];
    assert a in run[10].submissions && b in run[10].submissions;
  }
}
