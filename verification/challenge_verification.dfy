/** Watchdog verification of an answered challenge
    (src/challenge/verification.rs): each watchdog call appends one proof;
    the call that brings the proof count to the quorum decides the
    challenge with its own verdict. */
module ChallengeVerification {
  import opened Types
  import opened Store

  /** `(W * 2) / 3 + 1`: the least count that is more than two thirds of
      `W`. */
  function Quorum(w: nat): (q: nat)
    ensures q >= 1
    ensures 3 * q > 2 * w
    ensures 3 * (q - 1) <= 2 * w
  {
    (w * 2) / 3 + 1
  }

  /** `handle_challenge_failure`: the challenged executor's slot is vacated
      (SGX slot checked first) and the failure counter goes up by one; if
      no executor is left the phase becomes `Crashed`, otherwise it stays. */
  function HandleChallengeFailure(s: State, challenged: Address): (r: Result<State>)
    ensures r.Ok? <==> s.executorPool.Some?
    ensures r.Err? ==> r.error == ExecutorPoolMissing
    ensures r.Ok? ==> r.value.executorPool == Some(Vacate(s.executorPool.value, challenged))
    ensures r.Ok? ==> r.value.executorPool.value.failedAttempts == s.executorPool.value.failedAttempts + 1
    ensures r.Ok? ==>
              (IsExecutor(r.value.executorPool.value, challenged) <==>
                 s.executorPool.value.sgxExecutor == Some(challenged)
                 && s.executorPool.value.sevExecutor == Some(challenged))
    ensures r.Ok? && BothSlotsEmpty(r.value.executorPool.value) ==> r.value.currentPhase == Some(Crashed)
    ensures r.Ok? && !BothSlotsEmpty(r.value.executorPool.value) ==> r.value.currentPhase == s.currentPhase
    ensures r.Ok? ==> r.value.challenges == s.challenges && r.value.watchdogPool == s.watchdogPool
    ensures r.Ok? ==> KeepsExecutions(s, r.value)
    ensures r.Ok? ==> r.value.(executorPool := s.executorPool, currentPhase := s.currentPhase) == s
  {
    if s.executorPool.None? then Err(ExecutorPoolMissing)
    else
      Ok(StorePool(s, Vacate(s.executorPool.value, challenged)))
  }

  /** Stores the reduced pool; with both slots empty the system has
      `Crashed`. */
  function StorePool(s: State, pool: ExecutorPool): (s': State)
    ensures s'.executorPool == Some(pool)
    ensures BothSlotsEmpty(pool) ==> s'.currentPhase == Some(Crashed)
    ensures !BothSlotsEmpty(pool) ==> s'.currentPhase == s.currentPhase
    ensures s'.(executorPool := s.executorPool, currentPhase := s.currentPhase) == s
  {
    s.(executorPool := Some(pool), currentPhase := if BothSlotsEmpty(pool) then Some(Crashed) else s.currentPhase)
  }

  /** The assertions `verify_challenge_response` makes before writing: the
      system is initialized, the caller is a registered watchdog, and the
      challenge exists and is `Responded`. */
  function CheckVerifier(s: State, host: Host, id: nat): (r: Result<Challenge>)
    ensures r.Ok? <==>
      && Initialized(s) && s.watchdogPool.Some?
      && IsWatchdog(s.watchdogPool.value.watchdogs, host.caller)
      && id in s.challenges && s.challenges[id].status == Responded
    ensures r.Ok? ==> r.value == s.challenges[id]
    ensures !Initialized(s) ==> r == Err(NotInitialized)
    ensures Initialized(s) && s.watchdogPool.None? ==> r == Err(WatchdogPoolMissing)
    ensures Initialized(s) && s.watchdogPool.Some?
            && !IsWatchdog(s.watchdogPool.value.watchdogs, host.caller) ==>
              r == Err(NotAuthorizedWatchdog)
    ensures Initialized(s) && s.watchdogPool.Some?
            && IsWatchdog(s.watchdogPool.value.watchdogs, host.caller)
            && id !in s.challenges ==>
              r == Err(ChallengeNotFound)
    ensures Initialized(s) && s.watchdogPool.Some?
            && IsWatchdog(s.watchdogPool.value.watchdogs, host.caller)
            && id in s.challenges && s.challenges[id].status != Responded ==>
              r == Err(ChallengeNotInResponsePhase)
  {
    var _ :- EnsureInitialized(s);
    if s.watchdogPool.None? then Err(WatchdogPoolMissing)
    else if !IsWatchdog(s.watchdogPool.value.watchdogs, host.caller) then Err(NotAuthorizedWatchdog)
    else if id !in s.challenges then Err(ChallengeNotFound)
    else if s.challenges[id].status != Responded then Err(ChallengeNotInResponsePhase)
    else Ok(s.challenges[id])
  }

  /** The quorum was reached with a positive verdict: the challenge is
      `Verified` and the system returns to `Executing`, whatever its phase
      was. */
  function Accept(s: State, timestamp: nat, id: nat, c: Challenge): (s': State)
    ensures PhaseOf(s') == Executing
    ensures s'.lastGlobalUpdate == Some(timestamp)
    ensures s'.challenges == s.challenges[id := c.(status := Verified)]
    ensures s'.executorPool == s.executorPool
    ensures s'.watchdogPool == s.watchdogPool
    ensures KeepsExecutions(s, s')
    ensures s'.(challenges := s.challenges, currentPhase := s.currentPhase,
                lastGlobalUpdate := s.lastGlobalUpdate) == s
  {
    TransitionToExecuting(s, timestamp).(challenges := s.challenges[id := c.(status := Verified)])
  }

  /** The quorum was reached with a negative verdict: the challenge is
      `Failed` and the challenged executor is dropped. */
  function Reject(s: State, id: nat, c: Challenge): (r: Result<State>)
    ensures r.Ok? <==> s.executorPool.Some?
    ensures r.Err? ==> r.error == ExecutorPoolMissing
    ensures r.Ok? ==>
      && r.value.challenges == s.challenges[id := c.(status := Failed)]
      && r.value.executorPool.Some?
      && r.value.executorPool.value.failedAttempts == s.executorPool.value.failedAttempts + 1
      && (BothSlotsEmpty(r.value.executorPool.value) ==> PhaseOf(r.value) == Crashed)
      && (!BothSlotsEmpty(r.value.executorPool.value) ==> r.value.currentPhase == s.currentPhase)
      && r.value.watchdogPool == s.watchdogPool
      && r.value.executorPool == Some(Vacate(s.executorPool.value, c.challenged))
      && KeepsExecutions(s, r.value)
    ensures r.Ok? ==>
      r.value.(challenges := s.challenges, executorPool := s.executorPool,
               currentPhase := s.currentPhase) == s
  {
    var s1 :- HandleChallengeFailure(s, c.challenged);
    Ok(s1.(challenges := s1.challenges[id := c.(status := Failed)]))
  }

  /** `verify_challenge_response`. The caller's proof is appended, with no
      check that this watchdog has not verified before. Below the quorum of
      `Quorum(W)` proofs (W watchdogs; the response itself is the first
      proof) the challenge stays `Responded`; the call that reaches it
      decides with its own verdict. */
  function VerifyChallengeResponse(s: State, host: Host, id: nat, verdict: bool,
                                   proof: Bytes): (r: Result<State>)
    ensures r.Ok? ==> CheckVerifier(s, host, id).Ok?
    ensures CheckVerifier(s, host, id).Err? ==> r == Err(CheckVerifier(s, host, id).error)
    ensures CheckVerifier(s, host, id).Ok? ==>
      var c := s.challenges[id];
      var decides := |c.verificationProofs| + 1 >= Quorum(|s.watchdogPool.value.watchdogs|);
      (r.Ok? <==> !decides || verdict || s.executorPool.Some?)
    ensures r.Ok? ==> id in r.value.challenges
    ensures r.Ok? ==>
      var c := s.challenges[id];
      var c' := r.value.challenges[id];
      && c'.verificationProofs == c.verificationProofs + [proof]
      && c'.challenged == c.challenged
      && c'.challengeType == c.challengeType
      && c'.id == c.id
      && r.value.watchdogPool == s.watchdogPool
      && KeepsExecutions(s, r.value)
      && (forall j :: j in s.challenges && j != id ==>
            j in r.value.challenges && r.value.challenges[j] == s.challenges[j])
    ensures r.Ok? ==> r.value.challenges == s.challenges[id := r.value.challenges[id]]
    ensures r.Ok? ==>
      r.value.challenges[id].(status := s.challenges[id].status)
        == s.challenges[id].(verificationProofs := s.challenges[id].verificationProofs + [proof])
    ensures r.Ok? ==>
      var c := s.challenges[id];
      var decides := |c.verificationProofs| + 1 >= Quorum(|s.watchdogPool.value.watchdogs|);
      var c' := r.value.challenges[id];
      && (!decides ==> c'.status == Responded && r.value.currentPhase == s.currentPhase
                       && r.value.executorPool == s.executorPool
                       && r.value.(challenges := s.challenges) == s)
      && (decides && verdict ==>
            && c'.status == Verified && PhaseOf(r.value) == Executing
            && r.value.lastGlobalUpdate == Some(host.timestamp)
            && r.value.executorPool == s.executorPool
            && r.value.(challenges := s.challenges, currentPhase := s.currentPhase,
                        lastGlobalUpdate := s.lastGlobalUpdate) == s)
      && (decides && !verdict ==>
            && c'.status == Failed
            && r.value.executorPool.Some? && s.executorPool.Some?
            && r.value.executorPool.value.failedAttempts == s.executorPool.value.failedAttempts + 1
            && r.value.executorPool == Some(Vacate(s.executorPool.value, c.challenged))
            && (BothSlotsEmpty(r.value.executorPool.value) ==> PhaseOf(r.value) == Crashed)
            && (!BothSlotsEmpty(r.value.executorPool.value) ==> r.value.currentPhase == s.currentPhase)
            && r.value.(challenges := s.challenges, executorPool := s.executorPool,
                        currentPhase := s.currentPhase) == s)
  {
    var c :- CheckVerifier(s, host, id);
    var c1 := c.(verificationProofs := c.verificationProofs + [proof]);
    if |c1.verificationProofs| < Quorum(|s.watchdogPool.value.watchdogs|) then
      Ok(s.(challenges := s.challenges[id := c1]))
    else if verdict then
      Ok(Accept(s, host.timestamp, id, c1))
    else
      Reject(s, id, c1)
  }

  /** No de-duplication: one watchdog calling twice counts twice. When the
      challenge is two proofs short of the quorum, the same watchdog's
      second call decides it, with that call's verdict. */
  lemma OneWatchdogCanDecide(s: State, host: Host, id: nat, v1: bool, p1: Bytes,
                             host2: Host, v2: bool, p2: Bytes)
    requires host2.caller == host.caller
    requires CheckVerifier(s, host, id).Ok?
    requires s.executorPool.Some?
    requires |s.challenges[id].verificationProofs| + 2 == Quorum(|s.watchdogPool.value.watchdogs|)
    ensures var r1 := VerifyChallengeResponse(s, host, id, v1, p1);
      && r1.Ok?
      && var r2 := VerifyChallengeResponse(r1.value, host2, id, v2, p2);
      && r2.Ok?
      && r2.value.challenges[id].verificationProofs == s.challenges[id].verificationProofs + [p1, p2]
      && r2.value.challenges[id].status == (if v2 then Verified else Failed)
  {
    var s1 := VerifyChallengeResponse(s, host, id, v1, p1).value;
    assert s1.challenges[id].status == Responded;
    assert s1.watchdogPool == s.watchdogPool;
    assert s1.executorPool == s.executorPool;
    assert CheckVerifier(s1, host2, id).Ok?;
    assert s.challenges[id].verificationProofs + [p1] + [p2] == s.challenges[id].verificationProofs + [p1, p2];
  }

  /** Ids in `ids` whose stored challenge has status `st`. */
  function CountStatus(challenges: map<nat, Challenge>, ids: seq<nat>, st: ChallengeStatus): (n: nat)
    ensures n <= |ids|
  {
    if ids == [] then 0
    else
      var last := ids[|ids| - 1];
      CountStatus(challenges, ids[..|ids| - 1], st)
        + (if last in challenges && challenges[last].status == st then 1 else 0)
  }

  /** A challenge has one status, so the three tallies together never
      exceed the number of ids scanned. */
  lemma {:induction false} TalliesBounded(challenges: map<nat, Challenge>, ids: seq<nat>)
    ensures CountStatus(challenges, ids, Pending) + CountStatus(challenges, ids, Verified)
            + CountStatus(challenges, ids, Failed) <= |ids|
  {
    if ids != [] {
      TalliesBounded(challenges, ids[..|ids| - 1]);
    }
  }

  /** `get_challenge_stats`: the challenge count (0 when missing) and, over
      the active challenge list, how many challenges are `Pending`,
      `Verified` and `Failed`; ids with no stored challenge and the other
      statuses are skipped. */
  method GetChallengeStats(s: State) returns (r: Result<(nat, nat, nat, nat)>)
    ensures r.Ok? <==> Initialized(s)
    ensures r.Err? ==> r.error == NotInitialized
    ensures r.Ok? ==>
      var ids := s.activeChallenges.GetOr([]);
      && r.value.0 == s.challengeCount.GetOr(0)
      && r.value.1 == CountStatus(s.challenges, ids, Pending)
      && r.value.2 == CountStatus(s.challenges, ids, Verified)
      && r.value.3 == CountStatus(s.challenges, ids, Failed)
      && r.value.1 + r.value.2 + r.value.3 <= |ids|
  {
    if !Initialized(s) {
      return Err(NotInitialized);
    }
    var total := s.challengeCount.GetOr(0);
    var ids := s.activeChallenges.GetOr([]);
    var pending, verified, failed := 0, 0, 0;
    var i := 0;
    while i < |ids|
      invariant 0 <= i <= |ids|
      invariant pending == CountStatus(s.challenges, ids[..i], Pending)
      invariant verified == CountStatus(s.challenges, ids[..i], Verified)
      invariant failed == CountStatus(s.challenges, ids[..i], Failed)
    {
      assert ids[..i + 1][..i] == ids[..i];
      var id := ids[i];
      if id in s.challenges {
        match s.challenges[id].status
        case Pending => pending := pending + 1;
        case Verified => verified := verified + 1;
        case Failed => failed := failed + 1;
        case _ =>
      }
      i := i + 1;
    }
    assert ids[..|ids|] == ids;
    TalliesBounded(s.challenges, ids);
    return Ok((total, pending, verified, failed));
  }
}
