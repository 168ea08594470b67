/** Challenge creation (src/challenge/create.rs): a registered watchdog
    opens a `Pending` challenge against an executor. */
module ChallengeCreate {
  import opened Types
  import opened Store

  /** What the challenger asks the executor to prove; only the variant
      matters to the contract, it picks the challenge type. */
  datatype ChallengeEvidence =
    | AttestationEvidence(report: Bytes, drawbridgeToken: Bytes, keepHealth: Bytes)
    | ExecutionEvidence(resultHash: Bytes, executionProof: Bytes, keepMeasurement: Bytes)

  /** The challenge type an evidence variant calls for. */
  function TypeFor(evidence: ChallengeEvidence): (t: ChallengeType)
    ensures t == Attestation <==> evidence.AttestationEvidence?
    ensures t == Execution <==> evidence.ExecutionEvidence?
  {
    match evidence
    case AttestationEvidence(_, _, _) => Attestation
    case ExecutionEvidence(_, _, _) => Execution
  }

  /** `ensure_watchdog`: the watchdog pool must exist and list `a`. */
  function EnsureWatchdog(s: State, a: Address): (r: Result<()>)
    ensures r.Ok? <==> s.watchdogPool.Some? && IsWatchdog(s.watchdogPool.value.watchdogs, a)
    ensures s.watchdogPool.None? ==> r == Err(WatchdogPoolMissing)
    ensures s.watchdogPool.Some? && !IsWatchdog(s.watchdogPool.value.watchdogs, a) ==>
              r == Err(NotAWatchdog)
  {
    if s.watchdogPool.None? then Err(WatchdogPoolMissing)
    else if !IsWatchdog(s.watchdogPool.value.watchdogs, a) then Err(NotAWatchdog)
    else Ok(())
  }

  /** `challenge_executor`: the caller must be a registered watchdog. The
      new challenge names the caller as challenger and `executor` as the
      challenged party, takes its type from the evidence (the requested
      type is not used), is `Pending` with no proofs, and is due `timeout`
      after the current time. It is stored under `Challenge(id)`; `id` is
      the freshly generated id and `timeout` the source's undefined
      `CHALLENGE_TIMEOUT`. Neither the system's initialization nor its
      phase is checked, and the phase does not change. */
  function ChallengeExecutor(s: State, host: Host, executor: Address, requested: ChallengeType,
                             evidence: ChallengeEvidence, id: U128, timeout: nat): (r: Result<(State, Challenge)>)
    ensures r.Ok? <==> s.watchdogPool.Some? && IsWatchdog(s.watchdogPool.value.watchdogs, host.caller)
    ensures s.watchdogPool.None? ==> r == Err(WatchdogPoolMissing)
    ensures s.watchdogPool.Some? && !IsWatchdog(s.watchdogPool.value.watchdogs, host.caller) ==>
              r == Err(NotAWatchdog)
    ensures r.Ok? ==>
      var c := r.value.1;
      && c.id == id
      && c.challenger == host.caller
      && c.challenged == executor
      && c.challengeType == TypeFor(evidence)
      && c.status == Pending
      && c.responseDeadline == host.timestamp + timeout
      && c.verificationProofs == []
    ensures r.Ok? ==>
      var s' := r.value.0;
      && s'.challenges == s.challenges[id := r.value.1]
      && s'.currentPhase == s.currentPhase
      && s'.executorPool == s.executorPool
      && s'.watchdogPool == s.watchdogPool
      && KeepsExecutions(s, s')
    ensures r.Ok? ==> r.value.0.(challenges := s.challenges) == s
  {
    var _ :- EnsureWatchdog(s, host.caller);
    var c := Challenge(id, host.caller, executor, TypeFor(evidence), [],
                       host.timestamp + timeout, Pending, []);
    Ok((s.(challenges := s.challenges[id := c]), c))
  }
}
