/** The challenged executor's answer (src/challenge/response.rs): it moves
    a `Pending` challenge to `Responded`, counts the response for its
    operator and, for an attestation challenge, checks the attestation at
    once, vacating the executor's slot when the check fails. */
module ChallengeResponse {
  import opened Types
  import opened Store

  /** Whether every witness of a proof is a registered watchdog. */
  function AllWatchdogs(ws: seq<(Address, EnclaveType)>, witnesses: seq<(Address, Bytes)>): (b: bool)
    ensures b <==> forall i :: 0 <= i < |witnesses| ==> IsWatchdog(ws, witnesses[i].0)
  {
    if witnesses == [] then true
    else
      var rest := AllWatchdogs(ws, witnesses[1..]);
      assert forall i :: 1 <= i < |witnesses| ==> witnesses[i] == witnesses[1..][i - 1];
      IsWatchdog(ws, witnesses[0].0) && rest
  }

  /** `verify_challenge_proof`: true iff every witness is a registered
      watchdog, so true for a proof without witnesses. The pool is read
      once per witness, so a missing pool aborts the call only when there
      is a witness to check. */
  function VerifyChallengeProof(s: State, proof: ChallengeProof): (r: Result<bool>)
    ensures r.Err? <==> |proof.witnessSignatures| > 0 && s.watchdogPool.None?
    ensures r.Err? ==> r.error == WatchdogPoolMissing
    ensures r.Ok? ==>
      (r.value <==> forall i :: 0 <= i < |proof.witnessSignatures| ==>
                      s.watchdogPool.Some?
                      && IsWatchdog(s.watchdogPool.value.watchdogs, proof.witnessSignatures[i].0))
  {
    if proof.witnessSignatures == [] then Ok(true)
    else if s.watchdogPool.None? then Err(WatchdogPoolMissing)
    else Ok(AllWatchdogs(s.watchdogPool.value.watchdogs, proof.witnessSignatures))
  }

  /** `handle_failed_challenge`: the executor's slot is vacated (SGX slot
      checked first) and the failure counter goes up by one. Unlike the
      verification path it never moves the phase to `Crashed`. */
  function HandleFailedChallenge(s: State, challenged: Address): (r: Result<State>)
    ensures r.Ok? <==> s.executorPool.Some?
    ensures r.Err? ==> r.error == ExecutorPoolMissing
    ensures r.Ok? ==>
      var p := s.executorPool.value;
      var s' := r.value;
      && s'.executorPool.Some?
      && s'.executorPool.value.failedAttempts == p.failedAttempts + 1
      && (IsExecutor(s'.executorPool.value, challenged) <==>
            p.sgxExecutor == Some(challenged) && p.sevExecutor == Some(challenged))
      && s'.currentPhase == s.currentPhase
      && s'.challenges == s.challenges
      && s'.operatorData == s.operatorData
      && s'.attestationStatus == s.attestationStatus
    ensures r.Ok? ==> r.value.executorPool == Some(Vacate(s.executorPool.value, challenged))
    ensures r.Ok? ==> r.value.watchdogPool == s.watchdogPool && KeepsExecutions(s, r.value)
    ensures r.Ok? ==> r.value.(executorPool := s.executorPool) == s
  {
    if s.executorPool.None? then Err(ExecutorPoolMissing)
    else Ok(s.(executorPool := Some(Vacate(s.executorPool.value, challenged))))
  }

  /** `verify_attestation_challenge`: the attestation oracle judges the
      proof data (with an empty signature). Accepted, the challenged
      address's attestation status becomes true; rejected, the challenge
      counts as failed. The phase never changes. */
  function VerifyAttestationChallenge(s: State, attest: AttestationOracle, challenged: Address,
                                      proof: ChallengeProof): (r: Result<State>)
    ensures r.Ok? <==> attest(proof.proofData, []) || s.executorPool.Some?
    ensures attest(proof.proofData, []) ==>
              && r.Ok?
              && r.value.attestationStatus == s.attestationStatus[challenged := true]
              && r.value.executorPool == s.executorPool
    ensures !attest(proof.proofData, []) ==> r == HandleFailedChallenge(s, challenged)
    ensures r.Ok? ==>
      && r.value.currentPhase == s.currentPhase
      && r.value.challenges == s.challenges
      && r.value.operatorData == s.operatorData
      && r.value.watchdogPool == s.watchdogPool
      && KeepsExecutions(s, r.value)
    ensures r.Ok? ==> r.value.(executorPool := s.executorPool, attestationStatus := s.attestationStatus) == s
  {
    if attest(proof.proofData, []) then
      Ok(s.(attestationStatus := s.attestationStatus[challenged := true]))
    else
      HandleFailedChallenge(s, challenged)
  }

  /** The assertions `respond_to_challenge` makes before writing anything:
      the system is initialized, the challenge exists, the caller is the
      challenged party, the challenge is `Pending`, and the deadline has
      not passed (a response at the deadline itself is in time). */
  function CheckResponder(s: State, host: Host, id: nat): (r: Result<Challenge>)
    ensures r.Ok? <==>
      && Initialized(s) && id in s.challenges
      && s.challenges[id].challenged == host.caller
      && s.challenges[id].status == Pending
      && host.timestamp <= s.challenges[id].responseDeadline
    ensures r.Ok? ==> r.value == s.challenges[id]
    ensures !Initialized(s) ==> r == Err(NotInitialized)
    ensures Initialized(s) && id !in s.challenges ==> r == Err(ChallengeNotFound)
    ensures Initialized(s) && id in s.challenges && s.challenges[id].challenged != host.caller ==>
              r == Err(UnauthorizedResponder)
    ensures Initialized(s) && id in s.challenges && s.challenges[id].challenged == host.caller
            && s.challenges[id].status != Pending ==>
              r == Err(ChallengeNotPending)
    ensures Initialized(s) && id in s.challenges && s.challenges[id].challenged == host.caller
            && s.challenges[id].status == Pending
            && host.timestamp > s.challenges[id].responseDeadline ==>
              r == Err(DeadlinePassed)
  {
    var _ :- EnsureInitialized(s);
    if id !in s.challenges then Err(ChallengeNotFound)
    else
      var c := s.challenges[id];
      if c.challenged != host.caller then Err(UnauthorizedResponder)
      else if c.status != Pending then Err(ChallengeNotPending)
      else if host.timestamp > c.responseDeadline then Err(DeadlinePassed)
      else Ok(c)
  }

  /** The responder's operator record under its string key, with one more
      challenge responded; no record, no change. */
  function CountResponse(ops: map<string, Operator>, key: string): (ops': map<string, Operator>)
    ensures ops'.Keys == ops.Keys
    ensures key in ops ==> ops'[key] == ops[key].(challengesResponded := ops[key].challengesResponded + 1)
    ensures forall k :: k in ops && k != key ==> ops'[k] == ops[k]
  {
    if key in ops then ops[key := ops[key].(challengesResponded := ops[key].challengesResponded + 1)]
    else ops
  }

  /** Stores the challenge as `Responded` with the response appended, and
      counts the response for the responder's operator record. */
  function RecordResponse(s: State, responder: string, id: nat, c: Challenge, response: Bytes): (s': State)
    ensures id in s'.challenges
    ensures s'.challenges[id].status == Responded
    ensures s'.challenges[id].verificationProofs == c.verificationProofs + [response]
    ensures s'.challenges[id].(status := c.status, verificationProofs := c.verificationProofs) == c
    ensures forall j :: j in s.challenges && j != id ==> j in s'.challenges && s'.challenges[j] == s.challenges[j]
    ensures s'.operatorData == CountResponse(s.operatorData, responder)
    ensures s'.currentPhase == s.currentPhase
    ensures s'.executorPool == s.executorPool
    ensures s'.attestationStatus == s.attestationStatus
    ensures s'.watchdogPool == s.watchdogPool
    ensures KeepsExecutions(s, s')
    ensures s'.(challenges := s.challenges, operatorData := s.operatorData) == s
  {
    var c' := c.(status := Responded, verificationProofs := c.verificationProofs + [response]);
    s.(challenges := s.challenges[id := c'],
       operatorData := CountResponse(s.operatorData, responder))
  }

  /** `respond_to_challenge`. After the gates, the witness check runs but
      its verdict is discarded (only a missing watchdog pool can abort
      there). The challenge becomes `Responded` with the response bytes
      appended, the responder's operator record, looked up under
      `render(caller)`, counts one more response, and an attestation
      challenge is checked at once. The phase never changes. */
  function RespondToChallenge(s: State, host: Host, attest: AttestationOracle,
                              render: Address -> string, id: nat,
                              response: Bytes, proof: ChallengeProof): (r: Result<State>)
    ensures r.Ok? ==> CheckResponder(s, host, id).Ok?
    ensures CheckResponder(s, host, id).Err? ==> r == Err(CheckResponder(s, host, id).error)
    ensures CheckResponder(s, host, id).Ok? ==>
      (r.Ok? <==>
        && (|proof.witnessSignatures| == 0 || s.watchdogPool.Some?)
        && (s.challenges[id].challengeType != Attestation || attest(proof.proofData, [])
            || s.executorPool.Some?))
    ensures r.Ok? ==>
      var c := s.challenges[id];
      var s' := r.value;
      && id in s'.challenges
      && s'.challenges[id] == c.(status := Responded, verificationProofs := c.verificationProofs + [response])
      && s'.currentPhase == s.currentPhase
      && s'.watchdogPool == s.watchdogPool
      && KeepsExecutions(s, s')
      && s'.operatorData == CountResponse(s.operatorData, render(host.caller))
    ensures r.Ok? ==> r.value.challenges == s.challenges[id := r.value.challenges[id]]
    ensures r.Ok? && s.challenges[id].challengeType == Attestation
            && attest(proof.proofData, []) ==>
              && r.value.attestationStatus == s.attestationStatus[host.caller := true]
              && r.value.executorPool == s.executorPool
    ensures r.Ok? ==>
      r.value.(challenges := s.challenges, operatorData := s.operatorData,
               attestationStatus := s.attestationStatus, executorPool := s.executorPool) == s
    ensures r.Ok? && s.challenges[id].challengeType == Attestation
            && !attest(proof.proofData, []) ==>
              && r.value.executorPool.Some?
              && r.value.executorPool.value.failedAttempts == s.executorPool.value.failedAttempts + 1
              && r.value.executorPool == Some(Vacate(s.executorPool.value, host.caller))
    ensures r.Ok? && s.challenges[id].challengeType != Attestation ==>
              && r.value.executorPool == s.executorPool
              && r.value.attestationStatus == s.attestationStatus
  {
    var c :- CheckResponder(s, host, id);
    var _ :- VerifyChallengeProof(s, proof);
    var s1 := RecordResponse(s, render(host.caller), id, c, response);
    if c.challengeType == Attestation then VerifyAttestationChallenge(s1, attest, c.challenged, proof)
    else Ok(s1)
  }

  /** Only a `Pending` challenge can be answered: a challenge that has been
      answered, verified or failed rejects every further response. */
  lemma RespondOnlyOnce(s: State, host: Host, attest: AttestationOracle, render: Address -> string,
                        id: nat, response: Bytes, proof: ChallengeProof,
                        host2: Host, response2: Bytes, proof2: ChallengeProof)
    requires RespondToChallenge(s, host, attest, render, id, response, proof).Ok?
    ensures RespondToChallenge(RespondToChallenge(s, host, attest, render, id, response, proof).value,
                               host2, attest, render, id, response2, proof2).Err?
  {
    var s' := RespondToChallenge(s, host, attest, render, id, response, proof).value;
    assert s'.challenges[id].status == Responded;
  }
}
