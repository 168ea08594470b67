/** The one-time `init` entrypoint (src/core/init.rs). */
module Init {
  import opened Types
  import opened Store

  /** The operator record `init` writes for each of the two operators. */
  function FreshOperator(timestamp: nat): (op: Operator)
    ensures op.initialized
    ensures op.lastHeartbeat == timestamp
    ensures op.challengesInitiated == 0 && op.challengesResponded == 0
  {
    Operator(true, "", [], [], timestamp, 0, 0)
  }

  /** `init`: fails if the system is already initialized; otherwise sets the
      phase to `Creation`, stores empty pools, the two operator records, the
      two collaborator addresses, zero counters and empty tracking lists,
      all in one transaction. Keys `init` does not name are left as they
      were. */
  function Init(s: State, host: Host, sgxOperator: string, sevOperator: string,
                tokenContract: Address, governanceContract: Address): (r: Result<State>)
    ensures r.Err? <==> Initialized(s)
    ensures r.Err? ==> r.error == AlreadyInitialized
    ensures r.Ok? ==>
      var s' := r.value;
      && s'.systemInitialized == Some(true)
      && PhaseOf(s') == Creation
      && s'.executorPool.Some?
      && BothSlotsEmpty(s'.executorPool.value)
      && s'.executorPool.value.executionCount == 0
      && s'.executorPool.value.failedAttempts == 0
      && s'.watchdogPool.Some?
      && s'.watchdogPool.value.watchdogs == []
      && s'.watchdogPool.value.activeChallenges == []
      && sgxOperator in s'.operatorData && sevOperator in s'.operatorData
      && s'.operatorData[sgxOperator].initialized
      && s'.operatorData[sevOperator].initialized
      && s'.operatorData[sgxOperator].challengesInitiated == 0
      && s'.operatorData[sgxOperator].challengesResponded == 0
      && s'.operatorData[sevOperator].challengesInitiated == 0
      && s'.operatorData[sevOperator].challengesResponded == 0
      && s'.tokenContract == Some(tokenContract)
      && s'.governanceContract == Some(governanceContract)
      && s'.lastGlobalUpdate == Some(host.timestamp)
      && s'.executorPool.value.lastExecutionTime == host.timestamp
      && s'.watchdogPool.value.lastVerification == host.timestamp
      && s'.operatorData[sgxOperator].lastHeartbeat == host.timestamp
      && s'.operatorData[sevOperator].lastHeartbeat == host.timestamp
      && s'.contractCount == Some(0)
      && s'.challengeCount == Some(0)
      && s'.activeContracts == Some([])
      && s'.activeChallenges == Some([])
    ensures r.Ok? ==>
      var s' := r.value;
      && s'.enclaveType == s.enclaveType
      && s'.challenges == s.challenges
      && s'.executionResult == s.executionResult
      && s'.pendingVerifications == s.pendingVerifications
      && s'.executionVerified == s.executionVerified
      && s'.executionMismatches == s.executionMismatches
      && (forall k :: k in s.operatorData && k != sgxOperator && k != sevOperator ==>
            k in s'.operatorData && s'.operatorData[k] == s.operatorData[k])
    ensures r.Ok? ==>
      r.value.(currentPhase := s.currentPhase, systemInitialized := s.systemInitialized,
               executorPool := s.executorPool, watchdogPool := s.watchdogPool,
               operatorData := s.operatorData, tokenContract := s.tokenContract,
               governanceContract := s.governanceContract, lastGlobalUpdate := s.lastGlobalUpdate,
               contractCount := s.contractCount, challengeCount := s.challengeCount,
               activeContracts := s.activeContracts, activeChallenges := s.activeChallenges) == s
  {
    if Initialized(s) then
      Err(AlreadyInitialized)
    else
      var ts := host.timestamp;
      var executorPool := ExecutorPool(None, None, ts, 0, 0);
      var watchdogPool := WatchdogPool([], [], ts);
      Ok(s.(currentPhase := Some(Creation),
            systemInitialized := Some(true),
            executorPool := Some(executorPool),
            watchdogPool := Some(watchdogPool),
            operatorData := s.operatorData[sgxOperator := FreshOperator(ts)]
                                          [sevOperator := FreshOperator(ts)],
            tokenContract := Some(tokenContract),
            governanceContract := Some(governanceContract),
            lastGlobalUpdate := Some(ts),
            contractCount := Some(0),
            challengeCount := Some(0),
            activeContracts := Some([]),
            activeChallenges := Some([])))
  }

  /** `init` succeeds at most once: whatever follows a successful `init`,
      a second `init` on its result is rejected. */
  lemma InitOnlyOnce(s: State, host: Host, a: string, b: string, t: Address, g: Address,
                     host2: Host, a2: string, b2: string, t2: Address, g2: Address)
    requires Init(s, host, a, b, t, g).Ok?
    ensures Init(Init(s, host, a, b, t, g).value, host2, a2, b2, t2, g2) == Err(AlreadyInitialized)
  {
  }
}
