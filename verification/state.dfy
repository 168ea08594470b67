/** The contract's keyed store as one immutable record, and the read gates
    and the one write helper that every entrypoint shares (src/state.rs). */
module Store {
  import opened Types

  /** One field per key of the schema that the entrypoints read or write
      (`Contract`, `OperatorHash`, `StateRoot` and `VerificationProof` are
      not among them). A singleton key is an `Option`
      (`None` = never written); a keyed family is a map. Execution results
      are kept per kind, see `Types.ResultPair`. */
  datatype State = State(
    currentPhase: Option<Phase>,
    systemInitialized: Option<bool>,
    lastGlobalUpdate: Option<nat>,
    executorPool: Option<ExecutorPool>,
    watchdogPool: Option<WatchdogPool>,
    enclaveType: map<Address, EnclaveType>,
    operatorData: map<string, Operator>,
    attestationStatus: map<Address, bool>,
    heartbeatTimestamp: map<Address, nat>,
    contractCount: Option<nat>,
    activeContracts: Option<seq<nat>>,
    challenges: map<nat, Challenge>,
    activeChallenges: Option<seq<nat>>,
    challengeCount: Option<nat>,
    tokenContract: Option<Address>,
    governanceContract: Option<Address>,
    keepId: map<Address, string>,
    drawbridgeToken: map<Address, Bytes>,
    executionResult: map<U128, ResultPair>,
    executionVerified: map<U128, bool>,
    pendingVerifications: Option<seq<U128>>,
    executionMismatches: map<U128, (ExecutionResult, ExecutionResult)>)

  /** The store before any transaction. */
  const Empty := State(None, None, None, None, None, map[], map[], map[], map[],
                       None, None, map[], None, None, None, None, map[], map[],
                       map[], map[], None, map[])

  /** `SystemInitialized`, a missing key reading as false. */
  predicate Initialized(s: State) {
    s.systemInitialized.GetOr(false)
  }

  /** `CurrentPhase`, a missing key reading as `NoPhase`. */
  function PhaseOf(s: State): Phase {
    s.currentPhase.GetOr(NoPhase)
  }

  /** `PendingVerifications`, a missing key reading as the empty list. */
  function PendingIds(s: State): seq<U128> {
    s.pendingVerifications.GetOr([])
  }

  /** `ExecutionVerified(id)`, a missing key reading as false. */
  predicate IsVerified(s: State, id: U128) {
    id in s.executionVerified && s.executionVerified[id]
  }

  /** `ensure_initialized`: aborts unless `SystemInitialized` is stored as
      true. It returns no state, so it cannot write. */
  function EnsureInitialized(s: State): (r: Result<()>)
    ensures r.Ok? <==> s.systemInitialized == Some(true)
    ensures r.Err? ==> r.error == NotInitialized
  {
    if Initialized(s) then Ok(()) else Err(NotInitialized)
  }

  /** `ensure_phase(p)`: aborts unless the stored phase, `NoPhase` when
      missing, equals `p`. It returns no state, so it cannot write. */
  function EnsurePhase(s: State, p: Phase): (r: Result<()>)
    ensures r.Ok? <==> (s.currentPhase == Some(p) || (s.currentPhase.None? && p == NoPhase))
    ensures r.Err? ==> r.error == InvalidPhase(p, PhaseOf(s))
  {
    if PhaseOf(s) == p then Ok(()) else Err(InvalidPhase(p, PhaseOf(s)))
  }

  /** The keys that only `init` and execution submission write are left
      as they were: the initialization flag and the execution records. */
  predicate KeepsExecutions(s: State, s': State) {
    && s'.systemInitialized == s.systemInitialized
    && s'.executionResult == s.executionResult
    && s'.executionVerified == s.executionVerified
    && s'.pendingVerifications == s.pendingVerifications
    && s'.executionMismatches == s.executionMismatches
  }

  /** `update_global_state`: stamps `LastGlobalUpdate` and nothing else. */
  function UpdateGlobalState(s: State, timestamp: nat): (s': State)
    ensures s'.lastGlobalUpdate == Some(timestamp)
    ensures s'.(lastGlobalUpdate := s.lastGlobalUpdate) == s
  {
    s.(lastGlobalUpdate := Some(timestamp))
  }

  /** `transition_to_executing`: phase `Executing`, then the global stamp. */
  function TransitionToExecuting(s: State, timestamp: nat): (s': State)
    ensures PhaseOf(s') == Executing
    ensures s'.lastGlobalUpdate == Some(timestamp)
    ensures s'.(currentPhase := s.currentPhase, lastGlobalUpdate := s.lastGlobalUpdate) == s
  {
    UpdateGlobalState(s.(currentPhase := Some(Executing)), timestamp)
  }
}
