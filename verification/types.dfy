/** Data model of the dual-TEE coordination contract: the enums and records
    that the contract stores under its keys (src/types.rs), the error values
    its failed assertions abort with, and the host inputs of one transaction. */
module Types {

  /** An unsigned byte. */
  newtype byte = x: int | 0 <= x < 256

  type Bytes = seq<byte>

  /** A host address: an opaque 32-byte value compared by equality. */
  type Address = a: Bytes | |a| == 32 witness seq(32, _ => 0 as byte)

  const U128_LIMIT: nat := 0x1_0000_0000_0000_0000_0000_0000_0000_0000

  /** Execution and challenge ids are `u128` in the contract. */
  type U128 = x: nat | x < U128_LIMIT

  datatype Option<T> = None | Some(value: T) {
    function GetOr(default: T): T {
      match this
      case Some(v) => v
      case None => default
    }
  }

  /** The two executor kinds; each one owns exactly one executor slot. */
  datatype EnclaveType = IntelSGX | AMDSEV

  /** The kind whose slot is not `k`'s. */
  function Other(k: EnclaveType): (o: EnclaveType)
    ensures o != k
  {
    if k == IntelSGX then AMDSEV else IntelSGX
  }

  /** Life-cycle phase. The source's `Phase::None` (the phase before
      initialization) is named `NoPhase` here, as `None` is `Option`'s. */
  datatype Phase = NoPhase | Creation | Executing | ChallengeExecutor | ChallengeWatchdog | Crashed

  datatype ChallengeType = Attestation | Execution | StateVerification | HeartbeatMissed

  datatype ChallengeStatus = Pending | Responded | Verified | Failed | Expired

  /** Per-operator record stored under `OperatorData(String)`. */
  datatype Operator = Operator(
    initialized: bool,
    keepId: string,
    attestationReport: Bytes,
    drawbridgeToken: Bytes,
    lastHeartbeat: nat,
    challengesInitiated: nat,
    challengesResponded: nat)

  /** The two kind-typed executor slots and their counters. */
  datatype ExecutorPool = ExecutorPool(
    sgxExecutor: Option<Address>,
    sevExecutor: Option<Address>,
    lastExecutionTime: nat,
    executionCount: nat,
    failedAttempts: nat)

  /** Registered watchdogs in registration order; nothing in the type makes
      the addresses unique. */
  datatype WatchdogPool = WatchdogPool(
    watchdogs: seq<(Address, EnclaveType)>,
    activeChallenges: seq<Challenge>,
    lastVerification: nat)

  datatype Challenge = Challenge(
    id: nat,
    challenger: Address,
    challenged: Address,
    challengeType: ChallengeType,
    data: Bytes,
    responseDeadline: nat,
    status: ChallengeStatus,
    verificationProofs: seq<Bytes>)

  datatype ChallengeProof = ChallengeProof(
    challengeId: nat,
    proofData: Bytes,
    timestamp: nat,
    witnessSignatures: seq<(Address, Bytes)>)

  datatype ExecutionResult = ExecutionResult(
    resultHash: Bytes,
    executionId: U128,
    executor: Address,
    enclaveType: EnclaveType,
    timestamp: nat,
    blockHeight: nat)

  /** One optional result per executor kind for an execution id, shaped like
      the off-chain pool's verification pair. */
  datatype ResultPair = ResultPair(sgx: Option<ExecutionResult>, sev: Option<ExecutionResult>)

  const EmptyPair := ResultPair(None, None)

  /** The error an aborted transaction reports; one value per distinct
      `assert!`/`expect`/`panic!` message of the contract. */
  datatype Error =
    | NotInitialized
    | AlreadyInitialized
    | InvalidPhase(expected: Phase, actual: Phase)
    | InvalidPhaseForWatchdog
    | InvalidAttestation
    | ExecutorPoolMissing
    | WatchdogPoolMissing
    | TokenContractMissing
    | SlotFilled(kind: EnclaveType)
    | UnauthorizedCaller
    | WatchdogAlreadyRegistered
    | UnauthorizedExecutor
    | NotAWatchdog
    | ChallengeNotFound
    | UnauthorizedResponder
    | ChallengeNotPending
    | DeadlinePassed
    | NotAuthorizedWatchdog
    | ChallengeNotInResponsePhase
    | UnauthorizedStaker

  datatype Result<T> = Ok(value: T) | Err(error: Error) {
    predicate IsFailure() {
      Err?
    }

    function PropagateFailure<U>(): Result<U>
      requires Err?
    {
      Err(error)
    }

    function Extract(): T
      requires Ok?
    {
      value
    }
  }

  /** What the host supplies with every transaction. */
  datatype Host = Host(caller: Address, timestamp: nat, blockHeight: nat)

  /** `verify_attestation_report(report, signature)`: the attestation oracle. */
  type AttestationOracle = (Bytes, Bytes) -> bool

  /** `verify_signature(hash, signature, signer)`: the signature oracle. */
  type SignatureOracle = (Bytes, Bytes, string) -> bool

  /** The slot of kind `k`. */
  function Slot(p: ExecutorPool, k: EnclaveType): Option<Address> {
    match k
    case IntelSGX => p.sgxExecutor
    case AMDSEV => p.sevExecutor
  }

  /** The pool with the slot of kind `k` set to `v`. */
  function SetSlot(p: ExecutorPool, k: EnclaveType, v: Option<Address>): (q: ExecutorPool)
    ensures Slot(q, k) == v
    ensures Slot(q, Other(k)) == Slot(p, Other(k))
    ensures q.lastExecutionTime == p.lastExecutionTime
    ensures q.executionCount == p.executionCount
    ensures q.failedAttempts == p.failedAttempts
  {
    match k
    case IntelSGX => p.(sgxExecutor := v)
    case AMDSEV => p.(sevExecutor := v)
  }

  /** The failure handlers' pool update: the slot holding `a` is emptied
      (SGX checked first, so only one slot even when `a` holds both) and
      the failure counter goes up by one. */
  function Vacate(p: ExecutorPool, a: Address): (q: ExecutorPool)
    ensures q.failedAttempts == p.failedAttempts + 1
    ensures q.executionCount == p.executionCount && q.lastExecutionTime == p.lastExecutionTime
    ensures p.sgxExecutor == Some(a) ==> q.sgxExecutor.None? && q.sevExecutor == p.sevExecutor
    ensures p.sgxExecutor != Some(a) && p.sevExecutor == Some(a) ==>
              q.sevExecutor.None? && q.sgxExecutor == p.sgxExecutor
    ensures !IsExecutor(p, a) ==> q.sgxExecutor == p.sgxExecutor && q.sevExecutor == p.sevExecutor
    ensures IsExecutor(q, a) <==> p.sgxExecutor == Some(a) && p.sevExecutor == Some(a)
  {
    if p.sgxExecutor == Some(a) then p.(sgxExecutor := None, failedAttempts := p.failedAttempts + 1)
    else if p.sevExecutor == Some(a) then p.(sevExecutor := None, failedAttempts := p.failedAttempts + 1)
    else p.(failedAttempts := p.failedAttempts + 1)
  }

  predicate IsExecutor(p: ExecutorPool, a: Address) {
    p.sgxExecutor == Some(a) || p.sevExecutor == Some(a)
  }

  predicate BothSlotsFilled(p: ExecutorPool) {
    p.sgxExecutor.Some? && p.sevExecutor.Some?
  }

  predicate BothSlotsEmpty(p: ExecutorPool) {
    p.sgxExecutor.None? && p.sevExecutor.None?
  }

  /** `watchdogs.iter().any(|(addr, _)| *addr == a)` */
  predicate IsWatchdog(ws: seq<(Address, EnclaveType)>, a: Address) {
    exists i :: 0 <= i < |ws| && ws[i].0 == a
  }

  /** No address occurs twice in the watchdog list. */
  predicate UniqueWatchdogs(ws: seq<(Address, EnclaveType)>) {
    forall i, j :: 0 <= i < j < |ws| ==> ws[i].0 != ws[j].0
  }

  /** The result of kind `k` in a pair. */
  function Side(r: ResultPair, k: EnclaveType): Option<ExecutionResult> {
    match k
    case IntelSGX => r.sgx
    case AMDSEV => r.sev
  }

  function WithSide(r: ResultPair, k: EnclaveType, v: ExecutionResult): (q: ResultPair)
    ensures Side(q, k) == Some(v)
    ensures Side(q, Other(k)) == Side(r, Other(k))
  {
    match k
    case IntelSGX => r.(sgx := Some(v))
    case AMDSEV => r.(sev := Some(v))
  }

  /** Each kind picks exactly one slot: writing one kind's slot is seen by
      that kind alone. */
  lemma SlotsAreIndependent(p: ExecutorPool, k: EnclaveType, v: Option<Address>)
    ensures forall j :: Slot(SetSlot(p, k, v), j) == (if j == k then v else Slot(p, j))
  {
    forall j ensures Slot(SetSlot(p, k, v), j) == (if j == k then v else Slot(p, j)) {
      if j != k {
        assert j == Other(k);
      }
    }
  }
}
