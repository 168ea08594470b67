/** The off-chain executor pool (src/executor/pool.rs): the two executor
    instances, the watchdog verifiers, and the per-execution verification
    pairs. Keep launch, Keep execution and the evidence checks go through
    the Enarx API; their outcomes are inputs here. Unlike the contract,
    the pool is not transactional: what a call wrote before failing stays
    written. */
module Pool {
  import opened Types

  datatype ExecutorStatus = Active | Challenged | PendingReplacement | ExecutorFailed

  /** A registered executor with the id of the Keep launched for it. */
  datatype ExecutorInstance = ExecutorInstance(
    address: Address,
    keepId: string,
    lastVerifiedResult: Option<ExecutionResult>,
    status: ExecutorStatus)

  datatype WatchdogVerifier = WatchdogVerifier(
    address: Address,
    enclaveType: EnclaveType,
    verificationCount: nat,
    lastChallenge: Option<U128>)

  /** Both kinds' results for one execution and the last comparison. */
  datatype VerificationPair = VerificationPair(
    sgxResult: Option<ExecutionResult>,
    sevResult: Option<ExecutionResult>,
    verified: bool)

  /** The pool's challenge record. */
  datatype PoolChallenge = PoolChallenge(
    id: U128,
    challenger: Address,
    challenged: Address,
    challengeType: ChallengeType,
    executionId: U128,
    resultHash: Bytes,
    timestamp: nat,
    deadline: nat,
    status: ChallengeStatus)

  /** The watchdog verifiers are kept in a hash map; `watchdogs` lists them
      in that map's iteration order, which the host does not fix. */
  datatype PoolState = PoolState(
    sgxExecutor: Option<ExecutorInstance>,
    sevExecutor: Option<ExecutorInstance>,
    watchdogs: seq<WatchdogVerifier>,
    executionCount: nat,
    lastSyncHeight: nat,
    verificationResults: map<U128, VerificationPair>)

  datatype PoolError =
    | ExecutorNotFound
    | ExecutorNotActive
    | ExecutionNotFound
    | NoAvailableWatchdog
    | SlotAlreadyRegistered(kind: EnclaveType)

  datatype Outcome<T> = Done(value: T) | Fail(error: PoolError)

  /** The deadline of a pool challenge: five minutes, in seconds. */
  const CHALLENGE_DEADLINE: nat := 300

  /** `ExecutorPool::new`: a pool with no executors, no watchdogs, zero
      counters and no results. No pool operation ever adds a watchdog. */
  function NewPool(): (p: PoolState)
    ensures p.sgxExecutor.None? && p.sevExecutor.None?
    ensures p.watchdogs == []
    ensures p.executionCount == 0 && p.lastSyncHeight == 0
    ensures p.verificationResults == map[]
  {
    PoolState(None, None, [], 0, 0, map[])
  }

  /** The instance in the slot of kind `k`. */
  function Instance(p: PoolState, k: EnclaveType): Option<ExecutorInstance> {
    match k
    case IntelSGX => p.sgxExecutor
    case AMDSEV => p.sevExecutor
  }

  /** `register_executor`: the new instance, `Active` and with no verified
      result, takes the empty slot of its kind; an occupied slot aborts. */
  function RegisterExecutor(p: PoolState, address: Address, kind: EnclaveType, keepId: string): (r: Outcome<PoolState>)
    ensures r.Done? <==> Instance(p, kind).None?
    ensures r.Fail? ==> r.error == SlotAlreadyRegistered(kind)
    ensures r.Done? ==>
      && Instance(r.value, kind) == Some(ExecutorInstance(address, keepId, None, Active))
      && Instance(r.value, Other(kind)) == Instance(p, Other(kind))
      && r.value.watchdogs == p.watchdogs
      && r.value.verificationResults == p.verificationResults
  {
    if Instance(p, kind).Some? then Fail(SlotAlreadyRegistered(kind))
    else
      var inst := ExecutorInstance(address, keepId, None, Active);
      match kind
      case IntelSGX => Done(p.(sgxExecutor := Some(inst)))
      case AMDSEV => Done(p.(sevExecutor := Some(inst)))
  }

  /** `get_active_executors`: both instances, provided both slots are
      filled and both are `Active`. */
  function GetActiveExecutors(p: PoolState): (r: Outcome<(ExecutorInstance, ExecutorInstance)>)
    ensures r.Done? <==>
      && p.sgxExecutor.Some? && p.sevExecutor.Some?
      && p.sgxExecutor.value.status == Active && p.sevExecutor.value.status == Active
    ensures r.Done? ==> r.value == (p.sgxExecutor.value, p.sevExecutor.value)
    ensures (p.sgxExecutor.None? || p.sevExecutor.None?) ==> r == Fail(ExecutorNotFound)
    ensures p.sgxExecutor.Some? && p.sevExecutor.Some?
            && (p.sgxExecutor.value.status != Active || p.sevExecutor.value.status != Active) ==>
              r == Fail(ExecutorNotActive)
  {
    match (p.sgxExecutor, p.sevExecutor)
    case (Some(sgx), Some(sev)) =>
      if sgx.status != Active || sev.status != Active then Fail(ExecutorNotActive)
      else Done((sgx, sev))
    case _ => Fail(ExecutorNotFound)
  }

  /** `get_executor_by_address`: the kind of the slot whose instance has
      `address`, the SGX slot checked first. */
  function GetExecutorByAddress(p: PoolState, address: Address): (r: Outcome<EnclaveType>)
    ensures r.Done? <==>
      || (p.sgxExecutor.Some? && p.sgxExecutor.value.address == address)
      || (p.sevExecutor.Some? && p.sevExecutor.value.address == address)
    ensures r.Done? ==> Instance(p, r.value).Some? && Instance(p, r.value).value.address == address
    ensures p.sgxExecutor.Some? && p.sgxExecutor.value.address == address ==> r == Done(IntelSGX)
    ensures r.Fail? ==> r.error == ExecutorNotFound
  {
    if p.sgxExecutor.Some? && p.sgxExecutor.value.address == address then Done(IntelSGX)
    else if p.sevExecutor.Some? && p.sevExecutor.value.address == address then Done(AMDSEV)
    else Fail(ExecutorNotFound)
  }

  /** `execute`, with the two Keeps' results given: both executors must be
      active; the pair is stored, not yet verified. */
  function Execute(p: PoolState, id: U128, sgxResult: ExecutionResult, sevResult: ExecutionResult): (r: Outcome<PoolState>)
    ensures r.Done? <==> GetActiveExecutors(p).Done?
    ensures r.Fail? ==> r.error == GetActiveExecutors(p).error
    ensures r.Done? ==>
      && r.value.verificationResults == p.verificationResults[id := VerificationPair(Some(sgxResult), Some(sevResult), false)]
      && r.value.sgxExecutor == p.sgxExecutor && r.value.sevExecutor == p.sevExecutor
      && r.value.watchdogs == p.watchdogs
  {
    match GetActiveExecutors(p)
    case Fail(e) => Fail(e)
    case Done(_) =>
      Done(p.(verificationResults := p.verificationResults[id := VerificationPair(Some(sgxResult), Some(sevResult), false)]))
  }

  /** `select_challenger`: the first watchdog, in the map's iteration
      order, of the requested kind. */
  function SelectChallenger(ws: seq<WatchdogVerifier>, kind: EnclaveType): (r: Outcome<Address>)
    ensures r.Done? <==> exists i :: 0 <= i < |ws| && ws[i].enclaveType == kind
    ensures r.Done? ==> exists i :: 0 <= i < |ws| && ws[i].enclaveType == kind && ws[i].address == r.value
    ensures r.Fail? ==> r.error == NoAvailableWatchdog
  {
    if ws == [] then Fail(NoAvailableWatchdog)
    else if ws[0].enclaveType == kind then Done(ws[0].address)
    else
      var r := SelectChallenger(ws[1..], kind);
      assert forall i :: 1 <= i < |ws| ==> ws[i] == ws[1..][i - 1];
      assert r.Done? ==> exists i :: 1 <= i < |ws| && ws[i].enclaveType == kind && ws[i].address == r.value;
      r
  }

  /** The first matching watchdog is the one chosen. */
  lemma {:induction false} SelectChallengerPicksFirst(ws: seq<WatchdogVerifier>, kind: EnclaveType, i: nat)
    requires i < |ws| && ws[i].enclaveType == kind
    requires forall j :: 0 <= j < i ==> ws[j].enclaveType != kind
    ensures SelectChallenger(ws, kind) == Done(ws[i].address)
    decreases i
  {
    if i > 0 {
      SelectChallengerPicksFirst(ws[1..], kind, i - 1);
    }
  }

  /** `create_execution_challenge`: a `Pending` execution challenge against
      the executor of `kind`, issued by a watchdog of the same kind, due
      five minutes after `now`. `challengeId` is the fresh random id. */
  function CreateExecutionChallenge(p: PoolState, id: U128, kind: EnclaveType, resultHash: Bytes,
                                    challengeId: U128, now: nat): (r: Outcome<PoolChallenge>)
    ensures Instance(p, kind).None? ==> r == Fail(ExecutorNotFound)
    ensures Instance(p, kind).Some? ==>
      (r.Done? <==> SelectChallenger(p.watchdogs, kind).Done?)
    ensures Instance(p, kind).Some? && r.Fail? ==> r.error == NoAvailableWatchdog
    ensures r.Done? ==>
      && Instance(p, kind).Some?
      && r.value.challenged == Instance(p, kind).value.address
      && r.value.challenger == SelectChallenger(p.watchdogs, kind).value
      && r.value.challengeType == Execution
      && r.value.status == Pending
      && r.value.executionId == id
      && r.value.resultHash == resultHash
      && r.value.deadline == now + CHALLENGE_DEADLINE
  {
    match Instance(p, kind)
    case None => Fail(ExecutorNotFound)
    case Some(executor) =>
      match SelectChallenger(p.watchdogs, kind)
      case Fail(e) => Fail(e)
      case Done(challenger) =>
        Done(PoolChallenge(challengeId, challenger, executor.address, Execution, id, resultHash,
                           now, now + CHALLENGE_DEADLINE, Pending))
  }

  /** `initiate_mismatch_challenge`: one challenge per kind, SGX first. The
      created challenges are handed to a store that keeps nothing. */
  function InitiateMismatchChallenge(p: PoolState, id: U128, pair: VerificationPair,
                                     sgxChallengeId: U128, sevChallengeId: U128, now: nat): (r: Outcome<()>)
    requires pair.sgxResult.Some? && pair.sevResult.Some?
    ensures r.Done? <==>
      && CreateExecutionChallenge(p, id, IntelSGX, pair.sgxResult.value.resultHash, sgxChallengeId, now).Done?
      && CreateExecutionChallenge(p, id, AMDSEV, pair.sevResult.value.resultHash, sevChallengeId, now).Done?
    ensures r.Done? ==> p.sgxExecutor.Some? && p.sevExecutor.Some?
  {
    match CreateExecutionChallenge(p, id, IntelSGX, pair.sgxResult.value.resultHash, sgxChallengeId, now)
    case Fail(e) => Fail(e)
    case Done(_) =>
      match CreateExecutionChallenge(p, id, AMDSEV, pair.sevResult.value.resultHash, sevChallengeId, now)
      case Fail(e) => Fail(e)
      case Done(_) => Done(())
  }

  /** `verify_execution_results`: an unknown id fails; a pair with a side
      missing answers false and changes nothing; otherwise the pair's
      `verified` flag is set to whether the hashes agree, and on a mismatch
      the two challenges are created. The flag is written before the
      challenges, so it stays written when their creation fails. */
  function VerifyExecutionResults(p: PoolState, id: U128, sgxChallengeId: U128, sevChallengeId: U128,
                                  now: nat): (r: (PoolState, Outcome<bool>))
    ensures id !in p.verificationResults ==> r == (p, Fail(ExecutionNotFound))
    ensures id in p.verificationResults
            && (p.verificationResults[id].sgxResult.None? || p.verificationResults[id].sevResult.None?) ==>
              r == (p, Done(false))
    ensures id in p.verificationResults
            && p.verificationResults[id].sgxResult.Some? && p.verificationResults[id].sevResult.Some? ==>
      var pair := p.verificationResults[id];
      var agree := pair.sgxResult.value.resultHash == pair.sevResult.value.resultHash;
      && r.0.verificationResults == p.verificationResults[id := pair.(verified := agree)]
      && r.0.sgxExecutor == p.sgxExecutor && r.0.sevExecutor == p.sevExecutor
      && r.0.watchdogs == p.watchdogs
      && (agree ==> r.1 == Done(true))
      && (!agree ==> (r.1.Done? <==>
            InitiateMismatchChallenge(p, id, pair, sgxChallengeId, sevChallengeId, now).Done?))
      && (r.1.Done? ==> r.1.value == agree)
  {
    if id !in p.verificationResults then (p, Fail(ExecutionNotFound))
    else
      var pair := p.verificationResults[id];
      if pair.sgxResult.None? || pair.sevResult.None? then (p, Done(false))
      else
        var agree := pair.sgxResult.value.resultHash == pair.sevResult.value.resultHash;
        var p' := p.(verificationResults := p.verificationResults[id := pair.(verified := agree)]);
        if agree then (p', Done(true))
        else
          match InitiateMismatchChallenge(p, id, pair, sgxChallengeId, sevChallengeId, now)
          case Fail(e) => (p', Fail(e))
          case Done(_) => (p', Done(false))
  }

  /** Results produced by `execute` with equal hashes verify: the round
      trip the pool's execution test describes. */
  lemma ExecuteThenVerify(p: PoolState, id: U128, a: ExecutionResult, b: ExecutionResult,
                          c1: U128, c2: U128, now: nat)
    requires Execute(p, id, a, b).Done?
    ensures var q := Execute(p, id, a, b).value;
      var (q', out) := VerifyExecutionResults(q, id, c1, c2, now);
      && (a.resultHash == b.resultHash ==> out == Done(true) && q'.verificationResults[id].verified)
      && (a.resultHash != b.resultHash ==> out != Done(true) && !q'.verificationResults[id].verified)
  {
  }

  /** `handle_challenge`'s status update: the challenged executor, looked
      up by address, becomes `Challenged`. The evidence gathering that
      follows runs against the Keep and is not modelled. Only attestation
      and execution challenges are handled. */
  function HandleChallenge(p: PoolState, challenge: PoolChallenge): (r: Outcome<PoolState>)
    requires challenge.challengeType == Attestation || challenge.challengeType == Execution
    ensures r.Done? <==> GetExecutorByAddress(p, challenge.challenged).Done?
    ensures r.Fail? ==> r.error == ExecutorNotFound
    ensures r.Done? ==>
      var k := GetExecutorByAddress(p, challenge.challenged).value;
      && Instance(r.value, k).Some?
      && Instance(r.value, k).value == Instance(p, k).value.(status := Challenged)
      && Instance(r.value, Other(k)) == Instance(p, Other(k))
      && r.value.verificationResults == p.verificationResults
      && r.value.watchdogs == p.watchdogs
  {
    match GetExecutorByAddress(p, challenge.challenged)
    case Fail(e) => Fail(e)
    case Done(IntelSGX) => Done(p.(sgxExecutor := Some(p.sgxExecutor.value.(status := Challenged))))
    case Done(AMDSEV) => Done(p.(sevExecutor := Some(p.sevExecutor.value.(status := Challenged))))
  }

  /** After a challenge is handled, looking the executor up again finds it
      `Challenged`, as the pool's challenge test expects. */
  lemma HandledExecutorIsChallenged(p: PoolState, challenge: PoolChallenge)
    requires challenge.challengeType == Attestation || challenge.challengeType == Execution
    requires HandleChallenge(p, challenge).Done?
    ensures var q := HandleChallenge(p, challenge).value;
      var k := GetExecutorByAddress(q, challenge.challenged);
      && k.Done?
      && Instance(q, k.value).value.status == Challenged
  {
    var k := GetExecutorByAddress(p, challenge.challenged).value;
    var q := HandleChallenge(p, challenge).value;
    if k == AMDSEV {
      assert !(p.sgxExecutor.Some? && p.sgxExecutor.value.address == challenge.challenged);
      assert q.sgxExecutor == p.sgxExecutor;
    }
    assert Instance(q, k).value.address == challenge.challenged;
  }

  /** Registering one executor of each kind into a fresh pool makes the
      pair active. */
  lemma RegisterBothActivates(a: Address, b: Address, ka: string, kb: string)
    ensures var r1 := RegisterExecutor(NewPool(), a, IntelSGX, ka);
      && r1.Done?
      && var r2 := RegisterExecutor(r1.value, b, AMDSEV, kb);
      && r2.Done?
      && GetActiveExecutors(r2.value) == Done((ExecutorInstance(a, ka, None, Active),
                                              ExecutorInstance(b, kb, None, Active)))
  {
  }

  /** One operation on the pool, with the outcomes of the Keeps given. */
  datatype PoolCall =
    | RegisterCall(address: Address, kind: EnclaveType, keepId: string)
    | ExecuteCall(executionId: U128, sgxResult: ExecutionResult, sevResult: ExecutionResult)
    | VerifyCall(verifiedId: U128, sgxChallengeId: U128, sevChallengeId: U128, now: nat)
    | HandleCall(challenge: PoolChallenge)

  /** The pool after one operation. A failed registration, execution or
      challenge writes nothing; verification keeps what it wrote. The
      source's `match` in `handle_challenge` names only attestation and
      execution challenges, so a challenge of another type leaves the pool
      as it is. */
  function ApplyPool(p: PoolState, call: PoolCall): (q: PoolState)
    ensures q.watchdogs == p.watchdogs
  {
    match call
    case RegisterCall(a, k, keep) =>
      (match RegisterExecutor(p, a, k, keep) case Done(q) => q case Fail(_) => p)
    case ExecuteCall(id, x, y) =>
      (match Execute(p, id, x, y) case Done(q) => q case Fail(_) => p)
    case VerifyCall(id, c1, c2, now) => VerifyExecutionResults(p, id, c1, c2, now).0
    case HandleCall(c) =>
      if c.challengeType == Attestation || c.challengeType == Execution then
        (match HandleChallenge(p, c) case Done(q) => q case Fail(_) => p)
      else p
  }

  /** The pool after a sequence of operations, in order. */
  function RunPool(p: PoolState, calls: seq<PoolCall>): PoolState
    decreases |calls|
  {
    if calls == [] then p else RunPool(ApplyPool(p, calls[0]), calls[1..])
  }

  /** No sequence of pool operations changes the watchdog list. */
  lemma {:induction false} RunPoolKeepsWatchdogs(p: PoolState, calls: seq<PoolCall>)
    ensures RunPool(p, calls).watchdogs == p.watchdogs
    decreases |calls|
  {
    if calls != [] {
      RunPoolKeepsWatchdogs(ApplyPool(p, calls[0]), calls[1..]);
    }
  }

  /** `watchdog_verifiers` starts empty and nothing fills it, so on every
      pool the program can build `select_challenger` finds no watchdog and
      `create_execution_challenge` fails for both kinds. */
  lemma NoExecutionChallengeIsCreated(calls: seq<PoolCall>, id: U128, kind: EnclaveType,
                                      resultHash: Bytes, challengeId: U128, now: nat)
    ensures var p := RunPool(NewPool(), calls);
      && SelectChallenger(p.watchdogs, kind) == Fail(NoAvailableWatchdog)
      && CreateExecutionChallenge(p, id, kind, resultHash, challengeId, now).Fail?
  {
    RunPoolKeepsWatchdogs(NewPool(), calls);
  }

  /** Hence on every such pool a pair whose hashes differ ends
      `verify_execution_results` in an error, with the pair's flag set to
      false, instead of raising the two mismatch challenges. */
  lemma MismatchAlwaysFails(calls: seq<PoolCall>, id: U128, c1: U128, c2: U128, now: nat)
    requires var p := RunPool(NewPool(), calls);
      && id in p.verificationResults
      && p.verificationResults[id].sgxResult.Some? && p.verificationResults[id].sevResult.Some?
      && p.verificationResults[id].sgxResult.value.resultHash != p.verificationResults[id].sevResult.value.resultHash
    ensures var p := RunPool(NewPool(), calls);
      var r := VerifyExecutionResults(p, id, c1, c2, now);
      && r.1.Fail?
      && !r.0.verificationResults[id].verified
  {
    var p := RunPool(NewPool(), calls);
    var pair := p.verificationResults[id];
    NoExecutionChallengeIsCreated(calls, id, IntelSGX, pair.sgxResult.value.resultHash, c1, now);
    if p.sgxExecutor.Some? {
      assert InitiateMismatchChallenge(p, id, pair, c1, c2, now).Fail?;
    }
  }
}
