/** The contract as one transition system: every public entrypoint that
    writes the store, a run of transactions from the empty store, and the
    invariant that every reachable store satisfies. A failed transaction
    aborts, so the store after it is the store before it. */
module System {
  import opened Types
  import opened Store
  import Init
  import Registry
  import Execution
  import ChallengeCreate
  import ChallengeResponse
  import ChallengeVerification
  import Token

  /** One transaction: the host inputs and the entrypoint's arguments. */
  datatype Call =
    | InitCall(host: Host, sgxOperator: string, sevOperator: string,
               tokenContract: Address, governanceContract: Address)
    | RegisterExecutorCall(host: Host, kind: EnclaveType, keepId: string, report: Bytes, token: Bytes)
    | HeartbeatCall(host: Host)
    | RegisterWatchdogCall(host: Host, kind: EnclaveType, report: Bytes, signature: Bytes)
    | SubmitResultCall(host: Host, executionId: U128, resultHash: Bytes)
    | ChallengeCall(host: Host, executor: Address, requested: ChallengeType,
                    evidence: ChallengeCreate.ChallengeEvidence, newId: U128, timeout: nat)
    | RespondCall(host: Host, challengeId: nat, response: Bytes, responseProof: ChallengeProof)
    | VerifyCall(host: Host, challengeId: nat, verdict: bool, verdictProof: Bytes)
    | StakeCall(host: Host, self: Address, amount: nat)

  /** The host-side inputs every run shares: the attestation oracle and how
      an address is rendered as an operator key. */
  datatype Env = Env(attest: AttestationOracle, render: Address -> string)

  /** The store after `call`, or the error it aborted with. */
  function Apply(s: State, env: Env, call: Call): Result<State> {
    match call
    case InitCall(h, a, b, t, g) => Init.Init(s, h, a, b, t, g)
    case RegisterExecutorCall(h, k, keep, rep, tok) => Registry.RegisterExecutor(s, h, env.attest, k, keep, rep, tok)
    case HeartbeatCall(h) => Registry.SubmitHeartbeat(s, h)
    case RegisterWatchdogCall(h, k, rep, sig) => Registry.RegisterWatchdog(s, h, k, rep, sig)
    case SubmitResultCall(h, id, hash) => Execution.SubmitExecutionResult(s, h, id, hash)
    case ChallengeCall(h, ex, req, ev, id, timeout) =>
      var r := ChallengeCreate.ChallengeExecutor(s, h, ex, req, ev, id, timeout);
      if r.Ok? then Ok(r.value.0) else Err(r.error)
    case RespondCall(h, id, resp, proof) =>
      ChallengeResponse.RespondToChallenge(s, h, env.attest, env.render, id, resp, proof)
    case VerifyCall(h, id, verdict, proof) =>
      ChallengeVerification.VerifyChallengeResponse(s, h, id, verdict, proof)
    case StakeCall(h, self, amount) =>
      var r := Token.StakeTokens(s, h, self, amount);
      if r.Ok? then Ok(r.value.0) else Err(r.error)
  }

  /** The store after `call`: an aborted transaction leaves it unchanged. */
  function Step(s: State, env: Env, call: Call): State {
    var r := Apply(s, env, call);
    if r.Ok? then r.value else s
  }

  /** The store after a sequence of transactions. */
  function Run(s: State, env: Env, calls: seq<Call>): State
    decreases |calls|
  {
    if calls == [] then s else Run(Step(s, env, calls[0]), env, calls[1..])
  }

  // ----- The invariant -----

  /** Before `init` neither pool exists; after it both do. */
  predicate PoolsFollowInit(s: State) {
    && (Initialized(s) ==> s.executorPool.Some? && s.watchdogPool.Some?)
    && (!Initialized(s) ==> s.executorPool.None? && s.watchdogPool.None?)
  }

  /** No address is registered twice as a watchdog. */
  predicate WatchdogsUnique(s: State) {
    s.watchdogPool.Some? ==> UniqueWatchdogs(s.watchdogPool.value.watchdogs)
  }

  /** The pending list holds each id once, and only ids with a stored
      result. */
  predicate PendingWellFormed(s: State) {
    && Execution.NoDuplicates(PendingIds(s))
    && forall id :: id in PendingIds(s) ==> id in s.executionResult
  }

  /** An execution is marked verified only once both kinds have
      submitted. */
  predicate VerifiedHasBothSides(s: State) {
    forall id :: id in s.executionVerified && s.executionVerified[id] ==>
      id in s.executionResult && Execution.Complete(s.executionResult[id])
  }

  /** The phases an initialized system can be in, and what they say about
      the executor slots. */
  predicate PhaseConsistent(s: State) {
    && (Initialized(s) ==> PhaseOf(s) in {Creation, Executing, ChallengeExecutor, Crashed})
    && (Initialized(s) && s.executorPool.Some? && PhaseOf(s) == Creation ==> !BothSlotsFilled(s.executorPool.value))
    && (Initialized(s) && s.executorPool.Some? && PhaseOf(s) == Crashed ==> BothSlotsEmpty(s.executorPool.value))
  }

  /** A stored challenge sits under its own id, is never `Expired`, and is
      `Pending` exactly while it has no proofs. */
  predicate ChallengeWellFormed(id: nat, c: Challenge) {
    && c.id == id
    && c.status != Expired
    && (c.status == Pending <==> c.verificationProofs == [])
  }

  predicate ChallengesWellFormed(s: State) {
    forall id :: id in s.challenges ==> ChallengeWellFormed(id, s.challenges[id])
  }

  predicate Inv(s: State) {
    && PoolsFollowInit(s)
    && WatchdogsUnique(s)
    && PendingWellFormed(s)
    && VerifiedHasBothSides(s)
    && PhaseConsistent(s)
    && ChallengesWellFormed(s)
  }

  lemma EmptySatisfiesInv()
    ensures Inv(Empty)
  {
  }

  // ----- Each entrypoint preserves the invariant -----

  lemma InitPreservesInv(s: State, h: Host, a: string, b: string, t: Address, g: Address)
    requires Inv(s)
    requires Init.Init(s, h, a, b, t, g).Ok?
    ensures Inv(Init.Init(s, h, a, b, t, g).value)
  {
  }

  lemma RegisterExecutorPreservesInv(s: State, h: Host, attest: AttestationOracle, k: EnclaveType,
                                     keep: string, rep: Bytes, tok: Bytes)
    requires Inv(s)
    requires Registry.RegisterExecutor(s, h, attest, k, keep, rep, tok).Ok?
    ensures Inv(Registry.RegisterExecutor(s, h, attest, k, keep, rep, tok).value)
  {
  }

  lemma HeartbeatPreservesInv(s: State, h: Host)
    requires Inv(s)
    requires Registry.SubmitHeartbeat(s, h).Ok?
    ensures Inv(Registry.SubmitHeartbeat(s, h).value)
  {
  }

  lemma RegisterWatchdogPreservesInv(s: State, h: Host, k: EnclaveType, rep: Bytes, sig: Bytes)
    requires Inv(s)
    requires Registry.RegisterWatchdog(s, h, k, rep, sig).Ok?
    ensures Inv(Registry.RegisterWatchdog(s, h, k, rep, sig).value)
  {
    Registry.RegisterWatchdogAppends(s, h, k, rep, sig);
  }

  lemma SubmitPreservesInv(s: State, h: Host, id: U128, hash: Bytes)
    requires Inv(s)
    requires Execution.SubmitExecutionResult(s, h, id, hash).Ok?
    ensures Inv(Execution.SubmitExecutionResult(s, h, id, hash).value)
  {
    var pool := s.executorPool.value;
    var kind := Execution.CallerKind(pool, h.caller).value;
    var res := ExecutionResult(hash, id, h.caller, kind, h.timestamp, h.blockHeight);
    var s1 := Execution.StoreResult(s, id, res);
    var s2 := Execution.Reconcile(s1, id);
    assert Execution.SubmitExecutionResult(s, h, id, hash).value == s2;
    StoredResultKeepsInv(s, id, res);
    ReconcileKeepsPending(s1, id);
    ReconcileKeepsVerified(s1, id);
    ReconcileKeepsPhase(s1, id);
  }

  /** Filing a result grows the stored pairs without emptying a side, so
      every verified execution still has both sides and every pending id
      still has a pair. */
  lemma StoredResultKeepsInv(s: State, id: U128, res: ExecutionResult)
    requires Inv(s)
    ensures var s1 := Execution.StoreResult(s, id, res);
      && PendingWellFormed(s1)
      && VerifiedHasBothSides(s1)
  {
    var s1 := Execution.StoreResult(s, id, res);
    forall j | j in s1.executionVerified && s1.executionVerified[j]
      ensures j in s1.executionResult && Execution.Complete(s1.executionResult[j])
    {
      if j == id {
        var k := res.enclaveType;
        assert Side(s1.executionResult[id], Other(k)) == Side(s.executionResult[id], Other(k));
        SlotsComplete(s1.executionResult[id], k);
        SlotsComplete(s.executionResult[id], k);
      }
    }
  }

  /** A pair is complete exactly when both the side of `k` and the other
      side are filled. */
  lemma SlotsComplete(p: ResultPair, k: EnclaveType)
    ensures Execution.Complete(p) <==> Side(p, k).Some? && Side(p, Other(k)).Some?
  {
  }

  lemma ReconcileKeepsPending(s1: State, id: U128)
    requires id in s1.executionResult
    requires PendingWellFormed(s1)
    ensures PendingWellFormed(Execution.Reconcile(s1, id))
  {
    var s2 := Execution.Reconcile(s1, id);
    var xs := PendingIds(s1);
    if id !in xs {
      assert PendingIds(s2) == xs + [id];
      forall i, j | 0 <= i < j < |xs + [id]| ensures (xs + [id])[i] != (xs + [id])[j] {
        if j == |xs| {
          assert (xs + [id])[i] == xs[i];
        }
      }
    } else if Execution.Complete(s1.executionResult[id]) {
      assert PendingIds(s2) == Execution.RemoveAll(xs, id);
      Execution.RemoveAllKeepsNoDuplicates(xs, id);
      forall y | y in PendingIds(s2) ensures y in s2.executionResult {
        assert multiset(Execution.RemoveAll(xs, id))[y] == multiset(xs)[y];
      }
    }
  }

  lemma ReconcileKeepsVerified(s1: State, id: U128)
    requires id in s1.executionResult
    requires VerifiedHasBothSides(s1)
    ensures VerifiedHasBothSides(Execution.Reconcile(s1, id))
  {
  }

  /** Reconciling leaves the phase and the pools alone, except that a
      mismatch moves the phase to `ChallengeExecutor`. */
  lemma ReconcileKeepsPhase(s1: State, id: U128)
    requires id in s1.executionResult
    ensures var s2 := Execution.Reconcile(s1, id);
      && Execution.KeepsPools(s1, s2)
      && s2.systemInitialized == s1.systemInitialized
      && (PhaseOf(s2) == PhaseOf(s1) || PhaseOf(s2) == ChallengeExecutor)
  {
    if id in PendingIds(s1) {
      var p := s1.executionResult[id];
      if Execution.Complete(p) && Execution.Agree(p) {
        assert PhaseOf(Execution.VerifyExecutionMatch(s1, id)) == PhaseOf(s1);
      }
    }
  }

  lemma ChallengePreservesInv(s: State, h: Host, ex: Address, req: ChallengeType,
                              ev: ChallengeCreate.ChallengeEvidence, id: U128, timeout: nat)
    requires Inv(s)
    requires ChallengeCreate.ChallengeExecutor(s, h, ex, req, ev, id, timeout).Ok?
    ensures Inv(ChallengeCreate.ChallengeExecutor(s, h, ex, req, ev, id, timeout).value.0)
  {
  }

  lemma RespondPreservesInv(s: State, h: Host, env: Env, id: nat, resp: Bytes, proof: ChallengeProof)
    requires Inv(s)
    requires ChallengeResponse.RespondToChallenge(s, h, env.attest, env.render, id, resp, proof).Ok?
    ensures Inv(ChallengeResponse.RespondToChallenge(s, h, env.attest, env.render, id, resp, proof).value)
  {
  }

  lemma VerifyPreservesInv(s: State, h: Host, id: nat, verdict: bool, proof: Bytes)
    requires Inv(s)
    requires ChallengeVerification.VerifyChallengeResponse(s, h, id, verdict, proof).Ok?
    ensures Inv(ChallengeVerification.VerifyChallengeResponse(s, h, id, verdict, proof).value)
  {
  }

  lemma StakePreservesInv(s: State, h: Host, self: Address, amount: nat)
    requires Inv(s)
    requires Token.StakeTokens(s, h, self, amount).Ok?
    ensures Inv(Token.StakeTokens(s, h, self, amount).value.0)
  {
  }

  // ----- Runs -----

  /** Every transaction, successful or aborted, preserves the invariant. */
  lemma StepPreservesInv(s: State, env: Env, call: Call)
    requires Inv(s)
    ensures Inv(Step(s, env, call))
  {
    if Apply(s, env, call).Ok? {
      match call
      case InitCall(h, a, b, t, g) => InitPreservesInv(s, h, a, b, t, g);
      case RegisterExecutorCall(h, k, keep, rep, tok) =>
        RegisterExecutorPreservesInv(s, h, env.attest, k, keep, rep, tok);
      case HeartbeatCall(h) => HeartbeatPreservesInv(s, h);
      case RegisterWatchdogCall(h, k, rep, sig) => RegisterWatchdogPreservesInv(s, h, k, rep, sig);
      case SubmitResultCall(h, id, hash) => SubmitPreservesInv(s, h, id, hash);
      case ChallengeCall(h, ex, req, ev, id, timeout) => ChallengePreservesInv(s, h, ex, req, ev, id, timeout);
      case RespondCall(h, id, resp, proof) => RespondPreservesInv(s, h, env, id, resp, proof);
      case VerifyCall(h, id, verdict, proof) => VerifyPreservesInv(s, h, id, verdict, proof);
      case StakeCall(h, self, amount) => StakePreservesInv(s, h, self, amount);
    }
  }

  lemma {:induction false} RunPreservesInv(s: State, env: Env, calls: seq<Call>)
    requires Inv(s)
    ensures Inv(Run(s, env, calls))
    decreases |calls|
  {
    if calls != [] {
      StepPreservesInv(s, env, calls[0]);
      RunPreservesInv(Step(s, env, calls[0]), env, calls[1..]);
    }
  }

  /** Every store reachable from the empty store satisfies the invariant:
      the pools exist exactly once `init` has run, watchdogs are unique,
      pending ids are distinct and stored, a verified execution has both
      results, the phase agrees with the slots, and every stored challenge
      is well formed. */
  lemma ReachableSatisfiesInv(env: Env, calls: seq<Call>)
    ensures Inv(Run(Empty, env, calls))
  {
    EmptySatisfiesInv();
    RunPreservesInv(Empty, env, calls);
  }

  /** `Verified` and `Failed` are terminal: no transaction changes a
      challenge in either status, unless a new challenge is created under
      the same id. */
  lemma TerminalStatusStays(s: State, env: Env, call: Call, id: nat)
    requires id in s.challenges && s.challenges[id].status in {Verified, Failed}
    requires !(call.ChallengeCall? && call.newId == id)
    ensures id in Step(s, env, call).challenges
    ensures Step(s, env, call).challenges[id] == s.challenges[id]
  {
    var r := Apply(s, env, call);
    if r.Ok? {
      match call
      case RespondCall(h, rid, resp, proof) =>
        assert ChallengeResponse.CheckResponder(s, h, rid).Ok?;
        assert rid != id;
      case VerifyCall(h, rid, verdict, proof) =>
        assert ChallengeVerification.CheckVerifier(s, h, rid).Ok?;
        assert rid != id;
      case _ =>
    }
  }
}
