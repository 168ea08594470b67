/** Execution reconciliation (src/execution/mod.rs): each executor submits
    the hash of its result for an execution id; the first submission puts
    the id on the pending list, a later one compares the two kinds' hashes
    and either marks the execution verified or records the mismatch and
    moves the system to `ChallengeExecutor`.

    Results are stored per kind (`Types.ResultPair`) rather than in the
    source's single `ExecutionResult(u128)` record; module
    `ExecutionAsWritten` shows why the single record can never verify. */
module Execution {
  import opened Types
  import opened Store
  import Utils

  /** `pending.retain(|&id| id != x)`: every occurrence of `x` goes, the
      other ids stay with their multiplicities. */
  function RemoveAll(xs: seq<U128>, x: U128): (r: seq<U128>)
    ensures x !in r
    ensures |r| <= |xs|
    ensures forall y :: y != x ==> multiset(r)[y] == multiset(xs)[y]
    ensures x !in xs ==> r == xs
  {
    if xs == [] then []
    else
      assert xs == [xs[0]] + xs[1..];
      if xs[0] == x then RemoveAll(xs[1..], x)
      else [xs[0]] + RemoveAll(xs[1..], x)
  }

  /** Removal keeps order: it distributes over concatenation, so every
      surviving id keeps its place relative to the others. */
  lemma {:induction false} RemoveAllDistributes(a: seq<U128>, b: seq<U128>, x: U128)
    ensures RemoveAll(a + b, x) == RemoveAll(a, x) + RemoveAll(b, x)
  {
    if a == [] {
      assert a + b == b;
    } else {
      assert (a + b)[0] == a[0];
      assert (a + b)[1..] == a[1..] + b;
      RemoveAllDistributes(a[1..], b, x);
    }
  }

  /** No id occurs twice. */
  predicate NoDuplicates(xs: seq<U128>) {
    forall i, j :: 0 <= i < j < |xs| ==> xs[i] != xs[j]
  }

  /** Removal never introduces a duplicate. */
  lemma {:induction false} RemoveAllKeepsNoDuplicates(xs: seq<U128>, x: U128)
    requires NoDuplicates(xs)
    ensures NoDuplicates(RemoveAll(xs, x))
  {
    if xs != [] {
      RemoveAllKeepsNoDuplicates(xs[1..], x);
      if xs[0] != x {
        var t := RemoveAll(xs[1..], x);
        assert xs[0] !in xs[1..];
        assert multiset(t)[xs[0]] == multiset(xs[1..])[xs[0]] == 0;
        assert xs[0] !in t;
      }
    }
  }

  /** `create_verification_challenge`: the id as 16 little-endian bytes,
      then the SGX hash, then the SEV hash. */
  function CreateVerificationChallenge(id: U128, sgx: ExecutionResult, sev: ExecutionResult): (data: Bytes)
    ensures |data| == 16 + |sgx.resultHash| + |sev.resultHash|
    ensures Utils.FromLeBytes(data[..16]) == id
    ensures data[16..16 + |sgx.resultHash|] == sgx.resultHash
    ensures data[16 + |sgx.resultHash|..] == sev.resultHash
  {
    var prefix := Utils.Le16(id);
    var data := prefix + sgx.resultHash + sev.resultHash;
    assert data[..16] == prefix;
    data
  }

  /** Challenge data determines the execution id and both hashes once the
      hash length is known: two mismatches never share challenge data. */
  lemma ChallengeDataInjective(id1: U128, a1: ExecutionResult, b1: ExecutionResult,
                               id2: U128, a2: ExecutionResult, b2: ExecutionResult)
    requires |a1.resultHash| == |a2.resultHash|
    requires CreateVerificationChallenge(id1, a1, b1) == CreateVerificationChallenge(id2, a2, b2)
    ensures id1 == id2 && a1.resultHash == a2.resultHash && b1.resultHash == b2.resultHash
  {
    var d := CreateVerificationChallenge(id1, a1, b1);
    assert d[..16] == CreateVerificationChallenge(id2, a2, b2)[..16];
  }

  /** Reconciliation touches neither pool, the challenge store nor the
      initialization flag. */
  predicate KeepsPools(s: State, s': State) {
    && s'.systemInitialized == s.systemInitialized
    && s'.executorPool == s.executorPool
    && s'.watchdogPool == s.watchdogPool
    && s'.challenges == s.challenges
  }

  /** Reconciliation writes only the four execution families and the
      phase: every other key of the store is left as it was. */
  predicate TouchesOnlyExecution(s: State, s': State) {
    s'.(executionResult := s.executionResult, pendingVerifications := s.pendingVerifications,
        executionVerified := s.executionVerified, executionMismatches := s.executionMismatches,
        currentPhase := s.currentPhase) == s
  }

  /** `handle_execution_mismatch`: the phase becomes `ChallengeExecutor`.
      The source's two challenge creations go through an async entrypoint
      whose futures are never awaited, so they store nothing. */
  function HandleExecutionMismatch(s: State): (s': State)
    ensures KeepsPools(s, s')
    ensures TouchesOnlyExecution(s, s')
    ensures PhaseOf(s') == ChallengeExecutor
    ensures s'.executionVerified == s.executionVerified
    ensures s'.executionMismatches == s.executionMismatches
    ensures s'.pendingVerifications == s.pendingVerifications
    ensures s'.executionResult == s.executionResult
    ensures s'.challenges == s.challenges
  {
    s.(currentPhase := Some(ChallengeExecutor))
  }

  /** Matching hashes: `ExecutionVerified(id)` becomes true. */
  function MarkVerified(s: State, id: U128): (s': State)
    ensures KeepsPools(s, s')
    ensures TouchesOnlyExecution(s, s')
    ensures IsVerified(s', id)
    ensures s'.executionVerified == s.executionVerified[id := true]
    ensures s'.pendingVerifications == s.pendingVerifications && s'.currentPhase == s.currentPhase && s'.executionMismatches == s.executionMismatches && s'.executionResult == s.executionResult
  {
    s.(executionVerified := s.executionVerified[id := true])
  }

  /** Differing hashes: the pair is kept under `ExecutionMismatches(id)`
      and the system enters `ChallengeExecutor`. */
  function RecordMismatch(s: State, id: U128, sgx: ExecutionResult, sev: ExecutionResult): (s': State)
    ensures KeepsPools(s, s')
    ensures TouchesOnlyExecution(s, s')
    ensures s'.executionMismatches == s.executionMismatches[id := (sgx, sev)]
    ensures PhaseOf(s') == ChallengeExecutor
    ensures s'.pendingVerifications == s.pendingVerifications && s'.executionVerified == s.executionVerified && s'.executionResult == s.executionResult
  {
    HandleExecutionMismatch(s.(executionMismatches := s.executionMismatches[id := (sgx, sev)]))
  }

  /** Every occurrence of `id` leaves the pending list. */
  function DropPending(s: State, id: U128): (s': State)
    ensures KeepsPools(s, s')
    ensures TouchesOnlyExecution(s, s')
    ensures s'.pendingVerifications == Some(RemoveAll(PendingIds(s), id))
    ensures id !in PendingIds(s')
    ensures s'.currentPhase == s.currentPhase && s'.executionVerified == s.executionVerified && s'.executionMismatches == s.executionMismatches && s'.executionResult == s.executionResult
  {
    s.(pendingVerifications := Some(RemoveAll(PendingIds(s), id)))
  }

  /** Equal hashes: verified, and off the pending list. */
  function SettleMatch(s: State, id: U128): (s': State)
    ensures KeepsPools(s, s')
    ensures TouchesOnlyExecution(s, s')
    ensures s'.executionResult == s.executionResult
    ensures s'.pendingVerifications == Some(RemoveAll(PendingIds(s), id))
    ensures IsVerified(s', id)
    ensures s'.executionVerified == s.executionVerified[id := true]
    ensures s'.currentPhase == s.currentPhase
    ensures s'.executionMismatches == s.executionMismatches
  {
    DropPending(MarkVerified(s, id), id)
  }

  /** Differing hashes: mismatch recorded, challenge phase, off the pending
      list. */
  function SettleMismatch(s: State, id: U128, sgx: ExecutionResult, sev: ExecutionResult): (s': State)
    ensures KeepsPools(s, s')
    ensures TouchesOnlyExecution(s, s')
    ensures s'.executionResult == s.executionResult
    ensures s'.pendingVerifications == Some(RemoveAll(PendingIds(s), id))
    ensures s'.executionMismatches == s.executionMismatches[id := (sgx, sev)]
    ensures PhaseOf(s') == ChallengeExecutor
    ensures s'.executionVerified == s.executionVerified
  {
    DropPending(RecordMismatch(s, id, sgx, sev), id)
  }

  /** Both kinds have submitted for this id. */
  predicate Complete(pair: ResultPair) {
    pair.sgx.Some? && pair.sev.Some?
  }

  /** The two submitted hashes are equal. */
  predicate Agree(pair: ResultPair)
    requires Complete(pair)
  {
    pair.sgx.value.resultHash == pair.sev.value.resultHash
  }

  /** `verify_execution_match`, for an id whose pair has been stored: with
      both sides present the id leaves the pending list and the hashes are
      compared; with a side missing nothing changes. */
  function VerifyExecutionMatch(s: State, id: U128): (s': State)
    requires id in s.executionResult
    ensures KeepsPools(s, s')
    ensures TouchesOnlyExecution(s, s')
    ensures s'.executionResult == s.executionResult
    ensures Complete(s.executionResult[id]) ==>
              s'.pendingVerifications == Some(RemoveAll(PendingIds(s), id))
    ensures Complete(s.executionResult[id]) && Agree(s.executionResult[id]) ==>
              && IsVerified(s', id)
              && s'.executionVerified == s.executionVerified[id := true]
              && s'.currentPhase == s.currentPhase
              && s'.executionMismatches == s.executionMismatches
    ensures Complete(s.executionResult[id]) && !Agree(s.executionResult[id]) ==>
              && s'.executionMismatches == s.executionMismatches[id := (s.executionResult[id].sgx.value, s.executionResult[id].sev.value)]
              && PhaseOf(s') == ChallengeExecutor
              && s'.executionVerified == s.executionVerified
    ensures !Complete(s.executionResult[id]) ==>
        && s'.pendingVerifications == s.pendingVerifications
        && s'.executionVerified == s.executionVerified
        && s'.executionMismatches == s.executionMismatches
        && s'.currentPhase == s.currentPhase
  {
    var pair := s.executionResult[id];
    if pair.sgx.Some? && pair.sev.Some? then
      var sgx := pair.sgx.value;
      var sev := pair.sev.value;
      if sgx.resultHash == sev.resultHash then SettleMatch(s, id)
      else SettleMismatch(s, id, sgx, sev)
    else
      s
  }

  /** The kind of the slot `caller` occupies, SGX checked first. */
  function CallerKind(pool: ExecutorPool, caller: Address): (k: Option<EnclaveType>)
    ensures k.Some? <==> IsExecutor(pool, caller)
    ensures k.Some? ==> Slot(pool, k.value) == Some(caller)
    ensures pool.sgxExecutor == Some(caller) ==> k == Some(IntelSGX)
  {
    if pool.sgxExecutor == Some(caller) then Some(IntelSGX)
    else if pool.sevExecutor == Some(caller) then Some(AMDSEV)
    else None
  }

  /** The stored pair for `id`, both sides empty when there is none. */
  function PairOf(s: State, id: U128): ResultPair {
    if id in s.executionResult then s.executionResult[id] else EmptyPair
  }

  /** Files `res` on its own kind's side of the pair for `id`. */
  function StoreResult(s: State, id: U128, res: ExecutionResult): (s': State)
    ensures KeepsPools(s, s')
    ensures TouchesOnlyExecution(s, s')
    ensures id in s'.executionResult
    ensures Side(s'.executionResult[id], res.enclaveType) == Some(res)
    ensures Side(s'.executionResult[id], Other(res.enclaveType)) == Side(PairOf(s, id), Other(res.enclaveType))
    ensures forall j :: j != id && j in s.executionResult ==>
              j in s'.executionResult && s'.executionResult[j] == s.executionResult[j]
    ensures s'.executionResult.Keys == s.executionResult.Keys + {id}
    ensures s'.pendingVerifications == s.pendingVerifications
    ensures s'.executionVerified == s.executionVerified
    ensures s'.executionMismatches == s.executionMismatches
    ensures s'.currentPhase == s.currentPhase
  {
    s.(executionResult := s.executionResult[id := WithSide(PairOf(s, id), res.enclaveType, res)])
  }

  /** The first submission for `id` appends it to the pending list. */
  function AddPending(s: State, id: U128): (s': State)
    ensures KeepsPools(s, s')
    ensures TouchesOnlyExecution(s, s')
    ensures PendingIds(s') == PendingIds(s) + [id]
    ensures s'.executionResult == s.executionResult
    ensures s'.executionVerified == s.executionVerified
    ensures s'.executionMismatches == s.executionMismatches
    ensures s'.currentPhase == s.currentPhase
  {
    s.(pendingVerifications := Some(PendingIds(s) + [id]))
  }

  /** What follows storing a result: an id not yet pending becomes pending,
      a pending one is reconciled. */
  function Reconcile(s: State, id: U128): (s': State)
    requires id in s.executionResult
    ensures KeepsPools(s, s')
    ensures TouchesOnlyExecution(s, s')
    ensures s'.executionResult == s.executionResult
    ensures id !in PendingIds(s) ==> PendingIds(s') == PendingIds(s) + [id]
    ensures id in PendingIds(s) ==> s' == VerifyExecutionMatch(s, id)
  {
    if id !in PendingIds(s) then AddPending(s, id) else VerifyExecutionMatch(s, id)
  }

  /** `submit_execution_result`: only an executor may submit; its hash is
      filed under its own kind for `id` and the pair is reconciled. */
  function SubmitExecutionResult(s: State, host: Host, id: U128, resultHash: Bytes): (r: Result<State>)
    ensures r.Ok? <==> s.executorPool.Some? && IsExecutor(s.executorPool.value, host.caller)
    ensures s.executorPool.Some? && !IsExecutor(s.executorPool.value, host.caller) ==>
              r == Err(UnauthorizedExecutor)
    ensures r.Ok? ==>
      var kind := CallerKind(s.executorPool.value, host.caller).value;
      var res := ExecutionResult(resultHash, id, host.caller, kind, host.timestamp, host.blockHeight);
      && id in r.value.executionResult
      && Side(r.value.executionResult[id], kind) == Some(res)
      && Side(r.value.executionResult[id], Other(kind)) == Side(PairOf(s, id), Other(kind))
    ensures r.Ok? ==> KeepsPools(s, r.value)
    ensures r.Ok? ==> TouchesOnlyExecution(s, r.value)
    ensures r.Ok? ==> r.value.executionResult.Keys == s.executionResult.Keys + {id}
    ensures r.Ok? ==> forall j :: j != id && j in s.executionResult ==>
              r.value.executionResult[j] == s.executionResult[j]
  {
    if s.executorPool.None? then Err(ExecutorPoolMissing)
    else
      var kind := CallerKind(s.executorPool.value, host.caller);
      if kind.None? then Err(UnauthorizedExecutor)
      else
        var res := ExecutionResult(resultHash, id, host.caller, kind.value, host.timestamp, host.blockHeight);
        Ok(Reconcile(StoreResult(s, id, res), id))
  }

  /** A first submission for `id` adds it to the pending list exactly once
      and decides nothing yet. */
  lemma SubmitFirstPends(s: State, host: Host, id: U128, h: Bytes)
    requires SubmitExecutionResult(s, host, id, h).Ok?
    requires id !in PendingIds(s)
    ensures var s' := SubmitExecutionResult(s, host, id, h).value;
      && PendingIds(s') == PendingIds(s) + [id]
      && s'.executionVerified == s.executionVerified
      && s'.currentPhase == s.currentPhase
  {
  }

  /** A submission for a pending id whose other side is still missing
      leaves the pending list, the verdicts and the phase alone. */
  lemma SubmitWaitsForOtherSide(s: State, host: Host, id: U128, h: Bytes)
    requires SubmitExecutionResult(s, host, id, h).Ok?
    requires id in PendingIds(s)
    requires var p := SubmitExecutionResult(s, host, id, h).value.executionResult[id];
             p.sgx.None? || p.sev.None?
    ensures var s' := SubmitExecutionResult(s, host, id, h).value;
      && PendingIds(s') == PendingIds(s)
      && s'.executionVerified == s.executionVerified
      && s'.currentPhase == s.currentPhase
  {
  }

  /** Completing a pair with equal hashes marks the execution verified and
      takes every occurrence of the id off the pending list. */
  lemma SubmitMatchVerifies(s: State, host: Host, id: U128, h: Bytes)
    requires SubmitExecutionResult(s, host, id, h).Ok?
    requires id in PendingIds(s)
    requires var p := SubmitExecutionResult(s, host, id, h).value.executionResult[id];
             p.sgx.Some? && p.sev.Some? && p.sgx.value.resultHash == p.sev.value.resultHash
    ensures var s' := SubmitExecutionResult(s, host, id, h).value;
      && IsVerified(s', id)
      && s'.executionVerified == s.executionVerified[id := true]
      && PendingIds(s') == RemoveAll(PendingIds(s), id)
      && s'.currentPhase == s.currentPhase
  {
  }

  /** Completing a pair with differing hashes records the mismatch, moves
      the phase to `ChallengeExecutor`, leaves the verdicts alone and takes
      the id off the pending list. */
  lemma SubmitMismatchChallenges(s: State, host: Host, id: U128, h: Bytes)
    requires SubmitExecutionResult(s, host, id, h).Ok?
    requires id in PendingIds(s)
    requires var p := SubmitExecutionResult(s, host, id, h).value.executionResult[id];
             p.sgx.Some? && p.sev.Some? && p.sgx.value.resultHash != p.sev.value.resultHash
    ensures var s' := SubmitExecutionResult(s, host, id, h).value;
      var p := s'.executionResult[id];
      && s'.executionMismatches == s.executionMismatches[id := (p.sgx.value, p.sev.value)]
      && PhaseOf(s') == ChallengeExecutor
      && s'.executionVerified == s.executionVerified
      && PendingIds(s') == RemoveAll(PendingIds(s), id)
  {
  }

  /** The two executors submitting the same hash for a fresh id, in either
      order, leave it verified and off the pending list: the round that the
      single-record storage of module `ExecutionAsWritten` never completes. */
  lemma MatchingPairVerifies(s: State, first: Host, second: Host, id: U128, h: Bytes)
    requires s.executorPool.Some?
    requires IsExecutor(s.executorPool.value, first.caller)
    requires IsExecutor(s.executorPool.value, second.caller)
    requires CallerKind(s.executorPool.value, first.caller) != CallerKind(s.executorPool.value, second.caller)
    requires id !in PendingIds(s) && id !in s.executionResult
    ensures var r1 := SubmitExecutionResult(s, first, id, h);
      && r1.Ok?
      && var r2 := SubmitExecutionResult(r1.value, second, id, h);
      && r2.Ok?
      && IsVerified(r2.value, id)
      && PendingIds(r2.value) == PendingIds(s)
      && r2.value.currentPhase == s.currentPhase
  {
    var s1 := SubmitExecutionResult(s, first, id, h).value;
    SubmitFirstPends(s, first, id, h);
    var k1 := CallerKind(s.executorPool.value, first.caller).value;
    var k2 := CallerKind(s.executorPool.value, second.caller).value;
    assert k2 == Other(k1) by {
      if k2 == k1 { assert false; }
    }
    var p := SubmitExecutionResult(s1, second, id, h).value.executionResult[id];
    assert Side(p, k2).Some? && Side(p, k1).Some?;
    SubmitMatchVerifies(s1, second, id, h);
    assert RemoveAll(PendingIds(s) + [id], id) == PendingIds(s) by {
      RemoveAllDistributes(PendingIds(s), [id], id);
    }
  }

  /** `get_execution_result`: the stored pair for `id`, if any. */
  function GetExecutionResult(s: State, id: U128): (p: Option<ResultPair>)
    ensures p.Some? <==> id in s.executionResult
    ensures p.Some? ==> p.value == s.executionResult[id]
  {
    if id in s.executionResult then Some(s.executionResult[id]) else None
  }

  /** `verify_execution`: whether `id` was verified, false when unknown. */
  function VerifyExecution(s: State, id: U128): (verified: bool)
    ensures verified ==> id in s.executionVerified
    ensures id in s.executionVerified ==> verified == s.executionVerified[id]
  {
    IsVerified(s, id)
  }

  /** `get_pending_verifications`: the pending list, empty when missing. */
  function GetPendingVerifications(s: State): (ids: seq<U128>)
    ensures s.pendingVerifications.None? ==> ids == []
    ensures s.pendingVerifications.Some? ==> ids == s.pendingVerifications.value
  {
    PendingIds(s)
  }

  /** `get_verification_mismatch`: the stored pair of a mismatch, if any. */
  function GetVerificationMismatch(s: State, id: U128): (m: Option<(ExecutionResult, ExecutionResult)>)
    ensures m.Some? <==> id in s.executionMismatches
    ensures m.Some? ==> m.value == s.executionMismatches[id]
  {
    if id in s.executionMismatches then Some(s.executionMismatches[id]) else None
  }
}
