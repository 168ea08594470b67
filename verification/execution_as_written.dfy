/** Execution reconciliation exactly as src/execution/mod.rs writes it: one
    `ExecutionResult(id)` record per execution id, which each submission
    overwrites. `get_executor_result` can only find the kind of the latest
    submitter, so the two-sided comparison never sees both results. Module
    `Execution` models the evidently intended per-kind storage. */
module ExecutionAsWritten {
  import opened Types
  import Execution

  /** The keys reconciliation touches, with the single-record storage. */
  datatype Ledger = Ledger(
    results: map<U128, ExecutionResult>,
    pending: seq<U128>,
    verified: map<U128, bool>,
    mismatches: map<U128, (ExecutionResult, ExecutionResult)>,
    phase: Phase)

  /** `get_executor_result`: the stored record when its kind is `kind`. */
  function ExecutorResult(l: Ledger, id: U128, kind: EnclaveType): (r: Option<ExecutionResult>)
    ensures r.Some? <==> id in l.results && l.results[id].enclaveType == kind
    ensures r.Some? ==> r.value == l.results[id]
  {
    if id in l.results && l.results[id].enclaveType == kind then Some(l.results[id]) else None
  }

  /** `verify_execution_match` over the single record. One record has one
      kind, so at most one of the two lookups succeeds and the comparison
      branch is dead: nothing changes. */
  function VerifyMatch(l: Ledger, id: U128): (l': Ledger)
    requires id in l.results
    ensures l'.results == l.results
    ensures l' == l
  {
    assert ExecutorResult(l, id, Other(l.results[id].enclaveType)).None?;
    var sgx := ExecutorResult(l, id, IntelSGX);
    var sev := ExecutorResult(l, id, AMDSEV);
    match (sgx, sev)
    case (Some(a), Some(b)) =>
      var l1 := if a.resultHash == b.resultHash
                then l.(verified := l.verified[id := true])
                else l.(mismatches := l.mismatches[id := (a, b)], phase := ChallengeExecutor);
      l1.(pending := Execution.RemoveAll(l1.pending, id))
    case _ => l
  }

  /** `submit_execution_result` as written: overwrite the record, then push
      the id or reconcile it. */
  function Submit(l: Ledger, pool: ExecutorPool, host: Host, id: U128, resultHash: Bytes): (r: Result<Ledger>)
    ensures r.Ok? <==> IsExecutor(pool, host.caller)
    ensures r.Ok? ==> id in r.value.results && r.value.results[id].executor == host.caller
    ensures r.Ok? ==>
      r.value.results == l.results[id := ExecutionResult(resultHash, id, host.caller,
                                                         Execution.CallerKind(pool, host.caller).value,
                                                         host.timestamp, host.blockHeight)]
    ensures r.Ok? && id !in l.pending ==> r.value.pending == l.pending + [id]
    ensures r.Ok? && id in l.pending ==> r.value.pending == l.pending
  {
    var kind := Execution.CallerKind(pool, host.caller);
    if kind.None? then Err(UnauthorizedExecutor)
    else
      var res := ExecutionResult(resultHash, id, host.caller, kind.value, host.timestamp, host.blockHeight);
      var l1 := l.(results := l.results[id := res]);
      if id !in l1.pending then Ok(l1.(pending := l1.pending + [id]))
      else Ok(VerifyMatch(l1, id))
  }

  /** As written, a submission never writes a verdict, a mismatch or the
      phase, and never takes an id off the pending list. */
  lemma SubmitNeverDecides(l: Ledger, pool: ExecutorPool, host: Host, id: U128, h: Bytes)
    requires Submit(l, pool, host, id, h).Ok?
    ensures var l' := Submit(l, pool, host, id, h).value;
      && l'.verified == l.verified
      && l'.mismatches == l.mismatches
      && l'.phase == l.phase
      && id in l'.pending
      && forall x :: x in l.pending ==> x in l'.pending
  {
    var kind := Execution.CallerKind(pool, host.caller).value;
    var res := ExecutionResult(h, id, host.caller, kind, host.timestamp, host.blockHeight);
    var l1 := l.(results := l.results[id := res]);
    if id in l1.pending {
      assert VerifyMatch(l1, id) == l1;
    }
  }

  /** A run of submissions, each by its own host; failed ones change
      nothing. */
  function Run(l: Ledger, pool: ExecutorPool, steps: seq<(Host, U128, Bytes)>): Ledger
    decreases |steps|
  {
    if steps == [] then l
    else
      var r := Submit(l, pool, steps[0].0, steps[0].1, steps[0].2);
      Run(if r.Ok? then r.value else l, pool, steps[1..])
  }

  /** No sequence of submissions ever marks an execution verified or
      records a mismatch: `ExecutionVerified` keeps its initial contents. */
  lemma {:induction false} RunNeverVerifies(l: Ledger, pool: ExecutorPool, steps: seq<(Host, U128, Bytes)>)
    ensures Run(l, pool, steps).verified == l.verified
    ensures Run(l, pool, steps).mismatches == l.mismatches
    ensures Run(l, pool, steps).phase == l.phase
    decreases |steps|
  {
    if steps != [] {
      var r := Submit(l, pool, steps[0].0, steps[0].1, steps[0].2);
      if r.Ok? {
        SubmitNeverDecides(l, pool, steps[0].0, steps[0].1, steps[0].2);
      }
      RunNeverVerifies(if r.Ok? then r.value else l, pool, steps[1..]);
    }
  }

  /** The matching-results scenario: SGX then SEV submit the same hash for
      execution 1. As written the execution stays unverified and pending. */
  lemma MatchingScenarioStaysPending()
    ensures var sgx: Address := seq(32, _ => 1 as byte);
            var sev: Address := seq(32, _ => 2 as byte);
            var pool := ExecutorPool(Some(sgx), Some(sev), 0, 0, 0);
            var h: Bytes := seq(32, _ => 1 as byte);
            var r1 := Submit(Ledger(map[], [], map[], map[], Executing), pool, Host(sgx, 1, 1), 1, h);
            && r1.Ok?
            && var r2 := Submit(r1.value, pool, Host(sev, 2, 2), 1, h);
            && r2.Ok?
            && 1 !in r2.value.verified
            && r2.value.pending == [1]
  {
    var sgx: Address := seq(32, _ => 1 as byte);
    var sev: Address := seq(32, _ => 2 as byte);
    assert sgx[0] != sev[0];
    var pool := ExecutorPool(Some(sgx), Some(sev), 0, 0, 0);
    var h: Bytes := seq(32, _ => 1 as byte);
    var l1 := Submit(Ledger(map[], [], map[], map[], Executing), pool, Host(sgx, 1, 1), 1, h).value;
    assert l1.pending == [1];
    var l2 := Submit(l1, pool, Host(sev, 2, 2), 1, h).value;
    assert VerifyMatch(l1.(results := l2.results), 1) == l1.(results := l2.results);
  }
}
