/** Executor and watchdog registration, heartbeats and the read-only
    phase and statistics queries (src/core/executor.rs lines 9-63 and
    118-163, src/core/watchdog.rs). */
module Registry {
  import opened Types
  import opened Store

  /** `register_executor`: in phase `Creation` of an initialized system, an
      executor whose attestation the oracle accepts takes the empty slot of
      its declared kind. The caller's kind, Keep id, Drawbridge token,
      attestation flag and heartbeat are recorded, and the phase becomes
      `Executing` as soon as both slots are filled. */
  function RegisterExecutor(s: State, host: Host, attest: AttestationOracle,
                            kind: EnclaveType, keepId: string,
                            report: Bytes, token: Bytes): (r: Result<State>)
    ensures r.Ok? ==> Initialized(s) && PhaseOf(s) == Creation && attest(report, token)
    ensures Initialized(s) && PhaseOf(s) == Creation && !attest(report, token) ==>
              r == Err(InvalidAttestation)
    ensures r.Ok? <==>
      && Initialized(s) && PhaseOf(s) == Creation && attest(report, token)
      && s.executorPool.Some? && Slot(s.executorPool.value, kind).None?
    ensures Initialized(s) && PhaseOf(s) == Creation && attest(report, token)
            && s.executorPool.Some? && Slot(s.executorPool.value, kind).Some? ==>
              r == Err(SlotFilled(kind))
    ensures r.Ok? ==> r.value.executorPool.Some?
    ensures r.Ok? ==>
      var s' := r.value;
      var p := s.executorPool.value;
      var p' := s'.executorPool.value;
      && Slot(p', kind) == Some(host.caller)
      && Slot(p', Other(kind)) == Slot(p, Other(kind))
      && p'.executionCount == p.executionCount
      && p'.failedAttempts == p.failedAttempts
      && p'.lastExecutionTime == p.lastExecutionTime
      && (BothSlotsFilled(p') ==> s'.lastGlobalUpdate == Some(host.timestamp))
      && (!BothSlotsFilled(p') ==> s'.lastGlobalUpdate == s.lastGlobalUpdate)
      && s'.enclaveType == s.enclaveType[host.caller := kind]
      && s'.keepId == s.keepId[host.caller := keepId]
      && s'.drawbridgeToken == s.drawbridgeToken[host.caller := token]
      && s'.attestationStatus == s.attestationStatus[host.caller := true]
      && s'.heartbeatTimestamp == s.heartbeatTimestamp[host.caller := host.timestamp]
      && (PhaseOf(s') == Executing <==> BothSlotsFilled(p'))
      && (PhaseOf(s') == Creation <==> !BothSlotsFilled(p'))
      && s'.watchdogPool == s.watchdogPool
      && s'.challenges == s.challenges
    ensures r.Ok? ==> KeepsExecutions(s, r.value)
    ensures r.Ok? ==>
      r.value.(executorPool := s.executorPool, enclaveType := s.enclaveType, keepId := s.keepId,
               drawbridgeToken := s.drawbridgeToken, attestationStatus := s.attestationStatus,
               heartbeatTimestamp := s.heartbeatTimestamp, currentPhase := s.currentPhase,
               lastGlobalUpdate := s.lastGlobalUpdate) == s
  {
    var _ :- EnsureInitialized(s);
    var _ :- EnsurePhase(s, Creation);
    if !attest(report, token) then Err(InvalidAttestation)
    else if s.executorPool.None? then Err(ExecutorPoolMissing)
    else
      var pool := s.executorPool.value;
      if Slot(pool, kind).Some? then Err(SlotFilled(kind))
      else
        var pool' := SetSlot(pool, kind, Some(host.caller));
        var s1 := s.(executorPool := Some(pool'),
                     enclaveType := s.enclaveType[host.caller := kind],
                     keepId := s.keepId[host.caller := keepId],
                     drawbridgeToken := s.drawbridgeToken[host.caller := token],
                     attestationStatus := s.attestationStatus[host.caller := true],
                     heartbeatTimestamp := s.heartbeatTimestamp[host.caller := host.timestamp]);
        Ok(if BothSlotsFilled(pool') then TransitionToExecuting(s1, host.timestamp) else s1)
  }

  /** `submit_heartbeat`: an executor or a registered watchdog stamps its
      heartbeat; an executor's heartbeat also counts one execution. */
  function SubmitHeartbeat(s: State, host: Host): (r: Result<State>)
    ensures r.Ok? <==>
      && Initialized(s) && s.executorPool.Some? && s.watchdogPool.Some?
      && (IsExecutor(s.executorPool.value, host.caller)
          || IsWatchdog(s.watchdogPool.value.watchdogs, host.caller))
    ensures Initialized(s) && s.executorPool.Some? && s.watchdogPool.Some?
            && !IsExecutor(s.executorPool.value, host.caller)
            && !IsWatchdog(s.watchdogPool.value.watchdogs, host.caller) ==>
              r == Err(UnauthorizedCaller)
    ensures r.Ok? ==>
      var s' := r.value;
      var p := s.executorPool.value;
      && s'.heartbeatTimestamp == s.heartbeatTimestamp[host.caller := host.timestamp]
      && s'.executorPool.Some?
      && (IsExecutor(p, host.caller) ==>
            s'.executorPool.value == p.(executionCount := p.executionCount + 1,
                                        lastExecutionTime := host.timestamp))
      && (!IsExecutor(p, host.caller) ==> s'.executorPool == s.executorPool)
      && s'.(heartbeatTimestamp := s.heartbeatTimestamp, executorPool := s.executorPool) == s
  {
    var _ :- EnsureInitialized(s);
    if s.executorPool.None? then Err(ExecutorPoolMissing)
    else if s.watchdogPool.None? then Err(WatchdogPoolMissing)
    else
      var pool := s.executorPool.value;
      var isExecutor := IsExecutor(pool, host.caller);
      var isWatchdog := IsWatchdog(s.watchdogPool.value.watchdogs, host.caller);
      if !(isExecutor || isWatchdog) then Err(UnauthorizedCaller)
      else
        var s1 := s.(heartbeatTimestamp := s.heartbeatTimestamp[host.caller := host.timestamp]);
        if isExecutor then
          Ok(s1.(executorPool := Some(pool.(lastExecutionTime := host.timestamp,
                                            executionCount := pool.executionCount + 1))))
        else
          Ok(s1)
  }

  /** `get_current_phase`: the stored phase, `NoPhase` when missing. */
  function GetCurrentPhase(s: State): (r: Result<Phase>)
    ensures r.Ok? <==> Initialized(s)
    ensures r.Ok? ==> (s.currentPhase.Some? ==> r.value == s.currentPhase.value)
                      && (s.currentPhase.None? ==> r.value == NoPhase)
  {
    var _ :- EnsureInitialized(s);
    Ok(PhaseOf(s))
  }

  /** `register_watchdog`: in phase `Creation` or `Executing` an address not
      yet in the watchdog list is appended to it with its kind. The
      attestation check's verdict is discarded by the source, so it is not
      consulted here. Neither the phase nor the executor pool changes. */
  function RegisterWatchdog(s: State, host: Host, kind: EnclaveType,
                            report: Bytes, signature: Bytes): (r: Result<State>)
    ensures r.Ok? <==>
      && Initialized(s) && PhaseOf(s) in {Creation, Executing}
      && s.watchdogPool.Some? && !IsWatchdog(s.watchdogPool.value.watchdogs, host.caller)
    ensures Initialized(s) && PhaseOf(s) !in {Creation, Executing} ==>
              r == Err(InvalidPhaseForWatchdog)
    ensures Initialized(s) && PhaseOf(s) in {Creation, Executing} && s.watchdogPool.Some?
            && IsWatchdog(s.watchdogPool.value.watchdogs, host.caller) ==>
              r == Err(WatchdogAlreadyRegistered)
    ensures r.Ok? ==>
      var s' := r.value;
      var w := s.watchdogPool.value;
      && s'.watchdogPool == Some(w.(watchdogs := w.watchdogs + [(host.caller, kind)]))
      && s'.enclaveType == s.enclaveType[host.caller := kind]
      && s'.attestationStatus == s.attestationStatus[host.caller := true]
      && s'.heartbeatTimestamp == s.heartbeatTimestamp[host.caller := host.timestamp]
      && s'.currentPhase == s.currentPhase
      && s'.executorPool == s.executorPool
      && s'.challenges == s.challenges
    ensures r.Ok? ==> KeepsExecutions(s, r.value)
    ensures r.Ok? ==>
      r.value.(watchdogPool := s.watchdogPool, enclaveType := s.enclaveType,
               attestationStatus := s.attestationStatus,
               heartbeatTimestamp := s.heartbeatTimestamp) == s
  {
    var phase :- GetCurrentPhase(s);
    if !(phase == Creation || phase == Executing) then Err(InvalidPhaseForWatchdog)
    else if s.watchdogPool.None? then Err(WatchdogPoolMissing)
    else
      var pool := s.watchdogPool.value;
      if IsWatchdog(pool.watchdogs, host.caller) then Err(WatchdogAlreadyRegistered)
      else
        Ok(s.(watchdogPool := Some(pool.(watchdogs := pool.watchdogs + [(host.caller, kind)])),
              enclaveType := s.enclaveType[host.caller := kind],
              attestationStatus := s.attestationStatus[host.caller := true],
              heartbeatTimestamp := s.heartbeatTimestamp[host.caller := host.timestamp]))
  }

  /** Registration appends: every earlier entry keeps its position, the new
      entry is last, and uniqueness of addresses is preserved. */
  lemma RegisterWatchdogAppends(s: State, host: Host, kind: EnclaveType, report: Bytes, signature: Bytes)
    requires RegisterWatchdog(s, host, kind, report, signature).Ok?
    ensures var ws := s.watchdogPool.value.watchdogs;
            var ws' := RegisterWatchdog(s, host, kind, report, signature).value.watchdogPool.value.watchdogs;
            && |ws'| == |ws| + 1
            && ws'[..|ws|] == ws
            && ws'[|ws|] == (host.caller, kind)
            && (UniqueWatchdogs(ws) ==> UniqueWatchdogs(ws'))
  {
    var ws := s.watchdogPool.value.watchdogs;
    var ws' := ws + [(host.caller, kind)];
    if UniqueWatchdogs(ws) {
      forall i, j | 0 <= i < j < |ws'| ensures ws'[i].0 != ws'[j].0 {
        if j == |ws| {
          assert ws[i].0 != host.caller;
        }
      }
    }
  }

  /** Nothing keeps the two slots apart: one address that passes the
      attestation check fills the SGX slot and then the SEV slot, which
      moves the system to `Executing` with a single party executing both
      kinds, recorded as SEV. */
  lemma OneAddressCanFillBothSlots(s: State, host: Host, attest: AttestationOracle,
                                   keepId: string, report: Bytes, token: Bytes)
    requires Initialized(s) && PhaseOf(s) == Creation
    requires s.executorPool.Some? && BothSlotsEmpty(s.executorPool.value)
    requires attest(report, token)
    ensures var r1 := RegisterExecutor(s, host, attest, IntelSGX, keepId, report, token);
      && r1.Ok?
      && var r2 := RegisterExecutor(r1.value, host, attest, AMDSEV, keepId, report, token);
      && r2.Ok?
      && r2.value.executorPool.value.sgxExecutor == Some(host.caller)
      && r2.value.executorPool.value.sevExecutor == Some(host.caller)
      && PhaseOf(r2.value) == Executing
      && r2.value.enclaveType[host.caller] == AMDSEV
  {
    var s1 := RegisterExecutor(s, host, attest, IntelSGX, keepId, report, token).value;
    assert Slot(s1.executorPool.value, AMDSEV) == Slot(s.executorPool.value, AMDSEV);
  }

  /** Nothing keeps executors and watchdogs apart either: a registered
      executor can join the watchdog list, and that registration replaces
      the kind recorded for its address. */
  lemma ExecutorCanBeWatchdog(s: State, host: Host, attest: AttestationOracle, kind: EnclaveType,
                              keepId: string, report: Bytes, token: Bytes,
                              watchdogKind: EnclaveType, watchdogReport: Bytes, signature: Bytes)
    requires RegisterExecutor(s, host, attest, kind, keepId, report, token).Ok?
    requires s.watchdogPool.Some? && !IsWatchdog(s.watchdogPool.value.watchdogs, host.caller)
    ensures var s1 := RegisterExecutor(s, host, attest, kind, keepId, report, token).value;
      var r2 := RegisterWatchdog(s1, host, watchdogKind, watchdogReport, signature);
      && r2.Ok?
      && IsExecutor(r2.value.executorPool.value, host.caller)
      && IsWatchdog(r2.value.watchdogPool.value.watchdogs, host.caller)
      && r2.value.enclaveType[host.caller] == watchdogKind
  {
    var s1 := RegisterExecutor(s, host, attest, kind, keepId, report, token).value;
    assert PhaseOf(s1) in {Creation, Executing};
    var ws := s1.watchdogPool.value.watchdogs;
    var ws' := RegisterWatchdog(s1, host, watchdogKind, watchdogReport, signature).value.watchdogPool.value.watchdogs;
    assert ws' == ws + [(host.caller, watchdogKind)];
    assert ws'[|ws|].0 == host.caller;
  }

  /** `get_system_stats`: contract count, challenge count and last global
      update, each 0 when missing. */
  function GetSystemStats(s: State): (r: Result<(nat, nat, nat)>)
    ensures r.Ok? <==> Initialized(s)
    ensures r.Ok? ==>
      && (s.contractCount.Some? ==> r.value.0 == s.contractCount.value)
      && (s.contractCount.None? ==> r.value.0 == 0)
      && (s.challengeCount.Some? ==> r.value.1 == s.challengeCount.value)
      && (s.challengeCount.None? ==> r.value.1 == 0)
      && (s.lastGlobalUpdate.Some? ==> r.value.2 == s.lastGlobalUpdate.value)
      && (s.lastGlobalUpdate.None? ==> r.value.2 == 0)
  {
    var _ :- EnsureInitialized(s);
    Ok((s.contractCount.GetOr(0), s.challengeCount.GetOr(0), s.lastGlobalUpdate.GetOr(0)))
  }
}
