# Dual-TEE coordination contract — a Dafny model

The system coordinates two executors that run the same workload in two
kinds of trusted execution environment, Intel SGX and AMD SEV. A set of
watchdogs polices them. The on-chain part is a wasmlanche contract over a
keyed store. Its public entrypoints do the following:

- initialize the system;
- register the two executors and the watchdogs;
- take heartbeats;
- collect one execution result per kind and compare the two hashes;
- run a challenge life-cycle (create, respond, verify by a two-thirds
  quorum) that can vacate an executor's slot and crash the system;
- gate staking and split rewards.

An off-chain executor pool keeps the same pairs of results and issues its
own challenges.

The model is functional:

- The store is one immutable record, `Store.State`, with one field per key
  of the schema that the modelled entrypoints read or write. `Contract(u128)`,
  `OperatorHash`, `StateRoot` and `VerificationProof(u128)` have no field
  (see Left out).
- Every entrypoint is a pure function from the store, the host inputs
  (`Types.Host`: caller, timestamp, block height) and its arguments to a
  `Result<State>`.
- A failed assertion in the source is an `Err`, which carries no store. A
  failed transaction therefore leaves the store exactly as it was
  (`System.Step`).
- `System.Run` folds a sequence of calls. `System.Inv` is an invariant that
  every store reachable from the empty store satisfies.

Modules:

| file | module | models |
|---|---|---|
| types.dfy | Types | the enums and records, the two executor slots, `Result`, the oracle types |
| state.dfy | Store | the key schema, `ensure_initialized`, `ensure_phase`, `update_global_state` |
| utils.dfy | Utils | `hash_incremental`, `hash_message`, little-endian `u128` bytes, the stub oracles |
| init.dfy | Init | `init` |
| registry.dfy | Registry | executor and watchdog registration, heartbeats, phase and statistics queries |
| execution.dfy | Execution | result submission and reconciliation, with results kept per kind |
| execution_as_written.dfy | ExecutionAsWritten | the same, with the single-record storage of the source |
| challenge_create.dfy | ChallengeCreate | `challenge_executor`, `ensure_watchdog` |
| challenge_response.dfy | ChallengeResponse | `respond_to_challenge` and its helpers |
| challenge_verification.dfy | ChallengeVerification | `verify_challenge_response`, `handle_challenge_failure`, `get_challenge_stats` |
| pool.dfy | Pool | the off-chain executor pool |
| token.dfy | Token | `stake_tokens`, `distribute_rewards`, `has_minimum_stake` |
| system.dfy | System | the transition system and its invariant |

Oracles and host services become parameters:

- The attestation check is an `AttestationOracle`. The signature check is a
  `SignatureOracle`. The source's stubs, which accept everything, are
  `Utils.StubAttestation` and `Utils.StubSignature`.
- The string an address renders to (`caller.to_string()`, the key of
  `OperatorData`) is a `render` parameter.
- Token balances are inputs. Token transfers are returned as a list of
  `Token.TokenCall` values.
- Random challenge ids and the undefined `CHALLENGE_TIMEOUT` are inputs.
- The results of Keep execution in the pool are inputs.

Where the model departs from the code:

- Execution results are stored per kind. The schema keeps ONE
  `ExecutionResult` per id (src/state.rs:45), and the second submission
  overwrites the first (src/execution/mod.rs:40-42). As written, the two
  kinds are never both visible, so no execution is ever verified or found
  mismatched. The module's own tests expect the pairwise behaviour
  (src/execution/mod.rs:256-301). `Execution` keeps both results, like the
  pool's `VerificationPair`. `ExecutionAsWritten` models the code as
  written and proves that it never decides (see Findings).
- `handle_execution_mismatch` creates its two challenges through an
  `async` entrypoint. The futures are never awaited, the arguments do not
  fit the entrypoint's signature, and the caller need not be a watchdog.
  The model therefore stores no challenge on a mismatch. It moves the
  phase to `ChallengeExecutor` and records the mismatch.
- `challenge_executor` checks neither initialization nor the phase, and it
  ignores its requested type; the type follows the evidence. Its call
  `store_challenge` (src/challenge/create.rs:48) is read as a write of
  `Challenge(id)`; the model updates neither `ChallengeCount` nor
  `ActiveChallenges`. `ensure_watchdog` calls `contains` on the pool,
  which is read as membership of the watchdog list.
- `challenge_executor` (src/challenge/create.rs:15-44) builds its
  challenge with `requirements` and `deadline` fields, which the
  `Challenge` type in `src/types.rs` does not have. The model keeps the
  type's fields: the deadline is stored as `responseDeadline`, the
  requirements are not modelled, and `challengeData` and
  `verificationProofs` start empty.
- `init` (src/core/init.rs:42-60) writes two operator fields,
  `tee_signature_address` and `tee_encryption_key`, that the `Operator`
  type in `src/types.rs` does not have, and leaves out its `keep_id` and
  `drawbridge_token`. The model keeps the type's fields and gives those
  two their empty values; the extra fields are not modelled.

Behaviour kept as written and stated as lemmas:

- The watchdog-proof check in `respond_to_challenge` is evaluated, but its
  verdict is discarded. The attestation check in `register_watchdog` is
  discarded as well, so it is not consulted.
- The quorum counts the response itself as the first proof. Proofs are
  not de-duplicated, so one watchdog can decide a challenge alone
  (`ChallengeVerification.OneWatchdogCanDecide`).
- The call that reaches the quorum decides with its own verdict.
  `Crashed` is not terminal: an accepted verification moves any phase to
  `Executing`.
- `handle_failed_challenge`, on the response path, never moves the phase
  to `Crashed`. `handle_challenge_failure`, on the verification path,
  does.
- One address can fill both executor slots
  (`Registry.OneAddressCanFillBothSlots`). An executor can also register
  as a watchdog, which overwrites its recorded kind
  (`Registry.ExecutorCanBeWatchdog`).
- The pool's `verify_execution_results` writes the `verified` flag before
  creating challenges, so the flag persists when challenge creation fails.
- The pool's `watchdog_verifiers` map starts empty (src/executor/pool.rs:74),
  and no pool operation inserts into it. So `select_challenger` never finds
  a watchdog, `create_execution_challenge` and `initiate_mismatch_challenge`
  always fail, and a mismatch in `verify_execution_results` always ends in
  an error (`Pool.NoExecutionChallengeIsCreated`, `Pool.MismatchAlwaysFails`).
  `Pool.SelectChallenger` and `Pool.CreateExecutionChallenge` are still
  stated for any watchdog list, so their success cases describe pools the
  program never builds.

## Model

| member | source | states |
|---|---|---|
| Types.Other | src/types.rs:4-7 | there are two kinds, and the other kind of a kind is a different kind |
| Types.SlotsAreIndependent | src/types.rs:47-50 | each kind selects exactly one of the two executor slots: writing one kind's slot is seen by that kind alone |
| Types.SetSlot | src/core/executor.rs:37-46 | filling one kind's slot leaves the other slot and the pool's counters unchanged |
| Types.Vacate | src/challenge/response.rs:105-112 | the slot holding the address is emptied, the SGX slot checked first; failed attempts go up by one; the address stays an executor only if it held both slots |
| Types.WithSide | src/executor/pool.rs:50-54 | filing a result on one kind's side of a pair sets that side and keeps the other |
| Store.EnsureInitialized | src/state.rs:55-60 | succeeds exactly when `SystemInitialized` is stored as true; a missing key fails; nothing is written |
| Store.EnsurePhase | src/state.rs:62-73 | succeeds exactly when the stored phase equals the expected one, a missing phase reading as `None`; the error names both phases |
| Store.UpdateGlobalState | src/state.rs:75-79 | `LastGlobalUpdate` becomes the timestamp and no other key changes |
| Store.TransitionToExecuting | src/core/executor.rs:157-163 | the phase becomes `Executing`, the global stamp is updated, nothing else changes |
| Utils.EncodeChar | src/core/utils.rs:36-40 | a character's UTF-8 encoding is 1 to 4 bytes, one byte exactly for ASCII, and that byte is the code |
| Utils.Utf8Length | src/core/utils.rs:36-40 | a string of n characters encodes to between n and 4n bytes, exactly n when all are ASCII |
| Utils.Utf8Append | src/core/utils.rs:36-40 | the encoding of a concatenation is the concatenation of the encodings |
| Utils.HashIncremental | src/core/utils.rs:36-40 | the previous hash is a prefix of the result, the rest is the operator's bytes, and the lengths add up |
| Utils.HashIncrementalChains | src/core/utils.rs:36-40 | extending by a and then by b equals extending once by a ++ b |
| Utils.HashMessage | src/core/utils.rs:31-34 | the placeholder hash returns the message unchanged |
| Utils.StubAttestation | src/core/utils.rs:13-20 | the shipped attestation check accepts every report |
| Utils.StubSignature | src/core/utils.rs:22-29 | the shipped signature check accepts every signature |
| Utils.LeBytes | src/execution/mod.rs:194 | `to_le_bytes` of a w-byte integer is w bytes |
| Utils.LeBytesRoundTrip | src/execution/mod.rs:194 | decoding the little-endian bytes gives the number back |
| Utils.Le16 | src/execution/mod.rs:194 | a `u128` becomes 16 bytes that decode to it |
| Init.FreshOperator | src/core/init.rs:42-60 | a new operator record is initialized, its last heartbeat is the given time and both challenge counters are zero |
| Init.Init | src/core/init.rs:8-85 | fails exactly when already initialized; otherwise it sets phase `Creation`, empty slots, zero counts, an empty watchdog list, the call's time as the global stamp, the pool's last execution time, the watchdog pool's last verification and both operators' last heartbeat, both operators, both collaborator addresses, zero counters and empty lists; every key `init` does not write, the execution and challenge records included, is unchanged |
| Init.InitOnlyOnce | src/core/init.rs:16-19 | a second `init` after a successful one fails with "already initialized" |
| Registry.RegisterExecutor | src/core/executor.rs:9-63 | succeeds exactly when initialized, in `Creation`, the oracle accepts and the kind's slot is empty, with the error of each failed gate; the other slot and the pool counters and time are kept; the caller's kind, Keep id, token, attestation flag and heartbeat are stored; the phase is `Executing` exactly when both slots are filled, and only then is the global stamp written; every other key of the store is unchanged |
| Registry.SubmitHeartbeat | src/core/executor.rs:118-155 | only an executor or a registered watchdog may call; the heartbeat is stamped; an executor's also counts one execution and stamps the pool; nothing else changes |
| Registry.GetCurrentPhase | src/core/watchdog.rs:52-59 | requires initialization; the stored phase, `None` when missing |
| Registry.RegisterWatchdog | src/core/watchdog.rs:8-50 | succeeds exactly when initialized, in `Creation` or `Executing`, and the caller is not listed; it appends `(caller, kind)` and stores kind, attestation flag and heartbeat; every other key of the store is unchanged |
| Registry.RegisterWatchdogAppends | src/core/watchdog.rs:33-39 | the list grows by one at its end, earlier entries keep their positions, and addresses stay unique |
| Registry.OneAddressCanFillBothSlots | src/core/executor.rs:37-62 | one address can take the SGX slot and then the SEV slot, reaching `Executing` with a single party in both slots |
| Registry.ExecutorCanBeWatchdog | src/core/watchdog.rs:32-49 | a registered executor can also register as a watchdog, and its recorded kind is replaced |
| Registry.GetSystemStats | src/core/watchdog.rs:61-69 | requires initialization; the contract count, challenge count and last update, each 0 when missing |
| Execution.CallerKind | src/execution/mod.rs:22-28 | the caller's kind is SGX if it holds the SGX slot, else SEV if it holds the SEV slot; none exactly for a non-executor |
| Execution.StoreResult | src/execution/mod.rs:39-42 | the result is filed on its own kind's side of the id's pair; the other side and every other id are kept |
| Execution.AddPending | src/execution/mod.rs:50-55 | a first submission appends the id to the pending list |
| Execution.RemoveAll | src/execution/mod.rs:99-107 | every occurrence of the id is removed and every other id keeps its count |
| Execution.RemoveAllDistributes | src/execution/mod.rs:104 | removal works element-wise, so the other ids keep their order |
| Execution.RemoveAllKeepsNoDuplicates | src/execution/mod.rs:99-107 | removal never introduces a duplicate |
| Execution.MarkVerified | src/execution/mod.rs:73-78 | `ExecutionVerified(id)` becomes true and every other id's verdict is kept; the pending list and phase are kept |
| Execution.RecordMismatch | src/execution/mod.rs:81-87 | the pair is stored as a mismatch and the phase becomes `ChallengeExecutor` |
| Execution.HandleExecutionMismatch | src/execution/mod.rs:110-127 | the phase becomes `ChallengeExecutor`; no challenge is stored |
| Execution.DropPending | src/execution/mod.rs:99-107 | the id leaves the pending list; verdicts and phase are kept |
| Execution.SettleMatch | src/execution/mod.rs:72-107 | equal hashes: this id verified, other verdicts kept, off the pending list, phase and mismatches kept |
| Execution.SettleMismatch | src/execution/mod.rs:81-107 | differing hashes: mismatch stored, phase `ChallengeExecutor`, verdict untouched, off the pending list |
| Execution.VerifyExecutionMatch | src/execution/mod.rs:61-108 | with both sides, the id leaves the pending list and is verified (other verdicts kept) or recorded as a mismatch according to the hashes; with a side missing nothing changes; only the execution keys and the phase are ever written |
| Execution.Reconcile | src/execution/mod.rs:50-58 | an id not yet pending is appended; a pending one is reconciled |
| Execution.SubmitExecutionResult | src/execution/mod.rs:8-59 | succeeds exactly for an executor; the result is filed under the caller's kind with the other kind's side and every other id's pair kept; only the execution keys and the phase change, every other key of the store is unchanged |
| Execution.SubmitFirstPends | src/execution/mod.rs:44-55 | the first submission for an id appends it once and decides nothing |
| Execution.SubmitWaitsForOtherSide | src/execution/mod.rs:93-96 | while a side is missing the pending list, verdicts and phase stay as they were |
| Execution.SubmitMatchVerifies | src/execution/mod.rs:72-78 | completing a pair with equal hashes verifies this id, keeps every other verdict and removes the id |
| Execution.SubmitMismatchChallenges | src/execution/mod.rs:81-87 | completing a pair with differing hashes records the mismatch, moves to `ChallengeExecutor`, keeps the verdict |
| Execution.MatchingPairVerifies | src/execution/mod.rs:256-278 | the two executors submitting equal hashes for a fresh id, in either order, verify it and leave the pending list as before |
| Execution.CreateVerificationChallenge | src/execution/mod.rs:184-198 | the data is the id's 16 little-endian bytes, then the SGX hash, then the SEV hash |
| Execution.ChallengeDataInjective | src/execution/mod.rs:184-198 | for hashes of a fixed length, equal challenge data means equal id and equal hashes |
| Execution.VerifyExecution | src/execution/mod.rs:129-138 | the stored verdict, false when missing |
| Execution.GetExecutionResult | src/execution/mod.rs:140-148 | the stored pair for the id, none when missing |
| Execution.GetPendingVerifications | src/execution/mod.rs:150-158 | the pending list, empty when missing |
| Execution.GetVerificationMismatch | src/execution/mod.rs:160-168 | the stored mismatch for the id, none when missing |
| ExecutionAsWritten.ExecutorResult | src/execution/mod.rs:171-182 | the single stored record, returned only when its kind is the one asked for |
| ExecutionAsWritten.VerifyMatch | src/execution/mod.rs:61-108 | with one record per id, both kinds are never present at once, so reconciliation returns the ledger unchanged |
| ExecutionAsWritten.Submit | src/execution/mod.rs:8-59 | succeeds exactly for an executor; the single record for the id is replaced by the caller's result; an id not yet pending is appended once, a pending one stays and nothing else is reconciled |
| ExecutionAsWritten.SubmitNeverDecides | src/execution/mod.rs:39-58 | a submission never changes verdicts, mismatches or the phase, and leaves the id pending |
| ExecutionAsWritten.RunNeverVerifies | src/execution/mod.rs:39-42 | no sequence of submissions ever verifies an execution or records a mismatch |
| ExecutionAsWritten.MatchingScenarioStaysPending | src/execution/mod.rs:256-278 | in the module's matching test the id stays pending and unverified |
| ChallengeCreate.TypeFor | src/challenge/create.rs:15-44 | attestation evidence gives an `Attestation` challenge, execution evidence an `Execution` one |
| ChallengeCreate.EnsureWatchdog | src/challenge/create.rs:53-64 | succeeds exactly for a registered watchdog; a missing pool and a stranger get their own errors |
| ChallengeCreate.ChallengeExecutor | src/challenge/create.rs:4-51 | succeeds exactly for a watchdog; the challenge names caller and target, takes its type from the evidence, is `Pending` without proofs, is due timeout after now, and is stored under its id; every other key of the store is unchanged |
| ChallengeResponse.AllWatchdogs | src/challenge/response.rs:67-78 | true exactly when every witness is a listed watchdog |
| ChallengeResponse.VerifyChallengeProof | src/challenge/response.rs:61-79 | true exactly when every witness is a watchdog, so true with no witnesses; a missing pool aborts only when there is a witness |
| ChallengeResponse.CheckResponder | src/challenge/response.rs:16-30 | passes exactly when initialized, the challenge exists, the caller is the challenged party, it is `Pending` and the deadline (inclusive) has not passed; each failure has its own error |
| ChallengeResponse.CountResponse | src/challenge/response.rs:44-53 | the responder's record counts one more response; without a record nothing changes |
| ChallengeResponse.RecordResponse | src/challenge/response.rs:35-53 | the challenge becomes `Responded` with the response appended and its other fields kept; other challenges are kept; the responder's record counts one more response; nothing else changes |
| ChallengeResponse.VerifyAttestationChallenge | src/challenge/response.rs:81-97 | an accepted proof sets the challenged address's attestation flag; a rejected one vacates its slot; only the attestation flags or the executor pool change |
| ChallengeResponse.HandleFailedChallenge | src/challenge/response.rs:99-117 | the challenged slot is vacated and failed attempts go up by one; only the executor pool changes, so the phase is kept |
| ChallengeResponse.RespondToChallenge | src/challenge/response.rs:9-59 | succeeds exactly when the gates pass and the looked-up pools exist; the challenge becomes `Responded` with the response appended, the responder's record counts it, and an attestation challenge is judged at once (accepted: the flag is set and the pool kept; rejected: the slot is vacated); only the challenge, the operator records, the attestation flags and the executor pool can change |
| ChallengeResponse.RespondOnlyOnce | src/challenge/response.rs:29 | an answered challenge rejects every further response |
| ChallengeVerification.Quorum | src/challenge/verification.rs:44 | the quorum is at least 1 and is the least count above two thirds of the watchdogs |
| ChallengeVerification.CheckVerifier | src/challenge/verification.rs:16-38 | passes exactly when initialized, the caller is a watchdog and the challenge exists and is `Responded`; each failure has its own error |
| ChallengeVerification.Accept | src/challenge/verification.rs:47-49 | the challenge is `Verified`, the phase becomes `Executing` whatever it was, the global stamp is the call's time, and nothing else changes |
| ChallengeVerification.StorePool | src/challenge/verification.rs:78-87 | the reduced pool is stored, the phase becomes `Crashed` exactly when both slots are empty, and nothing else changes |
| ChallengeVerification.HandleChallengeFailure | src/challenge/verification.rs:62-88 | the challenged slot is vacated, failed attempts go up by one, the phase becomes `Crashed` exactly when both slots are then empty, and nothing else changes |
| ChallengeVerification.Reject | src/challenge/verification.rs:50-53 | the challenge is `Failed` and the executor is dropped as above; nothing else changes |
| ChallengeVerification.VerifyChallengeResponse | src/challenge/verification.rs:7-60 | each accepted call appends one proof and keeps the challenge's other fields; below the quorum only the challenge changes and it stays `Responded`; the call that reaches it decides with its own verdict: accepted, phase `Executing`, the global stamp written and the pools kept; rejected, the executor dropped; other challenges and every other key are kept |
| ChallengeVerification.OneWatchdogCanDecide | src/challenge/verification.rs:40-54 | with no de-duplication, the same watchdog calling twice can decide a challenge |
| ChallengeVerification.CountStatus | src/challenge/verification.rs:108-120 | the count of listed challenges in a status is at most the list's length |
| ChallengeVerification.TalliesBounded | src/challenge/verification.rs:104-120 | pending + verified + failed is at most the number of listed challenges |
| ChallengeVerification.GetChallengeStats | src/challenge/verification.rs:90-123 | requires initialization; the total defaults to 0 and the three tallies are the per-status counts over the active list |
| Pool.NewPool | src/executor/pool.rs:69-82 | a new pool has no executors, no watchdogs, zero counters and no results |
| Pool.RegisterExecutor | src/executor/pool.rs:84-112 | fills only an empty slot of the given kind with an `Active` instance; an occupied slot fails |
| Pool.GetActiveExecutors | src/executor/pool.rs:409-420 | both instances exactly when both slots are filled and `Active`; otherwise `ExecutorNotFound` or `ExecutorNotActive` |
| Pool.GetExecutorByAddress | src/executor/pool.rs:422-434 | the SGX instance if its address matches, else the SEV instance, else `ExecutorNotFound` |
| Pool.Execute | src/executor/pool.rs:114-141 | with both executors active, both results are stored, unverified, under the id |
| Pool.SelectChallenger | src/executor/pool.rs:355-361 | a watchdog of the requested kind, or `NoAvailableWatchdog` exactly when there is none |
| Pool.SelectChallengerPicksFirst | src/executor/pool.rs:357-359 | the chosen watchdog is the first of its kind in iteration order |
| Pool.CreateExecutionChallenge | src/executor/pool.rs:331-353 | fails when the kind's slot is empty or no watchdog of its kind exists; otherwise a `Pending` `Execution` challenge against that slot's address, due in 300 seconds |
| Pool.InitiateMismatchChallenge | src/executor/pool.rs:302-329 | succeeds exactly when both kinds' challenges can be created |
| Pool.VerifyExecutionResults | src/executor/pool.rs:275-300 | unknown id fails; a missing side answers false without change; otherwise the flag records whether the hashes agree, and a mismatch creates the challenges |
| Pool.ExecuteThenVerify | src/executor/pool.rs:565-583 | results stored by `execute` verify exactly when their hashes agree |
| Pool.HandleChallenge | src/executor/pool.rs:171-183 | the challenged executor, found by address, becomes `Challenged`; the other slot is kept |
| Pool.HandledExecutorIsChallenged | src/executor/pool.rs:586-611 | after handling, looking the executor up again finds it `Challenged` |
| Pool.RegisterBothActivates | src/executor/pool.rs:545-562 | registering one executor of each kind makes the pair active |
| Pool.ApplyPool | src/executor/pool.rs:84-300 | no registration, execution, verification or challenge handling changes the watchdog list |
| Pool.RunPoolKeepsWatchdogs | src/executor/pool.rs:15 | no sequence of pool operations changes the watchdog list |
| Pool.NoExecutionChallengeIsCreated | src/executor/pool.rs:74 | on every pool reachable from a new one, no watchdog is ever selected and no execution challenge is created, for either kind |
| Pool.MismatchAlwaysFails | src/executor/pool.rs:275-300 | on every pool reachable from a new one, comparing a pair whose hashes differ ends in an error, with the pair's flag false |
| Token.TokenContext | src/external/token.rs:8-15 | the stored token contract, an error when missing |
| Token.StakeTokens | src/external/token.rs:48-82 | only an executor or watchdog may stake; the stake is one transfer from the caller to the contract |
| Token.ExecutorPayouts | src/external/token.rs:107-121 | one transfer per occupied executor slot, at most two, each of the executor share; the SGX slot's address is paid first and the SEV slot's address last |
| Token.ExecutorPayoutsTotal | src/external/token.rs:103-121 | the executors receive at most twice the executor share |
| Token.WatchdogPayouts | src/external/token.rs:123-134 | one transfer to each watchdog, in list order |
| Token.WatchdogPayoutsTotal | src/external/token.rs:124-134 | the watchdogs receive count times the per-watchdog share |
| Token.Payouts | src/external/token.rs:102-134 | the executor transfers come first, then the watchdog transfers when there are watchdogs |
| Token.DistributeRewards | src/external/token.rs:84-135 | requires initialization and `Executing`; the transfers are the payouts above |
| Token.PayoutsKeepAThird | src/external/token.rs:102-134 | the transfers add up to at most two thirds of the balance |
| Token.RewardsKeepAThird | src/external/token.rs:103-105 | a distribution leaves at least a third of the balance with the contract |
| Token.HasMinimumStake | src/external/token.rs:151-164 | false without a recorded kind, otherwise whether the balance reaches 1000 |
| System.EmptySatisfiesInv | src/state.rs:4-52 | the empty store satisfies the invariant |
| System.InitPreservesInv | src/core/init.rs:8-85 | `init` preserves the invariant |
| System.RegisterExecutorPreservesInv | src/core/executor.rs:9-63 | executor registration preserves the invariant |
| System.HeartbeatPreservesInv | src/core/executor.rs:118-155 | heartbeats preserve the invariant |
| System.RegisterWatchdogPreservesInv | src/core/watchdog.rs:8-50 | watchdog registration preserves the invariant, in particular unique watchdogs |
| System.SubmitPreservesInv | src/execution/mod.rs:8-59 | result submission preserves the invariant |
| System.StoredResultKeepsInv | src/execution/mod.rs:39-42 | filing a result keeps pending ids stored and verified pairs complete |
| System.ReconcileKeepsPending | src/execution/mod.rs:50-107 | reconciling keeps the pending list free of duplicates and of ids without a result |
| System.ReconcileKeepsVerified | src/execution/mod.rs:61-108 | reconciling marks an id verified only with both results present |
| System.ReconcileKeepsPhase | src/execution/mod.rs:61-127 | reconciling keeps the phase, or moves it to `ChallengeExecutor` |
| System.ChallengePreservesInv | src/challenge/create.rs:4-51 | challenge creation preserves the invariant |
| System.RespondPreservesInv | src/challenge/response.rs:9-59 | responding preserves the invariant |
| System.VerifyPreservesInv | src/challenge/verification.rs:7-88 | verification preserves the invariant, including `Crashed` only with both slots empty |
| System.StakePreservesInv | src/external/token.rs:48-82 | staking preserves the invariant |
| System.StepPreservesInv | src/state.rs:4-52 | every transaction, successful or aborted, preserves the invariant |
| System.RunPreservesInv | src/state.rs:4-52 | every sequence of transactions preserves the invariant |
| System.ReachableSatisfiesInv | src/state.rs:4-52 | every store reachable from the empty store satisfies the invariant |
| System.TerminalStatusStays | src/challenge/verification.rs:35-38 | no transaction changes a `Verified` or `Failed` challenge, except a new challenge created under the same id |

## Left out

- `src/core/executor.rs:64-116` is an orphaned second registration body and is not modelled.
- Async I/O, locks and clocks: the pool's `tokio::join!`, its `RwLock` and `SystemTime` are not modelled. Times are inputs. The pool's mismatch path holds the state's write lock while `initiate_mismatch_challenge` takes a read lock. The model returns as if the lock had been released, so a deadlock is not modelled.
- Keep launch, Keep execution, health checks, Drawbridge tokens and the evidence checks (`handle_attestation_challenge`, `handle_execution_challenge`, `verify_evidence` and the `verify_*` helpers in src/executor/pool.rs) go through the external Enarx API. The Enarx modules are not part of this model. Their outcomes are inputs, and `Pool.HandleChallenge` covers only the status update.
- Pool.HandleChallenge: requires an `Attestation` or `Execution` challenge, because the source's `match` covers only those two types.
- Failures of the Enarx API in the pool are not modelled: `EnarxManager::new` in `ExecutorPool::new` (src/executor/pool.rs:71), `launch_keep` in `register_executor` (pool.rs:90) and the two Keep executions in `execute` (pool.rs:133-134). Each such failure returns before the pool is written, so in `Pool.RunPool` it corresponds to skipping the call.
- `generate_challenge_id` and the undefined `CHALLENGE_TIMEOUT` are inputs.
- Pool `store_challenge` and `store_challenges` keep nothing, so the model creates challenges without storing them.
- `init_token_contract`, `get_token_balance` and `get_total_staked` are not modelled: they deploy an external contract or forward a balance query. `record_token_interaction` drops its interaction record and only stamps `LastGlobalUpdate`, which `Token.StakeTokens` models.
- The keys `Contract(u128)`, `OperatorHash`, `StateRoot` and `VerificationProof(u128)` of src/state.rs have no field in `Store.State`: no modelled entrypoint reads or writes them.
- The attestation check is modelled after the three-parameter stub `verify_attestation_report` in src/core/utils.rs:13-20, as an oracle over the report and the signature. The call in `register_executor` (src/core/executor.rs:22-28) passes the declared kind as one more argument, which the stub does not take. So the model's attestation verdict cannot depend on the declared kind.
- Fixed-width integers: counters, timestamps, amounts and ids are unbounded `nat`s. `u64` overflow of `execution_count`, `failed_attempts`, `challenges_responded` and `timestamp + CHALLENGE_TIMEOUT` is not modelled. Ids are bounded by `2^128` only where their bytes are encoded.
- Logging (`wasmlanche::dbg!`) and the metrics modules are not modelled.
- Executor replacement, attestation renewal and Keep pause and resume appear only in tests, with no implementation, and are not modelled.
- Challenge expiry is not modelled: the `Expired` status is never written by the code, and `System.Inv` proves that no stored challenge has it.
- The duplicate `Challenge` type in src/challenge/types.rs and the governance forwarder in src/external/governance.rs are not part of this model.

## Findings

| source | as written | input that shows it | evidently intended | confidence | as-written member | corrected member |
|---|---|---|---|---|---|---|
| src/execution/mod.rs:40-42 | each submission overwrites the single `ExecutionResult(id)` record, and `get_executor_result` returns it only for the record's own kind, so the SGX and SEV results are never both present and an execution is never verified nor found mismatched | SGX executor submits hash `[1; 32]` for id 1, then SEV executor submits `[1; 32]` for id 1: id 1 stays pending and unverified | one result kept per kind; matching hashes verify the id and clear it from the pending list, as the module's tests expect | not executed | ExecutionAsWritten.MatchingScenarioStaysPending | Execution.MatchingPairVerifies |
