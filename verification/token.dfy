/** Staking and rewards (src/external/token.rs). The token ledger is an
    external contract: the balances it reports are inputs, and the calls
    the contract makes to it are returned as a list of `TokenCall`s rather
    than executed. */
module Token {
  import opened Types
  import opened Store

  /** A call into the token contract. */
  datatype TokenCall =
    | TransferFrom(from: Address, to: Address, amount: nat)
    | Transfer(to: Address, amount: nat)

  /** The stake `has_minimum_stake` asks of either executor kind. */
  const MIN_STAKE: nat := 1000

  /** The token contract's address, which must have been stored. */
  function TokenContext(s: State): (r: Result<Address>)
    ensures r.Ok? <==> s.tokenContract.Some?
    ensures r.Ok? ==> r.value == s.tokenContract.value
    ensures r.Err? ==> r.error == TokenContractMissing
  {
    if s.tokenContract.None? then Err(TokenContractMissing) else Ok(s.tokenContract.value)
  }

  /** `stake_tokens`: only an executor or a registered watchdog may stake;
      `amount` moves from the caller to this contract (`self`), and the
      global stamp is updated. */
  function StakeTokens(s: State, host: Host, self: Address, amount: nat): (r: Result<(State, seq<TokenCall>)>)
    ensures r.Ok? <==>
      && Initialized(s) && s.executorPool.Some? && s.watchdogPool.Some?
      && (IsExecutor(s.executorPool.value, host.caller)
          || IsWatchdog(s.watchdogPool.value.watchdogs, host.caller))
      && s.tokenContract.Some?
    ensures Initialized(s) && s.executorPool.Some? && s.watchdogPool.Some?
            && !IsExecutor(s.executorPool.value, host.caller)
            && !IsWatchdog(s.watchdogPool.value.watchdogs, host.caller) ==>
              r == Err(UnauthorizedStaker)
    ensures r.Ok? ==>
      && r.value.1 == [TransferFrom(host.caller, self, amount)]
      && r.value.0.lastGlobalUpdate == Some(host.timestamp)
      && r.value.0.(lastGlobalUpdate := s.lastGlobalUpdate) == s
  {
    var _ :- EnsureInitialized(s);
    if s.executorPool.None? then Err(ExecutorPoolMissing)
    else if s.watchdogPool.None? then Err(WatchdogPoolMissing)
    else if !(IsExecutor(s.executorPool.value, host.caller)
              || IsWatchdog(s.watchdogPool.value.watchdogs, host.caller)) then Err(UnauthorizedStaker)
    else
      var _ :- TokenContext(s);
      Ok((UpdateGlobalState(s, host.timestamp), [TransferFrom(host.caller, self, amount)]))
  }

  /** The sum of the amounts a list of calls moves. */
  function Total(calls: seq<TokenCall>): nat {
    if calls == [] then 0 else calls[0].amount + Total(calls[1..])
  }

  lemma {:induction false} TotalAppend(a: seq<TokenCall>, b: seq<TokenCall>)
    ensures Total(a + b) == Total(a) + Total(b)
  {
    if a == [] {
      assert a + b == b;
    } else {
      assert (a + b)[0] == a[0];
      assert (a + b)[1..] == a[1..] + b;
      TotalAppend(a[1..], b);
    }
  }

  /** One transfer of `each` to every listed watchdog, in list order. */
  function WatchdogPayouts(ws: seq<(Address, EnclaveType)>, each: nat): (calls: seq<TokenCall>)
    ensures |calls| == |ws|
    ensures forall i :: 0 <= i < |ws| ==> calls[i] == Transfer(ws[i].0, each)
  {
    if ws == [] then []
    else [Transfer(ws[0].0, each)] + WatchdogPayouts(ws[1..], each)
  }

  lemma {:induction false} WatchdogPayoutsTotal(ws: seq<(Address, EnclaveType)>, each: nat)
    ensures Total(WatchdogPayouts(ws, each)) == |ws| * each
  {
    if ws != [] {
      WatchdogPayoutsTotal(ws[1..], each);
      assert WatchdogPayouts(ws, each)[1..] == WatchdogPayouts(ws[1..], each);
    }
  }

  /** One transfer of `each` to each occupied executor slot, SGX first. */
  function ExecutorPayouts(p: ExecutorPool, each: nat): (calls: seq<TokenCall>)
    ensures |calls| <= 2
    ensures forall i :: 0 <= i < |calls| ==> calls[i].Transfer? && calls[i].amount == each
    ensures |calls| == (if p.sgxExecutor.Some? then 1 else 0) + (if p.sevExecutor.Some? then 1 else 0)
    ensures p.sgxExecutor.Some? ==> calls[0].to == p.sgxExecutor.value
    ensures p.sevExecutor.Some? ==> calls[|calls| - 1].to == p.sevExecutor.value
  {
    (if p.sgxExecutor.Some? then [Transfer(p.sgxExecutor.value, each)] else [])
      + (if p.sevExecutor.Some? then [Transfer(p.sevExecutor.value, each)] else [])
  }

  lemma {:induction false} ExecutorPayoutsTotal(p: ExecutorPool, each: nat)
    ensures Total(ExecutorPayouts(p, each)) <= 2 * each
  {
    var calls := ExecutorPayouts(p, each);
    if |calls| > 0 {
      var rest := calls[1..];
      if |rest| > 0 {
        assert |rest[1..]| == 0;
        assert Total(rest) == rest[0].amount + Total(rest[1..]);
      }
      assert Total(calls) == calls[0].amount + Total(rest);
    }
  }

  /** The transfers of one distribution: the executors' payouts of
      `(balance / 3) / 2` each, then, when there are watchdogs, a payout of
      `(balance / 3) / count` to each of them. */
  function Payouts(p: ExecutorPool, ws: seq<(Address, EnclaveType)>, balance: nat): (calls: seq<TokenCall>)
    ensures var ex := ExecutorPayouts(p, (balance / 3) / 2);
      && |ex| <= |calls|
      && calls[..|ex|] == ex
      && (|ws| == 0 ==> calls == ex)
      && (|ws| > 0 ==> calls[|ex|..] == WatchdogPayouts(ws, (balance / 3) / |ws|))
  {
    var ex := ExecutorPayouts(p, (balance / 3) / 2);
    if |ws| > 0 then
      var calls := ex + WatchdogPayouts(ws, (balance / 3) / |ws|);
      assert calls[..|ex|] == ex;
      calls
    else ex
  }

  /** `distribute_rewards`, in phase `Executing`, given the contract's
      token balance: a third of it is split between the two executor
      slots, half each, and another third evenly among the watchdogs;
      integer division rounds every share down, and with no watchdogs
      their third is not paid. The store is not written. */
  function DistributeRewards(s: State, balance: nat): (r: Result<seq<TokenCall>>)
    ensures r.Ok? <==>
      && Initialized(s) && PhaseOf(s) == Executing
      && s.executorPool.Some? && s.watchdogPool.Some? && s.tokenContract.Some?
    ensures Initialized(s) && PhaseOf(s) != Executing ==> r == Err(InvalidPhase(Executing, PhaseOf(s)))
    ensures r.Ok? ==> r.value == Payouts(s.executorPool.value, s.watchdogPool.value.watchdogs, balance)
  {
    var _ :- EnsureInitialized(s);
    var _ :- EnsurePhase(s, Executing);
    if s.executorPool.None? then Err(ExecutorPoolMissing)
    else if s.watchdogPool.None? then Err(WatchdogPoolMissing)
    else
      var _ :- TokenContext(s);
      Ok(Payouts(s.executorPool.value, s.watchdogPool.value.watchdogs, balance))
  }

  /** At least a third of the balance stays with the contract: the
      transfers add up to at most two thirds of it. */
  lemma RewardsKeepAThird(s: State, balance: nat)
    requires DistributeRewards(s, balance).Ok?
    ensures Total(DistributeRewards(s, balance).value) <= 2 * (balance / 3)
  {
    PayoutsKeepAThird(s.executorPool.value, s.watchdogPool.value.watchdogs, balance);
  }

  lemma PayoutsKeepAThird(p: ExecutorPool, ws: seq<(Address, EnclaveType)>, balance: nat)
    ensures Total(Payouts(p, ws, balance)) <= 2 * (balance / 3)
  {
    var third := balance / 3;
    var ex := ExecutorPayouts(p, third / 2);
    ExecutorPayoutsTotal(p, third / 2);
    assert 2 * (third / 2) <= third;
    if |ws| > 0 {
      var each := third / |ws|;
      var wd := WatchdogPayouts(ws, each);
      TotalAppend(ex, wd);
      WatchdogPayoutsTotal(ws, each);
      assert |ws| * each <= third by {
        assert third == |ws| * each + third % |ws|;
      }
      assert Payouts(p, ws, balance) == ex + wd;
    }
  }

  /** `has_minimum_stake`, given the address's token balance: false for an
      address with no recorded enclave type, otherwise whether the balance
      reaches `MIN_STAKE`. */
  function HasMinimumStake(s: State, address: Address, balance: nat): (r: Result<bool>)
    ensures r.Ok? <==> Initialized(s) && s.tokenContract.Some?
    ensures r.Ok? ==> (r.value <==> address in s.enclaveType && balance >= MIN_STAKE)
  {
    var _ :- EnsureInitialized(s);
    var _ :- TokenContext(s);
    if address !in s.enclaveType then Ok(false)
    else Ok(balance >= MIN_STAKE)
  }
}
