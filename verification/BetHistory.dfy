// What the list of calls alone says about the contract: who decided the result, which bets
// count, and which withdrawals were paid, without looking at any state in between.
module BetHistory {
  import opened Common
  import opened MapSums
  import opened BetLedger
  import BetTheorems

  // ----- the calls that count -----

  predicate OneAction(ctx: Context, token: TokenUid) {
    ctx.actions.Keys == {token} && |ctx.actions[token]| == 1
  }

  /** A single deposit of the contract's token, in time. */
  predicate IsBet(token: TokenUid, dateLastBet: nat, call: Call) {
    && call.PlaceBet? && OneAction(call.betCtx, token)
    && call.betCtx.actions[token][0].Deposit? && call.betCtx.actions[token][0].token == token
    && call.betCtx.timestamp <= dateLastBet
  }

  /** A result that the oracle has signed. */
  predicate IsVerdict(script: Script, call: Call) {
    call.SetResult? && script in call.signed.signedFor
  }

  /** A single withdrawal of the contract's token by this address. */
  predicate IsDrawBy(token: TokenUid, call: Call, a: Address) {
    && call.Withdraw? && OneAction(call.drawCtx, token)
    && call.drawCtx.actions[token][0].Withdrawal? && call.drawCtx.actions[token][0].token == token
    && call.drawCtx.caller == Some(a)
  }

  /** The first result the oracle has signed. */
  function Verdict(script: Script, calls: seq<Call>): Option<Score> {
    if calls == [] then None
    else if IsVerdict(script, calls[0]) then Some(calls[0].signed.data)
    else Verdict(script, calls[1..])
  }

  function AfterVerdict(script: Script, calls: seq<Call>): seq<Call> {
    if calls == [] then [] else if IsVerdict(script, calls[0]) then calls[1..] else AfterVerdict(script, calls[1..])
  }

  predicate BetsOn(token: TokenUid, dateLastBet: nat, call: Call, key: (Score, Address)) {
    IsBet(token, dateLastBet, call) && (call.score, call.address) == key
  }

  /** What was staked on a key by bets before the verdict. */
  function StakedInTime(script: Script, token: TokenUid, dateLastBet: nat, calls: seq<Call>, key: (Score, Address)): nat {
    if calls == [] || IsVerdict(script, calls[0]) then 0
    else
      var rest := StakedInTime(script, token, dateLastBet, calls[1..], key);
      if BetsOn(token, dateLastBet, calls[0], key) then calls[0].betCtx.actions[token][0].amount + rest else rest
  }

  /** Whether there was such a bet at all, if only of nothing. */
  predicate BetInTime(script: Script, token: TokenUid, dateLastBet: nat, calls: seq<Call>, key: (Score, Address)) {
    && calls != [] && !IsVerdict(script, calls[0])
    && (BetsOn(token, dateLastBet, calls[0], key) || BetInTime(script, token, dateLastBet, calls[1..], key))
  }

  /** What an address gets when each of its withdrawals is paid that still fits under a cap. */
  function PaidOut(token: TokenUid, calls: seq<Call>, a: Address, cap: nat, paid: nat): nat {
    if calls == [] then paid
    else
      var more := if IsDrawBy(token, calls[0], a) then calls[0].drawCtx.actions[token][0].amount else 0;
      PaidOut(token, calls[1..], a, cap, if paid + more <= cap then paid + more else paid)
  }

  // ----- one call -----

  lemma OneKey<K, V>(m: map<K, V>, k: K)
    ensures |m| == 1 && k in m <==> m.Keys == {k}
  {
    assert |m| == |m.Keys|;
    if |m| == 1 && k in m {
      assert |m.Keys - {k}| == 0;
    }
  }

  lemma GetActionExactly(token: TokenUid, ctx: Context)
    ensures GetAction(token, ctx).Ok? <==> OneAction(ctx, token)
    ensures OneAction(ctx, token) ==> GetAction(token, ctx).value == ctx.actions[token][0]
  {
    OneKey(ctx.actions, token);
  }

  /** Before the result, only bets and verdicts are accepted. */
  lemma OpenStep(st: State, call: Call)
    requires st.finalResult.None?
    ensures Apply(st, call).Ok? <==> IsBet(st.tokenUid, st.dateLastBet, call) || IsVerdict(st.oracleScript, call)
    ensures IsBet(st.tokenUid, st.dateLastBet, call) ==>
              Step(st, call) == AddStake(st, call.address, call.score, call.betCtx.actions[st.tokenUid][0].amount)
    ensures IsVerdict(st.oracleScript, call) ==> Step(st, call) == st.(finalResult := Some(call.signed.data))
  {
    hide GetAction;
    if call.PlaceBet? {
      GetActionExactly(st.tokenUid, call.betCtx);
    } else if call.Withdraw? {
      GetActionExactly(st.tokenUid, call.drawCtx);
    }
  }

  /** After it, only withdrawals are, of those who still have that much to draw. */
  lemma ClosedStep(st: State, call: Call, a: Address)
    requires Invariant(st) && st.finalResult.Some?
    ensures var next, paid := Step(st, call), GetOr0(st.withdrawals, a);
            && BetTheorems.SameLedgers(st, next) && next.tokenUid == st.tokenUid
            && GetOr0(next.withdrawals, a) == PaidOut(st.tokenUid, [call], a, WinnerAmount(st, a), paid)
  {
    hide GetAction, WinnerAmount, Sum;
    if call.Withdraw? {
      GetActionExactly(st.tokenUid, call.drawCtx);
    }
    WithdrawnBelow(st, a);
  }

  lemma WithdrawnBelow(st: State, a: Address)
    requires Invariant(st) && st.finalResult.Some?
    ensures GetOr0(st.withdrawals, a) <= WinnerAmount(st, a)
  {}

  // ----- runs -----

  lemma {:induction false} ClosedRun(st: State, calls: seq<Call>, a: Address)
    requires Invariant(st) && st.finalResult.Some?
    ensures var end := Run(st, calls);
            && BetTheorems.SameLedgers(st, end)
            && GetOr0(end.withdrawals, a) == PaidOut(st.tokenUid, calls, a, WinnerAmount(st, a), GetOr0(st.withdrawals, a))
    decreases |calls|
  {
    hide GetOr0, Invariant, Step;
    if calls == [] {
    } else {
      ClosedStep(st, calls[0], a);
      StepKeepsInvariant(st, calls[0]);
      ClosedRun(Step(st, calls[0]), calls[1..], a);
    }
  }

  /** A call before the verdict that is not the verdict changes nothing but stakes. */
  lemma StillOpen(st: State, call: Call)
    requires st.finalResult.None? && !IsVerdict(st.oracleScript, call)
    ensures var next := Step(st, call);
            && next.finalResult.None? && next.withdrawals == st.withdrawals
            && next.oracleScript == st.oracleScript && next.tokenUid == st.tokenUid && next.dateLastBet == st.dateLastBet
  {
    hide Apply;
    OpenStep(st, call);
  }

  lemma StakeAdded(st: State, call: Call, key: (Score, Address))
    requires st.finalResult.None? && !IsVerdict(st.oracleScript, call)
    ensures var next, bets := Step(st, call), BetsOn(st.tokenUid, st.dateLastBet, call, key);
            && (key in next.betsAddress <==> key in st.betsAddress || bets)
            && GetOr0(next.betsAddress, key) == GetOr0(st.betsAddress, key)
                                                + if bets then call.betCtx.actions[st.tokenUid][0].amount else 0
  {
    hide Apply;
    OpenStep(st, call);
  }

  lemma {:induction false} VerdictOfRun(st: State, calls: seq<Call>, a: Address)
    requires Invariant(st) && st.finalResult.None?
    ensures var end := Run(st, calls);
            && end.finalResult == Verdict(st.oracleScript, calls)
            && GetOr0(end.withdrawals, a)
               == if end.finalResult.None? then 0
                  else PaidOut(st.tokenUid, AfterVerdict(st.oracleScript, calls), a, WinnerAmount(end, a), 0)
    decreases |calls|
  {
    hide Sum, Step, GetOr0, WinnerAmount;
    NothingDrawn(st, a);
    if calls == [] {
    } else {
      var next := Step(st, calls[0]);
      StepKeepsInvariant(st, calls[0]);
      if IsVerdict(st.oracleScript, calls[0]) {
        VerdictStep(st, calls[0]);
        ClosedRun(next, calls[1..], a);
        SameWinnings(next, Run(next, calls[1..]), a);
      } else {
        StillOpen(st, calls[0]);
        VerdictOfRun(next, calls[1..], a);
      }
    }
  }

  lemma {:induction false} StakesOfRun(st: State, calls: seq<Call>, key: (Score, Address))
    requires st.finalResult.None?
    ensures var end := Run(st, calls);
            && (key in end.betsAddress <==>
                  key in st.betsAddress || BetInTime(st.oracleScript, st.tokenUid, st.dateLastBet, calls, key))
            && GetOr0(end.betsAddress, key) == GetOr0(st.betsAddress, key)
                 + StakedInTime(st.oracleScript, st.tokenUid, st.dateLastBet, calls, key)
    decreases |calls|
  {
    hide Step, GetOr0;
    if calls == [] {
    } else if IsVerdict(st.oracleScript, calls[0]) {
      VerdictStep(st, calls[0]);
      BetTheorems.ResultFreezesLedgers(Step(st, calls[0]), calls[1..]);
    } else {
      StillOpen(st, calls[0]);
      StakeAdded(st, calls[0], key);
      StakesOfRun(Step(st, calls[0]), calls[1..], key);
    }
  }

  lemma NothingDrawn(st: State, a: Address)
    requires Invariant(st) && st.finalResult.None?
    ensures GetOr0(st.withdrawals, a) == 0
  {}

  lemma SameWinnings(st: State, end: State, a: Address)
    requires st.finalResult.Some? && BetTheorems.SameLedgers(st, end)
    ensures WinnerAmount(end, a) == WinnerAmount(st, a)
  {}

  lemma VerdictStep(st: State, call: Call)
    requires st.finalResult.None? && IsVerdict(st.oracleScript, call)
    ensures Step(st, call) == st.(finalResult := Some(call.signed.data))
  {
    OpenStep(st, call);
  }

  /** The list of calls determines the stakes: those of all bets in time before the verdict. */
  lemma HistoryTellsStakes(script: Script, token: TokenUid, dateLastBet: nat, calls: seq<Call>, key: (Score, Address))
    ensures var st := Run(Initial(script, token, dateLastBet), calls);
            && (key in st.betsAddress <==> BetInTime(script, token, dateLastBet, calls, key))
            && GetOr0(st.betsAddress, key) == StakedInTime(script, token, dateLastBet, calls, key)
  {
    StakesOfRun(Initial(script, token, dateLastBet), calls, key);
  }

  /** It determines the result and every payout: an address gets each withdrawal that fits under what it won. */
  lemma HistoryTellsPayouts(script: Script, token: TokenUid, dateLastBet: nat, calls: seq<Call>, a: Address)
    ensures var st := Run(Initial(script, token, dateLastBet), calls);
            && st.finalResult == Verdict(script, calls)
            && GetOr0(st.withdrawals, a)
               == if st.finalResult.None? then 0
                  else PaidOut(token, AfterVerdict(script, calls), a, WinnerAmount(st, a), 0)
  {
    hide Sum, WinnerAmount, GetOr0;
    var st := Initial(script, token, dateLastBet);
    ReachableInvariant(script, token, dateLastBet, []);
    assert Run(st, []) == st;
    VerdictOfRun(st, calls, a);
  }

  // ----- the oracle -----

  lemma {:induction false} VerdictIsSigned(script: Script, calls: seq<Call>)
    ensures Verdict(script, calls).Some? <==> exists i :: 0 <= i < |calls| && IsVerdict(script, calls[i])
    ensures Verdict(script, calls).Some? ==>
              exists i :: 0 <= i < |calls| && IsVerdict(script, calls[i])
                          && calls[i].signed.data == Verdict(script, calls).value
  {
    if calls == [] {
    } else if IsVerdict(script, calls[0]) {
    } else {
      VerdictIsSigned(script, calls[1..]);
      forall i | 0 <= i < |calls| && IsVerdict(script, calls[i])
        ensures Verdict(script, calls).Some?
      {
        assert calls[1..][i - 1] == calls[i];
      }
    }
  }

  /** There is a result exactly if the oracle signed one, it is one of those, and without it nobody is paid. */
  lemma OnlyTheOracleDecides(script: Script, token: TokenUid, dateLastBet: nat, calls: seq<Call>, a: Address)
    ensures var st := Run(Initial(script, token, dateLastBet), calls);
            && (st.finalResult.Some? <==> exists i :: 0 <= i < |calls| && IsVerdict(script, calls[i]))
            && (st.finalResult.Some? ==> exists i :: 0 <= i < |calls| && IsVerdict(script, calls[i])
                                                     && calls[i].signed.data == st.finalResult.value)
            && (st.finalResult.None? ==> GetOr0(st.withdrawals, a) == 0)
  {
    hide Run, Verdict, PaidOut, AfterVerdict, WinnerAmount;
    VerdictIsSigned(script, calls);
    HistoryTellsPayouts(script, token, dateLastBet, calls, a);
  }

  // ----- what each error says -----

  /** Why a bet is refused, in the order of the checks. */
  lemma BetErrors(st: State, ctx: Context, address: Address, score: Score)
    ensures var r, call := Apply(st, PlaceBet(ctx, address, score)), PlaceBet(ctx, address, score);
            && (r.Ok? <==> IsBet(st.tokenUid, st.dateLastBet, call) && st.finalResult.None?)
            && (r == Fail(TooManyActions) <==> |ctx.actions| != 1)
            && (r == Fail(NotSingleAction) <==> ctx.actions.Keys == {st.tokenUid} && !OneAction(ctx, st.tokenUid))
            && (r == Fail(AssertionFailed) <==> OneAction(ctx, st.tokenUid) && ctx.actions[st.tokenUid][0].Withdrawal?)
            && (r == Fail(ResultAlreadySet) <==>
                  OneAction(ctx, st.tokenUid) && ctx.actions[st.tokenUid][0].Deposit? && st.finalResult.Some?)
            && (r == Fail(TooLate) <==> IsBet(st.tokenUid, ctx.timestamp, call) && st.finalResult.None?
                                        && ctx.timestamp > st.dateLastBet)
            && (r.Fail? ==> r.error in {TooManyActions, NotSingleAction, AssertionFailed, ResultAlreadySet, TooLate,
                                        InvalidToken})
  {
    OneKey(ctx.actions, st.tokenUid);
  }

  /** Why a withdrawal is refused, in the order of the checks. */
  lemma DrawErrors(st: State, ctx: Context)
    ensures var r, one := Apply(st, Withdraw(ctx)), OneAction(ctx, st.tokenUid);
            var draws := one && ctx.actions[st.tokenUid][0].Withdrawal?;
            var due := draws && st.finalResult.Some? && ctx.actions[st.tokenUid][0].token == st.tokenUid;
            && (r.Ok? <==> due && ctx.caller.Some?
                           && GetOr0(st.withdrawals, ctx.caller.value) + ctx.actions[st.tokenUid][0].amount
                              <= WinnerAmount(st, ctx.caller.value))
            && (r == Fail(TooManyActions) <==> |ctx.actions| != 1)
            && (r == Fail(NotSingleAction) <==> ctx.actions.Keys == {st.tokenUid} && !one)
            && (r == Fail(AssertionFailed) <==> (one && !draws) || (due && ctx.caller.None?))
            && (r == Fail(ResultNotAvailable) <==> draws && st.finalResult.None?)
            && (r.Fail? && r.error.InsufficientBalance? <==> due && ctx.caller.Some? && !r.Ok?)
            && (r.Fail? && r.error.InsufficientBalance? ==>
                  r.error.allowed == WinnerAmount(st, ctx.caller.value) - GetOr0(st.withdrawals, ctx.caller.value))
            && (r.Fail? && !r.error.InsufficientBalance? ==>
                  r.error in {TooManyActions, NotSingleAction, AssertionFailed, ResultNotAvailable, InvalidToken})
  {
    hide WinnerAmount;
    OneKey(ctx.actions, st.tokenUid);
  }

  /** Why a result is refused. */
  lemma VerdictErrors(st: State, signed: SignedResult)
    ensures var r := Apply(st, SetResult(signed));
            && (r.Ok? <==> st.finalResult.None? && IsVerdict(st.oracleScript, SetResult(signed)))
            && (r.Fail? ==> r.error == if st.finalResult.Some? then ResultAlreadySet else InvalidOracleSignature)
  {}
}
