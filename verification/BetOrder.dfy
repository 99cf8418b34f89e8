// The order of calls: winners may draw in any order, and bets commute.
module BetOrder {
  import opened Common
  import opened MapSums
  import opened BetLedger

  // ----- payouts in any order -----

  /** A withdrawal request that only its amount can make fail. */
  predicate IsDraw(token: TokenUid, call: Call) {
    && call.Withdraw?
    && GetAction(token, call.drawCtx).Ok?
    && GetAction(token, call.drawCtx).value.Withdrawal?
    && GetAction(token, call.drawCtx).value.token == token
    && call.drawCtx.caller.Some?
  }

  function DrawnBy(token: TokenUid, call: Call, a: Address): nat {
    if IsDraw(token, call) && call.drawCtx.caller.value == a
    then GetAction(token, call.drawCtx).value.amount else 0
  }

  function Drawn(token: TokenUid, calls: seq<Call>, a: Address): nat {
    if calls == [] then 0 else DrawnBy(token, calls[0], a) + Drawn(token, calls[1..], a)
  }

  ghost predicate AllDraws(token: TokenUid, calls: seq<Call>) {
    forall i :: 0 <= i < |calls| ==> IsDraw(token, calls[i])
  }

  lemma MaximaNonNegative(st: State, a: Address)
    requires Invariant(st) && st.finalResult.Some?
    ensures MaxWithdrawal(st, a) >= 0
  {}

  lemma DrawStep(st: State, call: Call)
    requires st.finalResult.Some? && IsDraw(st.tokenUid, call)
    ensures var who := call.drawCtx.caller.value;
            Apply(st, call).Ok? <==> DrawnBy(st.tokenUid, call, who) <= MaxWithdrawal(st, who)
    ensures Apply(st, call).Ok? ==>
              var next := Step(st, call);
              && next.finalResult == st.finalResult && next.tokenUid == st.tokenUid
              && forall a :: MaxWithdrawal(next, a) == MaxWithdrawal(st, a) - DrawnBy(st.tokenUid, call, a)
  {}

  /** Any list of draws succeeds as a whole exactly when nobody asks for more than their maximum. */
  lemma {:induction false} AnyOrderPayout(st: State, calls: seq<Call>)
    requires Invariant(st) && st.finalResult.Some? && AllDraws(st.tokenUid, calls)
    ensures AllAccepted(st, calls) <==>
              forall a :: Drawn(st.tokenUid, calls, a) <= MaxWithdrawal(st, a)
    ensures AllAccepted(st, calls) ==>
              var end := Run(st, calls);
              && end.finalResult.Some?
              && forall a :: MaxWithdrawal(end, a) == MaxWithdrawal(st, a) - Drawn(st.tokenUid, calls, a)
    decreases |calls|
  {
    hide Sum;
    if calls == [] {
      forall a { MaximaNonNegative(st, a); }
    } else {
      var call, rest, token := calls[0], calls[1..], st.tokenUid;
      assert IsDraw(token, call);
      var who := call.drawCtx.caller.value;
      var next := Step(st, call);
      DrawStep(st, call);
      assert forall a :: Drawn(token, calls, a) == DrawnBy(token, call, a) + Drawn(token, rest, a);
      if Apply(st, call).Ok? {
        StepKeepsInvariant(st, call);
        assert AllDraws(token, rest);
        AnyOrderPayout(next, rest);
        assert forall a :: Drawn(token, rest, a) <= MaxWithdrawal(next, a)
                      <==> Drawn(token, calls, a) <= MaxWithdrawal(st, a);
      } else {
        assert Drawn(token, calls, who) > MaxWithdrawal(st, who);
      }
    }
  }

  /** Whatever the others do after the result, an address can still draw the same maximum. */
  lemma {:induction false} OthersKeepMaximum(st: State, calls: seq<Call>, a: Address)
    requires st.finalResult.Some?
    requires forall i :: 0 <= i < |calls| && calls[i].Withdraw? ==> calls[i].drawCtx.caller != Some(a)
    ensures Run(st, calls).finalResult.Some?
    ensures MaxWithdrawal(Run(st, calls), a) == MaxWithdrawal(st, a)
    decreases |calls|
  {
    if calls == [] {
    } else {
      var next := Step(st, calls[0]);
      assert calls[0].Withdraw? ==> calls[0].drawCtx.caller != Some(a);
      assert MaxWithdrawal(next, a) == MaxWithdrawal(st, a);
      OthersKeepMaximum(next, calls[1..], a);
    }
  }

  // ----- bets commute -----

  predicate AllBets(calls: seq<Call>) {
    forall i :: 0 <= i < |calls| ==> calls[i].PlaceBet?
  }

  function StakedBy(token: TokenUid, call: Call, key: (Score, Address)): nat {
    if call.PlaceBet? && (call.score, call.address) == key && GetAction(token, call.betCtx).Ok?
    then GetAction(token, call.betCtx).value.amount else 0
  }

  function Staked(token: TokenUid, calls: seq<Call>, key: (Score, Address)): nat {
    if calls == [] then 0 else StakedBy(token, calls[0], key) + Staked(token, calls[1..], key)
  }

  ghost function Keys(calls: seq<Call>): set<(Score, Address)> {
    set i | 0 <= i < |calls| && calls[i].PlaceBet? :: (calls[i].score, calls[i].address)
  }

  lemma {:induction false} RunOfBets(st: State, calls: seq<Call>)
    requires AllBets(calls) && AllAccepted(st, calls)
    ensures var end := Run(st, calls);
            && end == st.(total := end.total, betsTotal := end.betsTotal, betsAddress := end.betsAddress,
                          addressDetails := end.addressDetails, balance := end.balance)
            && end.betsAddress.Keys == st.betsAddress.Keys + Keys(calls)
            && forall key :: GetOr0(end.betsAddress, key)
                          == GetOr0(st.betsAddress, key) + Staked(st.tokenUid, calls, key)
    decreases |calls|
  {
    if calls == [] {
    } else {
      var next := Step(st, calls[0]);
      assert calls[0].PlaceBet?;
      var key := (calls[0].score, calls[0].address);
      assert next.betsAddress.Keys == st.betsAddress.Keys + {key};
      assert forall k :: GetOr0(next.betsAddress, k) == GetOr0(st.betsAddress, k) + StakedBy(st.tokenUid, calls[0], k);
      RunOfBets(next, calls[1..]);
      KeysOfRest(calls);
    }
  }

  lemma KeysOfRest(calls: seq<Call>)
    requires calls != [] && AllBets(calls)
    ensures Keys(calls) == {(calls[0].score, calls[0].address)} + Keys(calls[1..])
  {
    assert calls[0].PlaceBet?;
    forall key | key in Keys(calls)
      ensures key in {(calls[0].score, calls[0].address)} + Keys(calls[1..])
    {
      var i :| 0 <= i < |calls| && calls[i].PlaceBet? && key == (calls[i].score, calls[i].address);
      if i > 0 {
        assert calls[i] == calls[1..][i - 1];
      }
    }
    forall key | key in Keys(calls[1..])
      ensures key in Keys(calls)
    {
      var i :| 0 <= i < |calls[1..]| && calls[1..][i].PlaceBet? && key == (calls[1..][i].score, calls[1..][i].address);
      assert calls[i + 1] == calls[1..][i];
    }
  }

  ghost predicate SameStakes(st: State, one: seq<Call>, other: seq<Call>) {
    && st.betsAddress.Keys + Keys(one) == st.betsAddress.Keys + Keys(other)
    && forall key :: Staked(st.tokenUid, one, key) == Staked(st.tokenUid, other, key)
  }

  /** The stakes alone determine the other ledgers and the balance. */
  lemma StakesDetermineState(a: State, b: State)
    requires Invariant(a) && Invariant(b)
    requires a.oracleScript == b.oracleScript && a.tokenUid == b.tokenUid && a.dateLastBet == b.dateLastBet
    requires a.finalResult == b.finalResult && a.withdrawals == b.withdrawals
    requires a.betsAddress == b.betsAddress
    ensures a == b
  {}

  lemma SameEntries<K>(m: map<K, nat>, n: map<K, nat>)
    requires m.Keys == n.Keys && forall k :: GetOr0(m, k) == GetOr0(n, k)
    ensures m == n
  {
    forall k | k in m
      ensures m[k] == n[k]
    {
      assert GetOr0(m, k) == GetOr0(n, k);
    }
  }

  /** Two lists of accepted bets lead to the same state exactly when they stake the same on the same keys. */
  lemma BetsConfluent(st: State, one: seq<Call>, other: seq<Call>)
    requires Invariant(st)
    requires AllBets(one) && AllAccepted(st, one) && AllBets(other) && AllAccepted(st, other)
    ensures Run(st, one) == Run(st, other) <==> SameStakes(st, one, other)
  {
    hide Sum, Invariant, Run, AllAccepted, Keys, Staked;
    var a, b := Run(st, one), Run(st, other);
    RunOfBets(st, one);
    RunOfBets(st, other);
    if SameStakes(st, one, other) {
      SameEntries(a.betsAddress, b.betsAddress);
      RunKeepsInvariant(st, one);
      RunKeepsInvariant(st, other);
      StakesDetermineState(a, b);
    }
    if a == b {
      forall key
        ensures Staked(st.tokenUid, one, key) == Staked(st.tokenUid, other, key)
      {
        assert GetOr0(a.betsAddress, key) == GetOr0(b.betsAddress, key);
      }
    }
  }
}
