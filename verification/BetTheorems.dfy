// What every run of the betting contract guarantees.
module BetTheorems {
  import opened MapSums
  import opened BetLedger

  // ----- sums of floored shares -----

  function Share(stake: nat, pot: nat, whole: nat): (q: nat)
    requires whole > 0
    ensures 0 <= stake * pot - whole * q <= whole - 1
  {
    NatProduct(stake, pot);
    stake * pot / whole
  }

  lemma NatProduct(x: nat, y: nat)
    ensures x * y >= 0
  {}

  /** Every stake's share of the pot, each rounded down on its own. */
  ghost function Shares(m: map<Address, nat>, pot: nat, whole: nat): map<Address, nat>
    requires whole > 0
  {
    map a | a in m :: Share(m[a], pot, whole)
  }

  lemma Distribute(x: int, y: int, z: int)
    ensures (x + y) * z == x * z + y * z
  {}

  lemma ProductMonotone(x: int, y: int, z: nat)
    requires x <= y
    ensures x * z <= y * z
  {
    Distribute(y - x, x, z);
    NatProduct(y - x, z);
  }

  /** `paid` is the share of `staked`, short of at most one whole less a unit in each of `n` roundings. */
  ghost predicate NearShare(staked: nat, paid: nat, pot: nat, whole: nat, n: nat) {
    0 <= staked * pot - whole * paid <= n * (whole - 1)
  }

  lemma NoShares(pot: nat, whole: nat)
    ensures NearShare(0, 0, pot, whole, 0)
  {}

  lemma AddShare(stake: nat, others: nat, paid: nat, pot: nat, whole: nat, n: nat)
    requires whole > 0 && NearShare(others, paid, pot, whole, n)
    ensures NearShare(stake + others, Share(stake, pot, whole) + paid, pot, whole, n + 1)
  {
    Distribute(stake, others, pot);
    Distribute(Share(stake, pot, whole), paid, whole);
    Distribute(n, 1, whole - 1);
  }

  lemma SharesWithout(m: map<Address, nat>, pot: nat, whole: nat, a: Address)
    requires whole > 0 && a in m
    ensures Sum(m) == m[a] + Sum(m - {a})
    ensures Sum(Shares(m, pot, whole)) == Share(m[a], pot, whole) + Sum(Shares(m - {a}, pot, whole))
    ensures |m - {a}| == |m| - 1
  {
    hide Share, Sum;
    SumRemove(m, a);
    SumRemove(Shares(m, pot, whole), a);
    assert Shares(m - {a}, pot, whole) == Shares(m, pot, whole) - {a};
    assert (m - {a}).Keys == m.Keys - {a};
  }

  lemma {:induction false} SharesBounds(m: map<Address, nat>, pot: nat, whole: nat)
    requires whole > 0
    ensures NearShare(Sum(m), Sum(Shares(m, pot, whole)), pot, whole, |m|)
    decreases |m|
  {
    hide Sum, Share, NearShare;
    if |m| == 0 {
      assert Shares(m, pot, whole) == map[] == m;
      EmptySum();
      NoShares(pot, whole);
    } else {
      var a := AnyKey(m);
      SharesWithout(m, pot, whole, a);
      SharesBounds(m - {a}, pot, whole);
      AddShare(m[a], Sum(m - {a}), Sum(Shares(m - {a}, pot, whole)), pot, whole, |m - {a}|);
    }
  }

  lemma EmptySum()
    ensures Sum<Address>(map[]) == 0
  {}

  lemma DustArithmetic(pot: nat, paid: nat, whole: nat, n: nat)
    requires whole > 0 && NearShare(whole, paid, pot, whole, n)
    ensures 0 <= pot - paid && (n > 0 ==> pot - paid < n)
  {
    var dust := pot - paid;
    Distribute(dust, paid, whole);
    if dust < 0 {
      ProductMonotone(dust, -1, whole);
    } else if dust >= n {
      ProductMonotone(n, dust, whole);
      Distribute(whole - 1, 1, n);
    }
  }

  /** When the stakes add up to the whole, the shares lose less than one unit a stake. */
  lemma SharesOfWhole(m: map<Address, nat>, pot: nat, whole: nat)
    requires whole == Sum(m) > 0
    ensures 0 <= pot - Sum(Shares(m, pot, whole)) < |m|
  {
    SharesBounds(m, pot, whole);
    DustArithmetic(pot, Sum(Shares(m, pot, whole)), whole, |m|);
  }

  // ----- solvency and dust -----

  /** What every address that bet on the final result has won. */
  ghost function WinnerAmounts(st: State): map<Address, nat>
    requires st.finalResult.Some?
  {
    map a | a in OnScore(st.betsAddress, st.finalResult.value) :: WinnerAmount(st, a)
  }

  lemma WinnersPaidFromPot(st: State)
    requires Invariant(st) && st.finalResult.Some?
    ensures Sum(WinnerAmounts(st)) <= st.total
    ensures var won := GetOr0(st.betsTotal, st.finalResult.value);
            if won > 0 then st.total - Sum(WinnerAmounts(st)) < |WinnerAmounts(st)|
            else Sum(WinnerAmounts(st)) == 0
  {
    hide Sum;
    var result := st.finalResult.value;
    var stakes := OnScore(st.betsAddress, result);
    var won := GetOr0(st.betsTotal, result);
    TotalOf(st.betsAddress, result);
    if won > 0 {
      assert WinnerAmounts(st) == Shares(stakes, st.total, won);
      SharesOfWhole(stakes, st.total, won);
      assert WinnerAmounts(st).Keys == stakes.Keys;
    } else {
      SumBelow(WinnerAmounts(st), map[]);
      assert Sum<Address>(map[]) == 0 by { EmptySum(); }
    }
  }

  lemma WithdrawalsBelowWinnings(st: State)
    requires Invariant(st) && st.finalResult.Some?
    ensures Sum(st.withdrawals) <= Sum(WinnerAmounts(st))
  {
    hide Sum;
    forall a | a in st.withdrawals
      ensures st.withdrawals[a] <= GetOr0(WinnerAmounts(st), a)
    {
      if (st.finalResult.value, a) in st.betsAddress {
        assert a in OnScore(st.betsAddress, st.finalResult.value);
      } else {
        NoStakeNoWin(st, a);
      }
    }
    SumBelow(st.withdrawals, WinnerAmounts(st));
  }

  lemma NoStakeNoWin(st: State, a: Address)
    requires st.finalResult.Some? && GetOr0(st.betsAddress, (st.finalResult.value, a)) == 0
    ensures WinnerAmount(st, a) == 0
  {}

  /** No run overdraws: nobody takes more than their winnings, and the balance covers everybody. */
  lemma Solvency(script: Script, token: TokenUid, dateLastBet: nat, calls: seq<Call>)
    ensures var st := Run(Initial(script, token, dateLastBet), calls);
            && 0 <= st.balance == st.total - Sum(st.withdrawals)
            && (st.finalResult.Some? ==>
                  && Sum(st.withdrawals) <= Sum(WinnerAmounts(st)) <= st.total
                  && forall a :: GetOr0(st.withdrawals, a) <= WinnerAmount(st, a))
  {
    hide Sum;
    var st := Run(Initial(script, token, dateLastBet), calls);
    ReachableInvariant(script, token, dateLastBet, calls);
    if st.finalResult.Some? {
      WinnersPaidFromPot(st);
      WithdrawalsBelowWinnings(st);
    } else {
      EmptySum();
    }
  }

  /** The total exceeds what the winners are owed by less than one unit for each winner. */
  lemma DustBound(script: Script, token: TokenUid, dateLastBet: nat, calls: seq<Call>)
    ensures var st := Run(Initial(script, token, dateLastBet), calls);
            st.finalResult.Some? && GetOr0(st.betsTotal, st.finalResult.value) > 0 ==>
              0 <= st.total - Sum(WinnerAmounts(st)) < |OnScore(st.betsAddress, st.finalResult.value)|
  {
    hide Sum;
    var st := Run(Initial(script, token, dateLastBet), calls);
    ReachableInvariant(script, token, dateLastBet, calls);
    if st.finalResult.Some? {
      WinnersPaidFromPot(st);
      assert WinnerAmounts(st).Keys == OnScore(st.betsAddress, st.finalResult.value).Keys;
    }
  }

  /** And once nobody can draw any more, that is what the contract has left. */
  lemma PotAfterPayout(script: Script, token: TokenUid, dateLastBet: nat, calls: seq<Call>)
    ensures var st := Run(Initial(script, token, dateLastBet), calls);
            st.finalResult.Some? && (forall a :: MaxWithdrawal(st, a) == 0) ==>
              && st.balance == st.total - Sum(WinnerAmounts(st))
              && (GetOr0(st.betsTotal, st.finalResult.value) > 0 ==>
                    0 <= st.balance < |OnScore(st.betsAddress, st.finalResult.value)|)
  {
    hide Sum, Run;
    var st := Run(Initial(script, token, dateLastBet), calls);
    ReachableInvariant(script, token, dateLastBet, calls);
    DustBound(script, token, dateLastBet, calls);
    if st.finalResult.Some? && forall a :: MaxWithdrawal(st, a) == 0 {
      WithdrawalsBelowWinnings(st);
      forall a | a in WinnerAmounts(st)
        ensures WinnerAmounts(st)[a] <= GetOr0(st.withdrawals, a)
      {
        assert MaxWithdrawal(st, a) == 0;
      }
      SumBelow(WinnerAmounts(st), st.withdrawals);
    }
  }

  // ----- everybody's share -----

  /** The part of the pot that a stake stands for in the whole, rounded down; nothing of nothing. */
  predicate IsShareOf(amount: int, stake: nat, pot: nat, whole: nat) {
    if whole == 0 then amount == 0 else 0 <= stake * pot - whole * amount < whole
  }

  lemma WinnerAmountIsShare(st: State, a: Address)
    requires st.finalResult.Some?
    ensures IsShareOf(WinnerAmount(st, a), GetOr0(st.betsAddress, (st.finalResult.value, a)), st.total,
                      GetOr0(st.betsTotal, st.finalResult.value))
  {
    var stake := GetOr0(st.betsAddress, (st.finalResult.value, a));
    var won := GetOr0(st.betsTotal, st.finalResult.value);
    if won > 0 {
      assert WinnerAmount(st, a) == Share(stake, st.total, won);
    }
  }

  /** Winners share the total in proportion to their stakes on the result. */
  lemma WinnersPaidInProportion(script: Script, token: TokenUid, dateLastBet: nat, calls: seq<Call>, a: Address)
    ensures var st := Run(Initial(script, token, dateLastBet), calls);
            st.finalResult.Some? ==>
              IsShareOf(WinnerAmount(st, a), GetOr0(st.betsAddress, (st.finalResult.value, a)), st.total,
                        Sum(OnScore(st.betsAddress, st.finalResult.value)))
  {
    hide Sum, WinnerAmount, IsShareOf, Run;
    var st := Run(Initial(script, token, dateLastBet), calls);
    ReachableInvariant(script, token, dateLastBet, calls);
    if st.finalResult.Some? {
      TotalOf(st.betsAddress, st.finalResult.value);
      WinnerAmountIsShare(st, a);
    }
  }

  // ----- freeze and fairness -----

  ghost predicate SameLedgers(st: State, next: State) {
    && next.finalResult == st.finalResult
    && next.total == st.total
    && next.betsTotal == st.betsTotal
    && next.betsAddress == st.betsAddress
    && next.addressDetails == st.addressDetails
  }

  /** Once a result is set, nothing but withdrawals ever changes. */
  lemma {:induction false} ResultFreezesLedgers(st: State, calls: seq<Call>)
    requires st.finalResult.Some?
    ensures SameLedgers(st, Run(st, calls))
    ensures forall a :: WinnerAmount(Run(st, calls), a) == WinnerAmount(st, a)
    decreases |calls|
  {
    if calls == [] {
    } else {
      ResultFreezesLedgers(Step(st, calls[0]), calls[1..]);
    }
  }

  lemma OneStakeBelowTotal(st: State, score: Score, a: Address)
    requires LedgersAgree(st) && (score, a) in st.betsAddress
    ensures score in st.betsTotal
    ensures st.betsAddress[(score, a)] <= st.betsTotal[score] <= st.total
  {
    hide Sum;
    assert a in OnScore(st.betsAddress, score);
    SumSplit(OnScore(st.betsAddress, score), a);
    SumSplit(st.betsTotal, score);
  }

  /** A winner is owed at least the stake, and a run after the result does not change that. */
  lemma WinnersRecoverStake(script: Script, token: TokenUid, dateLastBet: nat, calls: seq<Call>, later: seq<Call>, a: Address)
    ensures var st := Run(Initial(script, token, dateLastBet), calls);
            var end := Run(st, later);
            st.finalResult.Some? ==>
              && end.finalResult == st.finalResult
              && GetOr0(st.betsAddress, (st.finalResult.value, a)) <= WinnerAmount(end, a)
  {
    var st := Run(Initial(script, token, dateLastBet), calls);
    ReachableInvariant(script, token, dateLastBet, calls);
    if st.finalResult.Some? {
      ResultFreezesLedgers(st, later);
      var score := st.finalResult.value;
      if (score, a) in st.betsAddress {
        OneStakeBelowTotal(st, score, a);
        var stake, won := st.betsAddress[(score, a)], st.betsTotal[score];
        if won > 0 {
          ShareAtLeastStake(stake, st.total, won);
        }
      }
    }
  }

  lemma ShareAtLeastStake(stake: nat, pot: nat, whole: nat)
    requires 0 < whole <= pot
    ensures stake <= stake * pot / whole
  {
    var q := Share(stake, pot, whole);
    ProductMonotone(whole, pot, stake);
    if q < stake {
      ProductMonotone(q, stake - 1, whole);
      Distribute(stake, -1, whole);
    }
  }
}
