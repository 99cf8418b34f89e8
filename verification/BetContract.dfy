// The contract object: its methods update the fields in place, and each of them
// moves the whole snapshot exactly as BetLedger says.
module BetContract {
  import opened Common
  import opened MapSums
  import opened BetLedger
  import BetTheorems

  class Bet {
    var betsTotal: map<Score, nat>
    var betsAddress: map<(Score, Address), nat>
    var addressDetails: map<Address, map<Score, nat>>
    var withdrawals: map<Address, nat>
    var total: nat
    var finalResult: Option<Score>
    const oracleScript: Script
    const dateLastBet: nat
    const tokenUid: TokenUid

    /** What the runtime holds for the contract: deposits raise it, withdrawals lower it. */
    ghost var balance: int

    ghost function Snapshot(): State
      reads this
    {
      State(oracleScript, tokenUid, dateLastBet, finalResult, total,
            betsTotal, betsAddress, addressDetails, withdrawals, balance)
    }

    constructor (script: Script, token: TokenUid, lastBet: nat)
      ensures Snapshot() == Initial(script, token, lastBet)
    {
      oracleScript, tokenUid, dateLastBet := script, token, lastBet;
      finalResult, total := None, 0;
      betsTotal, betsAddress, addressDetails, withdrawals := map[], map[], map[], map[];
      balance := 0;
    }

    static method Initialize(ctx: Context, script: Script, token: TokenUid, lastBet: nat)
      returns (r: Outcome<Bet, Error>)
      ensures |ctx.actions| != 0 ==> r == Fail(NotSingleCall)
      ensures |ctx.actions| == 0 ==> r.Ok? && fresh(r.value) && r.value.Snapshot() == Initial(script, token, lastBet)
    {
      if |ctx.actions| != 0 {
        return Fail(NotSingleCall);
      }
      var bet := new Bet(script, token, lastBet);
      return Ok(bet);
    }

    ghost predicate Follows(before: State, call: Call, r: Outcome<(), Error>)
      reads this
    {
      match Apply(before, call)
      case Ok(after) => r.Ok? && Snapshot() == after
      case Fail(e) => r == Fail(e) && Snapshot() == before
    }

    method PlaceBet(ctx: Context, address: Address, score: Score) returns (r: Outcome<(), Error>)
      modifies this
      ensures Follows(old(Snapshot()), Call.PlaceBet(ctx, address, score), r)
    {
      hide GetAction;
      var action := GetAction(tokenUid, ctx);
      if action.Fail? {
        return Fail(action.error);
      }
      if !action.value.Deposit? {
        return Fail(AssertionFailed);
      }
      if finalResult.Some? {
        return Fail(ResultAlreadySet);
      }
      if action.value.token != tokenUid {
        return Fail(InvalidToken);
      }
      if ctx.timestamp > dateLastBet {
        return Fail(TooLate);
      }
      var amount := action.value.amount;
      total := total + amount;
      if score !in betsTotal {
        betsTotal := betsTotal[score := amount];
      } else {
        betsTotal := betsTotal[score := betsTotal[score] + amount];
      }
      assert betsTotal == AddTo(old(betsTotal), score, amount);
      var key := (score, address);
      if key !in betsAddress {
        betsAddress := betsAddress[key := amount];
      } else {
        betsAddress := betsAddress[key := betsAddress[key] + amount];
      }
      assert betsAddress == AddTo(old(betsAddress), key, amount);
      var partial := if address in addressDetails then addressDetails[address] else map[];
      partial := partial[score := betsAddress[key]];
      addressDetails := addressDetails[address := partial];
      balance := balance + amount;
      assert addressDetails == RecordBet(old(addressDetails), address, score, betsAddress[key]);
      assert Snapshot() == AddStake(old(Snapshot()), address, score, amount);
      return Ok(());
    }

    method SetResult(result: SignedResult) returns (r: Outcome<(), Error>)
      modifies this
      ensures Follows(old(Snapshot()), Call.SetResult(result), r)
    {
      if finalResult.Some? {
        return Fail(ResultAlreadySet);
      }
      if !result.CheckSig(oracleScript) {
        return Fail(InvalidOracleSignature);
      }
      finalResult := Some(result.data);
      return Ok(());
    }

    method GetWinnerAmount(address: Address) returns (r: Outcome<nat, Error>)
      ensures r == if finalResult.None? then Fail(ResultNotAvailable) else Ok(WinnerAmount(Snapshot(), address))
      // That is the share of the total which the stake has of all stakes on the result.
      ensures r.Ok? ==>
                BetTheorems.IsShareOf(r.value, GetOr0(betsAddress, (finalResult.value, address)), total,
                                      GetOr0(betsTotal, finalResult.value))
    {
      if finalResult.Some? {
        BetTheorems.WinnerAmountIsShare(Snapshot(), address);
      }
      if finalResult.None? {
        return Fail(ResultNotAvailable);
      }
      if finalResult.value !in betsTotal {
        return Ok(0);
      }
      var resultTotal := betsTotal[finalResult.value];
      if resultTotal == 0 {
        return Ok(0);
      }
      var addressTotal := GetOr0(betsAddress, (finalResult.value, address));
      var amount := addressTotal * total / resultTotal;
      assert amount == WinnerAmount(Snapshot(), address);
      return Ok(amount);
    }

    method GetMaxWithdrawal(address: Address) returns (r: Outcome<int, Error>)
      ensures r == if finalResult.None? then Fail(ResultNotAvailable) else Ok(MaxWithdrawal(Snapshot(), address))
      // That is the share not yet withdrawn.
      ensures r.Ok? ==>
                BetTheorems.IsShareOf(r.value + GetOr0(withdrawals, address),
                                      GetOr0(betsAddress, (finalResult.value, address)), total,
                                      GetOr0(betsTotal, finalResult.value))
    {
      var won := GetWinnerAmount(address);
      if won.Fail? {
        return Fail(won.error);
      }
      return Ok(won.value - GetOr0(withdrawals, address));
    }

    method Withdraw(ctx: Context) returns (r: Outcome<(), Error>)
      modifies this
      ensures Follows(old(Snapshot()), Call.Withdraw(ctx), r)
    {
      var action := GetAction(tokenUid, ctx);
      if action.Fail? {
        return Fail(action.error);
      }
      if !action.value.Withdrawal? {
        return Fail(AssertionFailed);
      }
      if finalResult.None? {
        return Fail(ResultNotAvailable);
      }
      if action.value.token != tokenUid {
        return Fail(InvalidToken);
      }
      if ctx.caller.None? {
        return Fail(AssertionFailed);
      }
      var address := ctx.caller.value;
      var allowed := GetMaxWithdrawal(address);
      if action.value.amount > allowed.value {
        return Fail(InsufficientBalance(allowed.value));
      }
      if address !in withdrawals {
        withdrawals := withdrawals[address := action.value.amount];
      } else {
        withdrawals := withdrawals[address := withdrawals[address] + action.value.amount];
      }
      balance := balance - action.value.amount;
      return Ok(());
    }
  }
}
