// The parimutuel betting contract as a state machine on values: what each public
// call does to the contract's fields, and runs of calls.
module BetLedger {
  import opened Common
  import opened MapSums

  type Score(==, !new)
  type Address(==, !new)
  type TokenUid(==, !new)
  type Script(==, !new)
  type Stakes = map<(Score, Address), nat>

  datatype Action =
    | Deposit(token: TokenUid, amount: nat)
    | Withdrawal(token: TokenUid, amount: nat)

  /** What the runtime tells a call: its actions grouped by token, its caller, its block time. */
  datatype Context = Context(actions: map<TokenUid, seq<Action>>, caller: Option<Address>, timestamp: nat)

  /** A result signed by somebody; `signedFor` holds the scripts the signature satisfies. */
  datatype SignedResult = SignedResult(data: Score, signedFor: set<Script>) {
    predicate CheckSig(script: Script) { script in signedFor }
  }

  datatype Error =
    | NotSingleCall | TooManyActions | InvalidToken | NotSingleAction | AssertionFailed
    | ResultAlreadySet | ResultNotAvailable | TooLate | InvalidOracleSignature
    | InsufficientBalance(allowed: int)

  /** The contract's fields, and the balance the runtime keeps for it. */
  datatype State = State(
    oracleScript: Script,
    tokenUid: TokenUid,
    dateLastBet: nat,
    finalResult: Option<Score>,
    total: nat,
    betsTotal: map<Score, nat>,
    betsAddress: Stakes,
    addressDetails: map<Address, map<Score, nat>>,
    withdrawals: map<Address, nat>,
    balance: int)

  datatype Call =
    | PlaceBet(betCtx: Context, address: Address, score: Score)
    | SetResult(signed: SignedResult)
    | Withdraw(drawCtx: Context)

  function Initial(script: Script, token: TokenUid, dateLastBet: nat): State {
    State(script, token, dateLastBet, None, 0, map[], map[], map[], map[], 0)
  }

  // ----- the public calls -----

  function GetAction(tokenUid: TokenUid, ctx: Context): Outcome<Action, Error> {
    if |ctx.actions| != 1 then Fail(TooManyActions)
    else if tokenUid !in ctx.actions then Fail(InvalidToken)
    else if |ctx.actions[tokenUid]| != 1 then Fail(NotSingleAction)
    else Ok(ctx.actions[tokenUid][0])
  }

  /** The amount a call may stake, or the error it raises. */
  function BetAmount(st: State, ctx: Context): Outcome<nat, Error> {
    match GetAction(st.tokenUid, ctx)
    case Fail(e) => Fail(e)
    case Ok(action) =>
      if !action.Deposit? then Fail(AssertionFailed)
      else if st.finalResult.Some? then Fail(ResultAlreadySet)
      else if action.token != st.tokenUid then Fail(InvalidToken)
      else if ctx.timestamp > st.dateLastBet then Fail(TooLate)
      else Ok(action.amount)
  }

  function RecordBet(details: map<Address, map<Score, nat>>, address: Address, score: Score, staked: nat)
    : map<Address, map<Score, nat>>
  {
    var partial := if address in details then details[address] else map[];
    details[address := partial[score := staked]]
  }

  function AddStake(st: State, address: Address, score: Score, amount: nat): State {
    var stakes := AddTo(st.betsAddress, (score, address), amount);
    st.(total := st.total + amount,
        betsTotal := AddTo(st.betsTotal, score, amount),
        betsAddress := stakes,
        addressDetails := RecordBet(st.addressDetails, address, score, stakes[(score, address)]),
        balance := st.balance + amount)
  }

  function WinnerAmount(st: State, address: Address): nat
    requires st.finalResult.Some?
  {
    var result := st.finalResult.value;
    if result !in st.betsTotal then 0
    else if st.betsTotal[result] == 0 then 0
    else GetOr0(st.betsAddress, (result, address)) * st.total / st.betsTotal[result]
  }

  function MaxWithdrawal(st: State, address: Address): int
    requires st.finalResult.Some?
  {
    WinnerAmount(st, address) - GetOr0(st.withdrawals, address)
  }

  /** Who draws how much, or the error the call raises. */
  function Payment(st: State, ctx: Context): Outcome<(Address, nat), Error> {
    match GetAction(st.tokenUid, ctx)
    case Fail(e) => Fail(e)
    case Ok(action) =>
      if !action.Withdrawal? then Fail(AssertionFailed)
      else if st.finalResult.None? then Fail(ResultNotAvailable)
      else if action.token != st.tokenUid then Fail(InvalidToken)
      else if ctx.caller.None? then Fail(AssertionFailed)
      else if action.amount > MaxWithdrawal(st, ctx.caller.value)
        then Fail(InsufficientBalance(MaxWithdrawal(st, ctx.caller.value)))
      else Ok((ctx.caller.value, action.amount))
  }

  function Apply(st: State, call: Call): Outcome<State, Error> {
    match call
    case PlaceBet(ctx, address, score) =>
      (match BetAmount(st, ctx)
       case Fail(e) => Fail(e)
       case Ok(amount) => Ok(AddStake(st, address, score, amount)))
    case SetResult(signed) =>
      if st.finalResult.Some? then Fail(ResultAlreadySet)
      else if !signed.CheckSig(st.oracleScript) then Fail(InvalidOracleSignature)
      else Ok(st.(finalResult := Some(signed.data)))
    case Withdraw(ctx) =>
      (match Payment(st, ctx)
       case Fail(e) => Fail(e)
       case Ok((who, amount)) =>
         Ok(st.(withdrawals := AddTo(st.withdrawals, who, amount),
                balance := st.balance - amount)))
  }

  /** A call that raises an error is rolled back by the runtime. */
  function Step(st: State, call: Call): State {
    match Apply(st, call)
    case Ok(next) => next
    case Fail(_) => st
  }

  function Run(st: State, calls: seq<Call>): State
    decreases |calls|
  {
    if calls == [] then st else Run(Step(st, calls[0]), calls[1..])
  }

  ghost predicate AllAccepted(st: State, calls: seq<Call>)
    decreases |calls|
  {
    calls == [] || (Apply(st, calls[0]).Ok? && AllAccepted(Step(st, calls[0]), calls[1..]))
  }

  // ----- the invariant of every run -----

  ghost function Scores(stakes: Stakes): set<Score> {
    set key | key in stakes :: key.0
  }

  ghost function Addresses(stakes: Stakes): set<Address> {
    set key | key in stakes :: key.1
  }

  /** The stakes on one score, by address. */
  ghost function OnScore(stakes: Stakes, score: Score): map<Address, nat> {
    map a | a in Addresses(stakes) && (score, a) in stakes :: stakes[(score, a)]
  }

  /** The stakes of one address, by score. */
  ghost function OfAddress(stakes: Stakes, address: Address): map<Score, nat> {
    map s | s in Scores(stakes) && (s, address) in stakes :: stakes[(s, address)]
  }

  ghost function TotalsOf(stakes: Stakes): map<Score, nat> {
    map s | s in Scores(stakes) :: Sum(OnScore(stakes, s))
  }

  ghost function DetailsOf(stakes: Stakes): map<Address, map<Score, nat>> {
    map a | a in Addresses(stakes) :: OfAddress(stakes, a)
  }

  /** The three other ledgers say what `betsAddress` says, on the same domain. */
  ghost predicate LedgersAgree(st: State) {
    && st.betsTotal == TotalsOf(st.betsAddress)
    && st.addressDetails == DetailsOf(st.betsAddress)
    && st.total == Sum(st.betsTotal)
  }

  ghost predicate PayoutsBounded(st: State) {
    && st.balance == st.total - Sum(st.withdrawals)
    && (st.finalResult.None? ==> st.withdrawals == map[])
    && (st.finalResult.Some? ==>
          forall a :: a in st.withdrawals ==> st.withdrawals[a] <= WinnerAmount(st, a))
  }

  ghost predicate Invariant(st: State) {
    LedgersAgree(st) && PayoutsBounded(st)
  }

  lemma KeysUpdate(stakes: Stakes, score: Score, address: Address, v: nat)
    ensures Scores(stakes[(score, address) := v]) == Scores(stakes) + {score}
    ensures Addresses(stakes[(score, address) := v]) == Addresses(stakes) + {address}
  {
    var after := stakes[(score, address) := v];
    assert (score, address) in after;
    forall key | key in stakes
      ensures key.0 in Scores(after) && key.1 in Addresses(after)
    {
      assert key in after;
    }
  }

  lemma OnScoreUpdate(stakes: Stakes, score: Score, address: Address, v: nat, s: Score)
    ensures OnScore(stakes[(score, address) := v], s)
         == if s == score then OnScore(stakes, s)[address := v] else OnScore(stakes, s)
  {
    KeysUpdate(stakes, score, address, v);
  }

  lemma OfAddressUpdate(stakes: Stakes, score: Score, address: Address, v: nat, a: Address)
    ensures OfAddress(stakes[(score, address) := v], a)
         == if a == address then OfAddress(stakes, a)[score := v] else OfAddress(stakes, a)
  {
    KeysUpdate(stakes, score, address, v);
  }

  /** The total of a score, also when nobody has bet on it. */
  lemma TotalOf(stakes: Stakes, score: Score)
    ensures GetOr0(TotalsOf(stakes), score) == Sum(OnScore(stakes, score))
  {
    if score !in Scores(stakes) {
      assert OnScore(stakes, score) == map[];
    }
  }

  lemma ScoreSumUpdate(stakes: Stakes, score: Score, address: Address, amount: nat, s: Score)
    ensures Sum(OnScore(AddTo(stakes, (score, address), amount), s))
         == Sum(OnScore(stakes, s)) + if s == score then amount else 0
  {
    hide Sum;
    OnScoreUpdate(stakes, score, address, GetOr0(stakes, (score, address)) + amount, s);
    if s == score {
      assert OnScore(AddTo(stakes, (score, address), amount), s) == AddTo(OnScore(stakes, s), address, amount);
      SumAddTo(OnScore(stakes, s), address, amount);
    }
  }

  lemma TotalsUpdate(stakes: Stakes, score: Score, address: Address, amount: nat)
    ensures TotalsOf(AddTo(stakes, (score, address), amount)) == AddTo(TotalsOf(stakes), score, amount)
  {
    hide Sum, OnScore;
    var after := AddTo(stakes, (score, address), amount);
    var totals := AddTo(TotalsOf(stakes), score, amount);
    assert Scores(after) == Scores(stakes) + {score} by {
      KeysUpdate(stakes, score, address, GetOr0(stakes, (score, address)) + amount);
    }
    forall s | s in Scores(after)
      ensures Sum(OnScore(after, s)) == totals[s]
    {
      ScoreSumUpdate(stakes, score, address, amount, s);
      TotalOf(stakes, s);
    }
    assert TotalsOf(after).Keys == totals.Keys;
  }

  lemma NoDetails(stakes: Stakes, address: Address)
    ensures address !in Addresses(stakes) ==> OfAddress(stakes, address) == map[]
  {}

  lemma DetailsUpdate(stakes: Stakes, score: Score, address: Address, amount: nat)
    ensures var after := AddTo(stakes, (score, address), amount);
            DetailsOf(after) == RecordBet(DetailsOf(stakes), address, score, after[(score, address)])
  {
    hide OfAddress, Addresses;
    var v := GetOr0(stakes, (score, address)) + amount;
    var after := AddTo(stakes, (score, address), amount);
    var recorded := RecordBet(DetailsOf(stakes), address, score, v);
    KeysUpdate(stakes, score, address, v);
    assert DetailsOf(after).Keys == recorded.Keys;
    NoDetails(stakes, address);
    forall a | a in Addresses(after)
      ensures OfAddress(after, a) == recorded[a]
    {
      OfAddressUpdate(stakes, score, address, v, a);
    }
  }

  lemma AddStakeKeepsLedgers(st: State, address: Address, score: Score, amount: nat)
    requires LedgersAgree(st)
    ensures LedgersAgree(AddStake(st, address, score, amount))
  {
    hide Sum;
    TotalsUpdate(st.betsAddress, score, address, amount);
    DetailsUpdate(st.betsAddress, score, address, amount);
    SumAddTo(st.betsTotal, score, amount);
  }

  lemma StepKeepsInvariant(st: State, call: Call)
    requires Invariant(st)
    ensures Invariant(Step(st, call))
  {
    hide Sum;
    match call
    case PlaceBet(ctx, address, score) =>
      if BetAmount(st, ctx).Ok? {
        AddStakeKeepsLedgers(st, address, score, BetAmount(st, ctx).value);
      }
    case SetResult(_) =>
    case Withdraw(ctx) =>
      if Payment(st, ctx).Ok? {
        var (who, amount) := Payment(st, ctx).value;
        SumAddTo(st.withdrawals, who, amount);
      }
  }

  lemma {:induction false} RunKeepsInvariant(st: State, calls: seq<Call>)
    requires Invariant(st)
    ensures Invariant(Run(st, calls))
    decreases |calls|
  {
    if calls == [] {
    } else {
      StepKeepsInvariant(st, calls[0]);
      RunKeepsInvariant(Step(st, calls[0]), calls[1..]);
    }
  }

  /** Ledger agreement and bounded payouts, in every state a new contract can reach. */
  lemma ReachableInvariant(script: Script, token: TokenUid, dateLastBet: nat, calls: seq<Call>)
    ensures Invariant(Run(Initial(script, token, dateLastBet), calls))
  {
    RunKeepsInvariant(Initial(script, token, dateLastBet), calls);
  }
}
