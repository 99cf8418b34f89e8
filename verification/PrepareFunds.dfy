// Preparing the inputs and outputs of a transaction: default the outputs' tokens,
// add up what each token needs, and fill that from a utxo query token by token.
module PrepareFunds {
  import opened Common
  import opened OutputNeeds
  import opened UtxoSelection

  datatype PreparedInput = PreparedInput(txId: TxId, index: nat)

  /** An input of the request: a query, or the hash and index of a utxo. */
  datatype RequestInput = RequestInput(isQuery: bool, query: Query, hash: TxId, index: nat)

  /** How filling the inputs ends. */
  datatype Filled = Success(inputs: seq<PreparedInput>) | Failure(token: TokenUid) | TypeError

  // ----- what a successful fill picked -----

  function QueryFor(query: Query, token: TokenUid): Query {
    query.(token := Some(token)).(onlyAvailableUtxos := true)
  }

  function Details(wallet: Wallet, query: Query, token: TokenUid): UtxosDetails {
    wallet.getUtxos(QueryFor(query, token))
  }

  /** A token can be filled when the wallet offers utxos, and says and shows that they are enough. */
  ghost predicate Fillable(wallet: Wallet, query: Query, token: TokenUid, amount: nat) {
    var d := Details(wallet, query, token);
    d.utxos != [] && d.totalAmountAvailable >= amount && Total(d.utxos) >= amount
  }

  ghost predicate Selected(wallet: Wallet, query: Query, order: seq<TokenUid>, amounts: map<TokenUid, nat>,
                           picks: seq<seq<Utxo>>) {
    && |picks| == |order|
    && forall i :: 0 <= i < |order| ==>
         order[i] in amounts && Answers(Details(wallet, query, order[i]), amounts[order[i]], Picked(picks[i]))
  }

  function InputOf(u: Utxo): PreparedInput {
    PreparedInput(u.txId, u.index)
  }

  function IdsOf(utxos: seq<Utxo>): seq<PreparedInput> {
    seq(|utxos|, i requires 0 <= i < |utxos| => InputOf(utxos[i]))
  }

  function InputsOf(picks: seq<seq<Utxo>>): seq<PreparedInput> {
    if picks == [] then [] else InputsOf(picks[..|picks| - 1]) + IdsOf(picks[|picks| - 1])
  }

  lemma IdsExact(utxos: seq<Utxo>, input: PreparedInput)
    ensures input in IdsOf(utxos) <==> exists j :: 0 <= j < |utxos| && InputOf(utxos[j]) == input
  {
    var ids := IdsOf(utxos);
    assert forall j :: 0 <= j < |utxos| ==> ids[j] == InputOf(utxos[j]);
  }

  /** Every input comes from a pick. */
  lemma {:induction false} PickOfInput(picks: seq<seq<Utxo>>, input: PreparedInput) returns (i: nat, j: nat)
    requires input in InputsOf(picks)
    ensures i < |picks| && j < |picks[i]| && InputOf(picks[i][j]) == input
  {
    hide IdsOf, InputOf;
    var before, last := picks[..|picks| - 1], picks[|picks| - 1];
    if input in IdsOf(last) {
      IdsExact(last, input);
      i, j := |picks| - 1, 0;
      j :| 0 <= j < |last| && InputOf(last[j]) == input;
    } else {
      i, j := PickOfInput(before, input);
    }
  }

  /** Every pick becomes an input. */
  lemma {:induction false} InputOfPick(picks: seq<seq<Utxo>>, i: nat, j: nat)
    requires i < |picks| && j < |picks[i]|
    ensures InputOf(picks[i][j]) in InputsOf(picks)
  {
    hide IdsOf, InputOf;
    if i == |picks| - 1 {
      IdsExact(picks[i], InputOf(picks[i][j]));
    } else {
      InputOfPick(picks[..|picks| - 1], i, j);
    }
  }

  // ----- the selector, token by token -----

  ghost predicate StoppedAt(wallet: Wallet, query: Query, order: seq<TokenUid>, amounts: map<TokenUid, nat>, n: nat) {
    && n < |order|
    && (forall i :: 0 <= i <= n ==> order[i] in amounts)
    && (forall i :: 0 <= i < n ==> Fillable(wallet, query, order[i], amounts[order[i]]))
    && !Fillable(wallet, query, order[n], amounts[order[n]])
  }

  /** Whether the wallet offers nothing while promising enough: reading the first utxo then fails. */
  ghost predicate NothingToRead(wallet: Wallet, query: Query, token: TokenUid, amount: nat) {
    var d := Details(wallet, query, token);
    d.utxos == [] && d.totalAmountAvailable >= amount
  }

  method FillInputs(wallet: Wallet, query: Query, order: seq<TokenUid>, amounts: map<TokenUid, nat>)
    returns (r: Filled, ghost picks: seq<seq<Utxo>>)
    requires forall t :: t in order ==> t in amounts
    ensures r.Success? <==> forall t :: t in order ==> Fillable(wallet, query, t, amounts[t])
    ensures r.Success? ==> Selected(wallet, query, order, amounts, picks) && r.inputs == InputsOf(picks)
    ensures !r.Success? ==>
              exists n: nat ::
                && StoppedAt(wallet, query, order, amounts, n)
                && r == if NothingToRead(wallet, query, order[n], amounts[order[n]]) then TypeError
                        else Failure(order[n])
  {
    hide Answers, Fillable, Selected, InputsOf, IdsOf;
    var preparedInputs: seq<PreparedInput> := [];
    picks := [];
    NothingSelected(wallet, query, amounts);
    assert order[..0] == [];
    for n := 0 to |order|
      invariant Selected(wallet, query, order[..n], amounts, picks)
      invariant preparedInputs == InputsOf(picks)
      invariant forall i :: 0 <= i < n ==> Fillable(wallet, query, order[i], amounts[order[i]])
    {
      var token := order[n];
      var queryOptions := query.(token := Some(token));
      var selection := GetUtxosToFillTx(wallet, amounts[token], queryOptions);
      FillableExactly(wallet, query, token, amounts[token], selection);
      if !selection.Picked? {
        assert StoppedAt(wallet, query, order, amounts, n);
        return if selection.Crashed? then TypeError else Failure(token), picks;
      }
      preparedInputs := PushInputs(preparedInputs, selection.utxos);
      OneMoreSelected(wallet, query, order[..n], amounts, picks, token, selection.utxos);
      picks := picks + [selection.utxos];
      assert order[..n + 1] == order[..n] + [token];
    }
    assert order[..|order|] == order;
    return Success(preparedInputs), picks;
  }

  lemma NothingSelected(wallet: Wallet, query: Query, amounts: map<TokenUid, nat>)
    ensures Selected(wallet, query, [], amounts, []) && InputsOf([]) == []
  {}

  lemma OneMoreSelected(wallet: Wallet, query: Query, order: seq<TokenUid>, amounts: map<TokenUid, nat>,
                        picks: seq<seq<Utxo>>, token: TokenUid, utxos: seq<Utxo>)
    requires Selected(wallet, query, order, amounts, picks)
    requires token in amounts && Answers(Details(wallet, query, token), amounts[token], Picked(utxos))
    ensures Selected(wallet, query, order + [token], amounts, picks + [utxos])
    ensures InputsOf(picks + [utxos]) == InputsOf(picks) + IdsOf(utxos)
  {
    hide Answers, IdsOf;
    assert (picks + [utxos])[..|picks|] == picks;
  }

  lemma FillableExactly(wallet: Wallet, query: Query, token: TokenUid, amount: nat, selection: Selection)
    requires Answers(Details(wallet, query, token), amount, selection)
    ensures Fillable(wallet, query, token, amount) <==> selection.Picked?
    ensures NothingToRead(wallet, query, token, amount) <==> selection.Crashed?
  {}

  method PushInputs(prepared: seq<PreparedInput>, utxos: seq<Utxo>) returns (preparedInputs: seq<PreparedInput>)
    ensures preparedInputs == prepared + IdsOf(utxos)
  {
    preparedInputs := prepared;
    for i := 0 to |utxos|
      invariant preparedInputs == prepared + IdsOf(utxos)[..i]
    {
      preparedInputs := preparedInputs + [PreparedInput(utxos[i].txId, utxos[i].index)];
    }
  }

  // ----- no input repeats -----

  ghost predicate DistinctIds(utxos: seq<Utxo>) {
    forall i, j :: 0 <= i < j < |utxos| ==> InputOf(utxos[i]) != InputOf(utxos[j])
  }

  /** The wallet lists every utxo once, and under one token only. */
  ghost predicate ListsOnce(wallet: Wallet, query: Query, order: seq<TokenUid>) {
    && (forall t :: t in order ==> DistinctIds(Details(wallet, query, t).utxos))
    && (forall t, t', u, u' :: t in order && t' in order && t != t'
          && u in Details(wallet, query, t).utxos && u' in Details(wallet, query, t').utxos
          ==> InputOf(u) != InputOf(u'))
  }

  ghost predicate Distinct<T>(s: seq<T>) {
    forall i, j :: 0 <= i < j < |s| ==> s[i] != s[j]
  }

  lemma {:induction false} AtMostOnce(utxos: seq<Utxo>, u: Utxo)
    requires DistinctIds(utxos)
    ensures multiset(utxos)[u] <= 1
  {
    if utxos == [] {
    } else {
      var rest := utxos[1..];
      assert utxos == [utxos[0]] + rest;
      AtMostOnce(rest, u);
      forall j | 0 <= j < |rest|
        ensures rest[j] != utxos[0]
      {
        assert InputOf(utxos[0]) != InputOf(utxos[j + 1]);
      }
    }
  }

  /** A selection from a list without repeated ids has no repeated ids either. */
  lemma SelectionDistinctIds(utxos: seq<Utxo>, picked: seq<Utxo>)
    requires DistinctIds(utxos) && multiset(picked) <= multiset(utxos)
    ensures DistinctIds(picked)
  {
    forall a, b | 0 <= a < b < |picked|
      ensures InputOf(picked[a]) != InputOf(picked[b])
    {
      var u, v := picked[a], picked[b];
      assert u in multiset(picked) && v in multiset(picked);
      assert u in multiset(utxos) && v in multiset(utxos);
      if u == v {
        assert picked == picked[..b] + [v] + picked[b + 1..];
        assert u in multiset(picked[..b]);
        assert multiset(picked)[u] >= 2;
        AtMostOnce(utxos, u);
      } else {
        var i :| 0 <= i < |utxos| && utxos[i] == u;
        var j :| 0 <= j < |utxos| && utxos[j] == v;
        assert InputOf(utxos[if i < j then i else j]) != InputOf(utxos[if i < j then j else i]);
      }
    }
  }

  lemma PickDistinctIds(wallet: Wallet, query: Query, order: seq<TokenUid>, amounts: map<TokenUid, nat>,
                        picks: seq<seq<Utxo>>, i: nat)
    requires Selected(wallet, query, order, amounts, picks) && ListsOnce(wallet, query, order)
    requires i < |picks|
    ensures DistinctIds(picks[i])
  {
    assert order[i] in order;
    SelectionDistinctIds(Details(wallet, query, order[i]).utxos, picks[i]);
  }

  lemma NoPickTwice(wallet: Wallet, query: Query, order: seq<TokenUid>, amounts: map<TokenUid, nat>,
                    picks: seq<seq<Utxo>>, n: nat, input: PreparedInput)
    requires Selected(wallet, query, order, amounts, picks) && ListsOnce(wallet, query, order) && Distinct(order)
    requires n < |picks| && input in InputsOf(picks[..n])
    ensures input !in IdsOf(picks[n])
  {
    hide Answers;
    var i, j := PickOfInput(picks[..n], input);
    PickOffered(wallet, query, order, amounts, picks, i, j);
    forall y | 0 <= y < |picks[n]|
      ensures InputOf(picks[n][y]) != input
    {
      PickOffered(wallet, query, order, amounts, picks, n, y);
      assert order[i] != order[n] && order[i] in order && order[n] in order;
    }
  }

  lemma {:induction false} InputsDistinct(wallet: Wallet, query: Query, order: seq<TokenUid>,
                                          amounts: map<TokenUid, nat>, picks: seq<seq<Utxo>>, n: nat)
    requires Selected(wallet, query, order, amounts, picks) && ListsOnce(wallet, query, order) && Distinct(order)
    requires n <= |picks|
    ensures Distinct(InputsOf(picks[..n]))
  {
    hide Answers;
    if n == 0 {
    } else {
      InputsDistinct(wallet, query, order, amounts, picks, n - 1);
      var before, last := InputsOf(picks[..n - 1]), IdsOf(picks[n - 1]);
      assert picks[..n][..n - 1] == picks[..n - 1];
      PickDistinctIds(wallet, query, order, amounts, picks, n - 1);
      forall x | 0 <= x < |before|
        ensures before[x] !in last
      {
        NoPickTwice(wallet, query, order, amounts, picks, n - 1, before[x]);
      }
    }
  }

  lemma PickOffered(wallet: Wallet, query: Query, order: seq<TokenUid>, amounts: map<TokenUid, nat>,
                    picks: seq<seq<Utxo>>, i: nat, j: nat)
    requires Selected(wallet, query, order, amounts, picks) && i < |picks| && j < |picks[i]|
    ensures picks[i][j] in Details(wallet, query, order[i]).utxos
  {
    assert picks[i][j] in multiset(picks[i]);
  }

  // ----- inputs cover outputs -----

  /** What the inputs are worth among these utxos. */
  function Worth(utxos: seq<Utxo>, inputs: seq<PreparedInput>): nat {
    Total(Spent(utxos, inputs))
  }

  function Spent(utxos: seq<Utxo>, inputs: seq<PreparedInput>): seq<Utxo> {
    if utxos == [] then [] else
      (if PreparedInput(utxos[0].txId, utxos[0].index) in inputs then [utxos[0]] else []) + Spent(utxos[1..], inputs)
  }

  lemma {:induction false} SpentExact(utxos: seq<Utxo>, inputs: seq<PreparedInput>, u: Utxo)
    ensures multiset(Spent(utxos, inputs))[u] == if InputOf(u) in inputs then multiset(utxos)[u] else 0
  {
    if utxos == [] {
    } else {
      assert utxos == [utxos[0]] + utxos[1..];
      SpentExact(utxos[1..], inputs, u);
    }
  }

  lemma {:induction false} SubTotal(a: seq<Utxo>, b: seq<Utxo>)
    requires multiset(a) <= multiset(b)
    ensures Total(a) <= Total(b)
  {
    if a == [] {
    } else {
      assert a == [a[0]] + a[1..];
      assert a[0] in multiset(b);
      var i :| 0 <= i < |b| && b[i] == a[0];
      TotalWithout(b, i);
      assert multiset(a[1..]) == multiset(a) - multiset{a[0]};
      SubTotal(a[1..], b[..i] + b[i + 1..]);
    }
  }

  lemma InputsCover(wallet: Wallet, query: Query, order: seq<TokenUid>, amounts: map<TokenUid, nat>,
                    picks: seq<seq<Utxo>>, token: TokenUid)
    requires Selected(wallet, query, order, amounts, picks) && token in order
    ensures token in amounts
    ensures Worth(Details(wallet, query, token).utxos, InputsOf(picks)) >= amounts[token]
  {
    var i :| 0 <= i < |order| && order[i] == token;
    var utxos, inputs := Details(wallet, query, token).utxos, InputsOf(picks);
    forall u
      ensures multiset(picks[i])[u] <= multiset(Spent(utxos, inputs))[u]
    {
      SpentExact(utxos, inputs, u);
      if u in multiset(picks[i]) {
        var j :| 0 <= j < |picks[i]| && picks[i][j] == u;
        InputOfPick(picks, i, j);
      }
    }
    SubTotal(picks[i], Spent(utxos, inputs));
  }

  /** One selection for each token, from that token's utxos, that reaches what the token needs. */
  ghost predicate CoversAll(wallet: Wallet, query: Query, order: seq<TokenUid>, amounts: map<TokenUid, nat>,
                            picks: seq<seq<Utxo>>) {
    && |picks| == |order|
    && forall i :: 0 <= i < |order| ==>
         order[i] in amounts && Covers(Details(wallet, query, order[i]).utxos, amounts[order[i]], picks[i])
  }

  /** If every token needs something, no other way of covering them all takes fewer inputs. */
  lemma {:induction false} FewestInputsOverall(wallet: Wallet, query: Query, order: seq<TokenUid>,
                                               amounts: map<TokenUid, nat>, picks: seq<seq<Utxo>>,
                                               other: seq<seq<Utxo>>)
    requires Selected(wallet, query, order, amounts, picks)
    requires CoversAll(wallet, query, order, amounts, other)
    requires forall i :: 0 <= i < |order| ==> amounts[order[i]] > 0
    ensures |InputsOf(picks)| <= |InputsOf(other)|
    decreases |order|
  {
    if order == [] {
    } else {
      var n := |order| - 1;
      FewestInputsOverall(wallet, query, order[..n], amounts, picks[..n], other[..n]);
      assert amounts[order[n]] > 0 && Answers(Details(wallet, query, order[n]), amounts[order[n]], Picked(picks[n]));
      assert |picks[n]| <= |other[n]|;
    }
  }

  // ----- the whole preparation -----

  class Output {
    var token: Option<TokenUid>
    var isData: bool
    var value: nat

    constructor (token: Option<TokenUid>, isData: bool, value: nat)
      ensures Data() == OutputData(token, isData, value)
    {
      this.token, this.isData, this.value := token, isData, value;
    }

    function Data(): OutputData
      reads this
    {
      OutputData(token, isData, value)
    }

    /** Default the token; a data output burns one unit. */
    method Prepare(default: TokenUid)
      modifies this
      ensures Data() == PrepareOutput(default, old(Data()))
    {
      if token.None? {
        token := Some(default);
      }
      if isData {
        value := 1;
      }
    }
  }

  datatype Prepared = Ready(inputs: seq<PreparedInput>, outputs: seq<Output>) | Refused(token: TokenUid) | Threw

  function DataOf(outputs: seq<Output>): seq<OutputData>
    reads outputs
  {
    seq(|outputs|, i requires 0 <= i < |outputs| reads outputs => outputs[i].Data())
  }

  /** The token map built from the outputs: its keys in insertion order and its amounts. */
  ghost predicate Collected(outputs: seq<OutputData>, order: seq<TokenUid>, amounts: map<TokenUid, nat>) {
    && order == TokensOf(outputs)
    && (forall t :: t in amounts <==> t in order)
    && (forall t :: t in amounts ==> amounts[t] == Needed(outputs, t))
  }

  lemma NothingCollected(outputs: seq<OutputData>)
    ensures Collected(outputs[..0], [], map[])
  {}

  /** Count one prepared output in the token map, entering its token first if it is new. */
  method CountOutput(ghost outputs: seq<OutputData>, ghost i: nat, output: OutputData,
                     order: seq<TokenUid>, amounts: map<TokenUid, nat>)
    returns (order': seq<TokenUid>, amounts': map<TokenUid, nat>)
    requires i < |outputs| && output == outputs[i] && output.token.Some?
    requires Collected(outputs[..i], order, amounts)
    ensures Collected(outputs[..i + 1], order', amounts')
    ensures var token := output.token.value;
            && order' == (if token in order then order else order + [token])
            && amounts' == amounts[token := (if token in amounts then amounts[token] else 0) + output.value]
  {
    var token := output.token.value;
    order', amounts' := order, amounts;
    if token !in amounts' {
      order', amounts' := order' + [token], amounts'[token := 0];
    }
    amounts' := amounts'[token := amounts'[token] + output.value];
    assert outputs[..i + 1][..i] == outputs[..i];
    TokensExact(outputs[..i], token);
  }

  method CollectTokens(outputs: seq<Output>, default: TokenUid)
    returns (preparedOutputs: seq<Output>, order: seq<TokenUid>, amounts: map<TokenUid, nat>)
    modifies outputs
    ensures preparedOutputs == outputs
    ensures DataOf(outputs) == PrepareAll(default, old(DataOf(outputs)))
    ensures Collected(DataOf(outputs), order, amounts)
    ensures forall t :: t in amounts ==> amounts[t] == Sum(ValuesOf(DataOf(outputs), t))
  {
    hide Collected;
    ghost var before := DataOf(outputs);
    ghost var after := PrepareAll(default, before);
    preparedOutputs, order, amounts := [], [], map[];
    NothingCollected(after);
    for i := 0 to |outputs|
      invariant preparedOutputs == outputs[..i]
      invariant forall j :: 0 <= j < |outputs| ==>
                  outputs[j].Data() == after[j] || (j >= i && outputs[j].Data() == before[j])
      invariant Collected(after[..i], order, amounts)
    {
      var output := outputs[i];
      PrepareOnce(default, before[i]);
      output.Prepare(default);
      assert output.Data() == after[i];
      order, amounts := CountOutput(after, i, output.Data(), order, amounts);
      preparedOutputs := preparedOutputs + [output];
    }
    assert after[..|outputs|] == after;
    assert DataOf(outputs) == after;
    CollectedSums(after, order, amounts);
  }

  lemma CollectedSums(outputs: seq<OutputData>, order: seq<TokenUid>, amounts: map<TokenUid, nat>)
    requires Collected(outputs, order, amounts)
    ensures forall t :: t in amounts ==> amounts[t] == Sum(ValuesOf(outputs, t))
  {
    forall t | t in amounts
      ensures amounts[t] == Sum(ValuesOf(outputs, t))
    {
      NeededIsSum(outputs, t);
    }
  }

  ghost function NeededAmounts(data: seq<OutputData>): map<TokenUid, nat> {
    map t | t in TokensOf(data) :: Needed(data, t)
  }

  /** The inputs are one selector's answer for each token, and no fewer inputs would do. */
  ghost predicate BestInputs(wallet: Wallet, query: Query, data: seq<OutputData>, inputs: seq<PreparedInput>) {
    var order, amounts := TokensOf(data), NeededAmounts(data);
    && (exists picks :: Selected(wallet, query, order, amounts, picks) && inputs == InputsOf(picks))
    && ((forall t :: t in order ==> Needed(data, t) > 0) ==>
          forall other :: CoversAll(wallet, query, order, amounts, other) ==> |inputs| <= |InputsOf(other)|)
  }

  /** What a query fill promises for prepared outputs. */
  ghost predicate FillsQuery(wallet: Wallet, query: Query, data: seq<OutputData>, r: Filled) {
    && (r.Success? <==> forall t :: t in TokensOf(data) ==> Fillable(wallet, query, t, Needed(data, t)))
    && (r.Failure? ==> && r.token in TokensOf(data)
                       && !Fillable(wallet, query, r.token, Needed(data, r.token))
                       && !NothingToRead(wallet, query, r.token, Needed(data, r.token)))
    && (r.TypeError? ==> exists t :: t in TokensOf(data) && NothingToRead(wallet, query, t, Needed(data, t)))
    && (r.Success? ==> forall t :: t in TokensOf(data) ==>
                         Worth(Details(wallet, query, t).utxos, r.inputs) >= Needed(data, t))
    && (r.Success? && ListsOnce(wallet, query, TokensOf(data)) ==> Distinct(r.inputs))
    && (r.Success? ==> BestInputs(wallet, query, data, r.inputs))
  }

  lemma SelectedAreBest(wallet: Wallet, query: Query, data: seq<OutputData>, picks: seq<seq<Utxo>>)
    requires Selected(wallet, query, TokensOf(data), NeededAmounts(data), picks)
    ensures BestInputs(wallet, query, data, InputsOf(picks))
  {
    hide Selected, CoversAll;
    var order, amounts := TokensOf(data), NeededAmounts(data);
    if forall t :: t in order ==> Needed(data, t) > 0 {
      forall other | CoversAll(wallet, query, order, amounts, other)
        ensures |InputsOf(picks)| <= |InputsOf(other)|
      {
        FewestInputsOverall(wallet, query, order, amounts, picks, other);
      }
    }
  }

  // ----- the same in terms of the outputs and the wallet's answers alone -----

  /** What the wallet has available of a token, under the filters of the query. */
  function Available(wallet: Wallet, query: Query, token: TokenUid): UtxosDetails {
    wallet.getUtxos(Query(query.filters, Some(token), true))
  }

  ghost predicate Enough(wallet: Wallet, query: Query, data: seq<OutputData>, token: TokenUid) {
    var d, worth := Available(wallet, query, token), Sum(ValuesOf(data, token));
    d.utxos != [] && d.totalAmountAvailable >= worth && Total(d.utxos) >= worth
  }

  /** Available utxos of the token that are worth its outputs, all of them among the inputs. */
  ghost predicate PaidWith(wallet: Wallet, query: Query, data: seq<OutputData>, token: TokenUid,
                           inputs: seq<PreparedInput>, chosen: seq<Utxo>) {
    && multiset(chosen) <= multiset(Available(wallet, query, token).utxos)
    && Total(chosen) >= Sum(ValuesOf(data, token))
    && forall u :: u in chosen ==> PreparedInput(u.txId, u.index) in inputs
  }

  ghost predicate IsAvailable(wallet: Wallet, query: Query, token: TokenUid, input: PreparedInput) {
    exists u :: u in Available(wallet, query, token).utxos && input == PreparedInput(u.txId, u.index)
  }

  /** The first output whose token is short, with the way this ends. */
  ghost predicate ShortAt(wallet: Wallet, query: Query, data: seq<OutputData>, r: Filled, i: nat) {
    && i < |data| && data[i].token.Some? && !Enough(wallet, query, data, data[i].token.value)
    && (forall j :: 0 <= j < i && data[j].token.Some? ==> Enough(wallet, query, data, data[j].token.value))
    && var d := Available(wallet, query, data[i].token.value);
       r == if d.utxos == [] && d.totalAmountAvailable >= Sum(ValuesOf(data, data[i].token.value))
            then TypeError else Failure(data[i].token.value)
  }

  /** Either some output's token is short, or every output is paid for, with nothing but available utxos. */
  ghost predicate PaysOutputs(wallet: Wallet, query: Query, data: seq<OutputData>, r: Filled) {
    if r.Success? then
      forall i | 0 <= i < |data| && data[i].token.Some? ::
        && Enough(wallet, query, data, data[i].token.value)
        && exists chosen :: PaidWith(wallet, query, data, data[i].token.value, r.inputs, chosen)
    else exists i :: ShortAt(wallet, query, data, r, i)
  }

  ghost predicate OnlyAvailable(wallet: Wallet, query: Query, data: seq<OutputData>, inputs: seq<PreparedInput>) {
    forall x :: x in inputs ==>
      exists i :: 0 <= i < |data| && data[i].token.Some? && IsAvailable(wallet, query, data[i].token.value, x)
  }

  lemma FillableIsEnough(wallet: Wallet, query: Query, data: seq<OutputData>, token: TokenUid)
    ensures Details(wallet, query, token) == Available(wallet, query, token)
    ensures Fillable(wallet, query, token, Needed(data, token)) <==> Enough(wallet, query, data, token)
  {
    NeededIsSum(data, token);
  }

  lemma SuccessPays(wallet: Wallet, query: Query, data: seq<OutputData>, order: seq<TokenUid>,
                    amounts: map<TokenUid, nat>, picks: seq<seq<Utxo>>, i: nat)
    requires Collected(data, order, amounts) && Selected(wallet, query, order, amounts, picks)
    requires i < |data| && data[i].token.Some?
    ensures exists chosen :: PaidWith(wallet, query, data, data[i].token.value, InputsOf(picks), chosen)
  {
    hide InputsOf;
    var token := data[i].token.value;
    TokensExact(data, token);
    var n :| 0 <= n < |order| && order[n] == token;
    NeededIsSum(data, token);
    forall u | u in picks[n]
      ensures PreparedInput(u.txId, u.index) in InputsOf(picks)
    {
      var j :| 0 <= j < |picks[n]| && picks[n][j] == u;
      InputOfPick(picks, n, j);
    }
    assert PaidWith(wallet, query, data, token, InputsOf(picks), picks[n]);
  }

  lemma SuccessOnlyAvailable(wallet: Wallet, query: Query, data: seq<OutputData>, order: seq<TokenUid>,
                             amounts: map<TokenUid, nat>, picks: seq<seq<Utxo>>)
    requires Collected(data, order, amounts) && Selected(wallet, query, order, amounts, picks)
    ensures OnlyAvailable(wallet, query, data, InputsOf(picks))
  {
    hide InputsOf, Answers;
    forall x | x in InputsOf(picks)
      ensures exists i :: 0 <= i < |data| && data[i].token.Some? && IsAvailable(wallet, query, data[i].token.value, x)
    {
      var n, j := PickOfInput(picks, x);
      PickOffered(wallet, query, order, amounts, picks, n, j);
      assert IsAvailable(wallet, query, order[n], x);
      TokensExact(data, order[n]);
    }
  }

  lemma FailureIsFirst(wallet: Wallet, query: Query, data: seq<OutputData>, order: seq<TokenUid>,
                       amounts: map<TokenUid, nat>, n: nat, r: Filled)
    requires Collected(data, order, amounts) && StoppedAt(wallet, query, order, amounts, n)
    requires r == if NothingToRead(wallet, query, order[n], amounts[order[n]]) then TypeError else Failure(order[n])
    ensures exists i :: ShortAt(wallet, query, data, r, i)
  {
    hide Fillable, Enough, Sum, ValuesOf, Needed;
    var i := OrderOfAppearance(data, n);
    FillableIsEnough(wallet, query, data, order[n]);
    NeededIsSum(data, order[n]);
    forall j | 0 <= j < i && data[j].token.Some?
      ensures Enough(wallet, query, data, data[j].token.value)
    {
      var t := data[j].token.value;
      assert t in order[..n];
      var k :| 0 <= k < n && order[k] == t;
      FillableIsEnough(wallet, query, data, t);
    }
    assert ShortAt(wallet, query, data, r, i);
  }

  lemma SuccessEnough(wallet: Wallet, query: Query, data: seq<OutputData>, order: seq<TokenUid>,
                      amounts: map<TokenUid, nat>, i: nat)
    requires Collected(data, order, amounts) && i < |data| && data[i].token.Some?
    requires forall t :: t in order ==> Fillable(wallet, query, t, amounts[t])
    ensures Enough(wallet, query, data, data[i].token.value)
  {
    hide Fillable, Enough;
    TokensExact(data, data[i].token.value);
    FillableIsEnough(wallet, query, data, data[i].token.value);
  }

  /** The query branch: fills every token, or fails at the first one that cannot be filled. */
  method FillQuery(wallet: Wallet, query: Query, ghost data: seq<OutputData>,
                   order: seq<TokenUid>, amounts: map<TokenUid, nat>)
    returns (r: Filled)
    requires Collected(data, order, amounts)
    ensures FillsQuery(wallet, query, data, r)
    ensures PaysOutputs(wallet, query, data, r)
    ensures r.Success? ==> OnlyAvailable(wallet, query, data, r.inputs)
  {
    hide Answers, Fillable, NothingToRead, ListsOnce, Selected, BestInputs, OnlyAvailable, PaidWith, Enough, ShortAt;
    ghost var picks;
    r, picks := FillInputs(wallet, query, order, amounts);
    if r.Success? {
      assert amounts == NeededAmounts(data);
      SelectedAreBest(wallet, query, data, picks);
      SuccessOnlyAvailable(wallet, query, data, order, amounts, picks);
      forall i | 0 <= i < |data| && data[i].token.Some?
        ensures Enough(wallet, query, data, data[i].token.value)
        ensures exists chosen :: PaidWith(wallet, query, data, data[i].token.value, r.inputs, chosen)
      {
        SuccessEnough(wallet, query, data, order, amounts, i);
        SuccessPays(wallet, query, data, order, amounts, picks, i);
      }
      forall t | t in order
        ensures Worth(Details(wallet, query, t).utxos, r.inputs) >= Needed(data, t)
      {
        InputsCover(wallet, query, order, amounts, picks, t);
      }
      TokensDistinct(data);
      if ListsOnce(wallet, query, order) {
        SelectedLength(wallet, query, order, amounts, picks);
        InputsDistinct(wallet, query, order, amounts, picks, |picks|);
        assert picks[..|picks|] == picks;
      }
    } else {
      NotBoth(wallet, query);
      ghost var n: nat :| StoppedAt(wallet, query, order, amounts, n)
                    && r == if NothingToRead(wallet, query, order[n], amounts[order[n]]) then TypeError
                            else Failure(order[n]);
      FailureIsFirst(wallet, query, data, order, amounts, n, r);
    }
  }

  lemma SelectedLength(wallet: Wallet, query: Query, order: seq<TokenUid>, amounts: map<TokenUid, nat>,
                       picks: seq<seq<Utxo>>)
    requires Selected(wallet, query, order, amounts, picks)
    ensures |picks| == |order|
  {}

  lemma NotBoth(wallet: Wallet, query: Query)
    ensures forall t, n :: NothingToRead(wallet, query, t, n) ==> !Fillable(wallet, query, t, n)
  {}

  /** How the query branch ended. */
  function FilledOf(r: Prepared): Filled {
    match r case Ready(inputs, _) => Success(inputs) case Refused(token) => Failure(token) case Threw => TypeError
  }

  method PrepareTxFunds(wallet: Wallet, outputs: seq<Output>, inputs: seq<RequestInput>, defaultToken: TokenUid)
    returns (r: Prepared)
    modifies outputs
    // Outputs are defaulted in place and keep their order: only missing tokens and data values change.
    ensures DataOf(outputs) == PrepareAll(defaultToken, old(DataOf(outputs)))
    ensures forall i :: 0 <= i < |outputs| ==>
              && outputs[i].isData == old(outputs[i].isData)
              && outputs[i].token == Some(if old(outputs[i].token).Some? then old(outputs[i].token).value else defaultToken)
              && outputs[i].value == if old(outputs[i].isData) then 1 else old(outputs[i].value)
    ensures r.Ready? ==> r.outputs == outputs
    // Without a query the inputs are taken as they are.
    ensures inputs == [] ==> r == Ready([], outputs)
    ensures inputs != [] && !inputs[0].isQuery ==>
              r.Ready? && |r.inputs| == |inputs|
              && forall i :: 0 <= i < |inputs| ==> r.inputs[i] == PreparedInput(inputs[i].hash, inputs[i].index)
    // With a query every token of the outputs has to be filled.
    ensures inputs != [] && inputs[0].isQuery ==>
              && FillsQuery(wallet, inputs[0].query, DataOf(outputs), FilledOf(r))
              && PaysOutputs(wallet, inputs[0].query, DataOf(outputs), FilledOf(r))
              && (r.Ready? ==> OnlyAvailable(wallet, inputs[0].query, DataOf(outputs), r.inputs))
  {
    hide FillsQuery, PaysOutputs, OnlyAvailable, Collected;
    ghost var before := DataOf(outputs);
    var preparedOutputs, order, amounts := CollectTokens(outputs, defaultToken);
    assert forall i :: 0 <= i < |outputs| ==> outputs[i].Data() == DataOf(outputs)[i]
                                              == PrepareOutput(defaultToken, before[i]);
    if inputs == [] {
      return Ready([], preparedOutputs);
    }
    if !inputs[0].isQuery {
      var mapped := seq(|inputs|, i requires 0 <= i < |inputs| => PreparedInput(inputs[i].hash, inputs[i].index));
      return Ready(mapped, preparedOutputs);
    }
    var filled := FillQuery(wallet, inputs[0].query, DataOf(outputs), order, amounts);
    match filled
    case Success(preparedInputs) => return Ready(preparedInputs, preparedOutputs);
    case Failure(token) => return Refused(token);
    case TypeError => return Threw;
  }

  /** With a wallet that adds up correctly and outputs worth something, being fillable is reaching the sum. */
  lemma FillableIsReaching(wallet: Wallet, query: Query, token: TokenUid, amount: nat)
    requires var d := Details(wallet, query, token); d.totalAmountAvailable == Total(d.utxos)
    ensures amount > 0 ==>
              (Fillable(wallet, query, token, amount) <==> Total(Details(wallet, query, token).utxos) >= amount)
    ensures amount == 0 ==>
              (Fillable(wallet, query, token, amount) <==> Details(wallet, query, token).utxos != [])
    ensures NothingToRead(wallet, query, token, amount) <==>
              amount == 0 && Details(wallet, query, token).utxos == []
  {}

  /** Outputs as the routes let them through, worth something unless they are data, need something of each token. */
  lemma RouteOutputsNeedFunds(default: TokenUid, outputs: seq<OutputData>, token: TokenUid)
    requires forall i :: 0 <= i < |outputs| ==> outputs[i].isData || outputs[i].value >= 1
    ensures var data := PrepareAll(default, outputs);
            token in TokensOf(data) <==> Needed(data, token) > 0
  {
    PositiveNeeds(PrepareAll(default, outputs), token);
  }
}
