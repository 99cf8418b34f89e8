// What the outputs of a transaction need: their tokens and data values defaulted, the
// tokens in the order in which they appear, and what each of them adds up to.
module OutputNeeds {
  import opened Common
  import opened UtxoSelection

  /** What an output object says; a token that is absent or empty is `None`. */
  datatype OutputData = OutputData(token: Option<TokenUid>, isData: bool, value: nat)

  // ----- defaults -----

  function PrepareOutput(default: TokenUid, o: OutputData): OutputData {
    OutputData(Some(if o.token.None? then default else o.token.value), o.isData, if o.isData then 1 else o.value)
  }

  /** Every output as the request has it once tokens are defaulted and data outputs set to 1. */
  function PrepareAll(default: TokenUid, outputs: seq<OutputData>): seq<OutputData> {
    seq(|outputs|, i requires 0 <= i < |outputs| => PrepareOutput(default, outputs[i]))
  }

  lemma PrepareOnce(default: TokenUid, o: OutputData)
    ensures PrepareOutput(default, PrepareOutput(default, o)) == PrepareOutput(default, o)
  {}

  // ----- tokens and their sums -----

  /** The tokens of prepared outputs, in the order of their first appearance. */
  function TokensOf(outputs: seq<OutputData>): seq<TokenUid> {
    if outputs == [] then [] else
      var before, token := TokensOf(outputs[..|outputs| - 1]), outputs[|outputs| - 1].token;
      if token.None? || token.value in before then before else before + [token.value]
  }

  /** What the outputs of one token add up to. */
  function Needed(outputs: seq<OutputData>, token: TokenUid): nat {
    if outputs == [] then 0 else
      var last := outputs[|outputs| - 1];
      Needed(outputs[..|outputs| - 1], token) + if last.token == Some(token) then last.value else 0
  }

  lemma {:induction false} TokensDistinct(outputs: seq<OutputData>)
    ensures forall i, j :: 0 <= i < j < |TokensOf(outputs)| ==> TokensOf(outputs)[i] != TokensOf(outputs)[j]
  {
    if outputs == [] {
    } else {
      TokensDistinct(outputs[..|outputs| - 1]);
    }
  }

  /** Every token that needs something is listed, and only tokens of outputs are. */
  lemma {:induction false} TokensExact(outputs: seq<OutputData>, token: TokenUid)
    ensures token in TokensOf(outputs) <==> exists i :: 0 <= i < |outputs| && outputs[i].token == Some(token)
    ensures token !in TokensOf(outputs) ==> Needed(outputs, token) == 0
  {
    if outputs == [] {
    } else {
      var before, last := outputs[..|outputs| - 1], outputs[|outputs| - 1];
      TokensExact(before, token);
      if token in TokensOf(outputs) && token !in TokensOf(before) {
        assert last.token == Some(token);
      }
    }
  }

  lemma {:induction false} PositiveNeeds(outputs: seq<OutputData>, token: TokenUid)
    requires forall i :: 0 <= i < |outputs| ==> outputs[i].value > 0
    ensures token in TokensOf(outputs) <==> Needed(outputs, token) > 0
  {
    if outputs == [] {
    } else {
      PositiveNeeds(outputs[..|outputs| - 1], token);
    }
  }

  // ----- the sums are sums -----

  function Sum(values: seq<nat>): nat {
    if values == [] then 0 else values[0] + Sum(values[1..])
  }

  /** The values of the outputs of one token. */
  function ValuesOf(outputs: seq<OutputData>, token: TokenUid): seq<nat> {
    if outputs == [] then []
    else if outputs[0].token == Some(token) then [outputs[0].value] + ValuesOf(outputs[1..], token)
    else ValuesOf(outputs[1..], token)
  }

  lemma NeededOfOne(o: OutputData, token: TokenUid)
    ensures Needed([o], token) == if o.token == Some(token) then o.value else 0
  {
    assert [o][..0] == [];
  }

  lemma {:induction false} NeededAdds(a: seq<OutputData>, b: seq<OutputData>, token: TokenUid)
    ensures Needed(a + b, token) == Needed(a, token) + Needed(b, token)
  {
    if b == [] {
      assert a + b == a;
    } else {
      NeededAdds(a, b[..|b| - 1], token);
      assert (a + b)[..|a + b| - 1] == a + b[..|b| - 1];
    }
  }

  /** What a token needs is the sum of the values of its outputs. */
  lemma {:induction false} NeededIsSum(outputs: seq<OutputData>, token: TokenUid)
    ensures Needed(outputs, token) == Sum(ValuesOf(outputs, token))
  {
    if outputs == [] {
    } else {
      NeededIsSum(outputs[1..], token);
      NeededAdds([outputs[0]], outputs[1..], token);
      NeededOfOne(outputs[0], token);
      assert outputs == [outputs[0]] + outputs[1..];
      assert ([outputs[0].value] + ValuesOf(outputs[1..], token))[1..] == ValuesOf(outputs[1..], token);
    }
  }

  // ----- the order of tokens -----

  lemma {:induction false} TokensOfPrefix(outputs: seq<OutputData>, k: nat)
    requires k <= |outputs|
    ensures TokensOf(outputs[..k]) <= TokensOf(outputs)
  {
    if k == |outputs| {
      assert outputs[..k] == outputs;
    } else {
      TokensOfPrefix(outputs[..|outputs| - 1], k);
      assert outputs[..|outputs| - 1][..k] == outputs[..k];
    }
  }

  lemma FirstWith(outputs: seq<OutputData>, token: TokenUid) returns (i: nat)
    requires token in TokensOf(outputs)
    ensures i < |outputs| && outputs[i].token == Some(token)
    ensures forall j :: 0 <= j < i ==> outputs[j].token != Some(token)
  {
    TokensExact(outputs, token);
    i := 0;
    while outputs[i].token != Some(token)
      invariant i < |outputs|
      invariant forall j :: 0 <= j < i ==> outputs[j].token != Some(token)
      invariant exists k :: i <= k < |outputs| && outputs[k].token == Some(token)
      decreases |outputs| - i
    {
      i := i + 1;
    }
  }

  /** The tokens listed before one are those of the outputs before its first output. */
  lemma OrderOfAppearance(outputs: seq<OutputData>, n: nat) returns (i: nat)
    requires n < |TokensOf(outputs)|
    ensures i < |outputs| && outputs[i].token == Some(TokensOf(outputs)[n])
    ensures forall t :: t in TokensOf(outputs)[..n] <==> exists j :: 0 <= j < i && outputs[j].token == Some(t)
  {
    var order := TokensOf(outputs);
    i := FirstWith(outputs, order[n]);
    var before := TokensOf(outputs[..i]);
    TokensOfPrefix(outputs, i);
    TokensOfPrefix(outputs, i + 1);
    TokensExact(outputs[..i], order[n]);
    assert outputs[..i + 1][..i] == outputs[..i];
    assert TokensOf(outputs[..i + 1]) == before + [order[n]];
    TokensDistinct(outputs);
    assert order[|before|] == order[n];
    assert order[..n] == before;
    forall t
      ensures t in before <==> exists j :: 0 <= j < i && outputs[j].token == Some(t)
    {
      TokensExact(outputs[..i], t);
      if j :| 0 <= j < i && outputs[j].token == Some(t) {
        assert outputs[..i][j].token == Some(t);
      }
    }
  }
}
