// Choosing the inputs of a transaction: sort the available utxos with the larger
// amounts first, then take one that is large enough or as many as it takes.
module UtxoSelection {
  import opened Common

  type TxId(==, !new)
  type TokenUid(==, !new)
  /** The filters of a utxo query other than its token, which this model does not look into. */
  type Filters(==, !new)

  datatype Utxo = Utxo(txId: TxId, index: nat, amount: nat)

  datatype Query = Query(filters: Filters, token: Option<TokenUid>, onlyAvailableUtxos: bool)

  datatype UtxosDetails = UtxosDetails(utxos: seq<Utxo>, totalAmountAvailable: int)

  /** The wallet, reduced to what it answers to a query. */
  datatype Wallet = Wallet(getUtxos: Query -> UtxosDetails)

  /** A selection ends with `null`, with a TypeError on an empty list, or with utxos. */
  datatype Selection = NoFunds | Crashed | Picked(utxos: seq<Utxo>)

  function Total(s: seq<Utxo>): nat {
    if s == [] then 0 else s[0].amount + Total(s[1..])
  }

  // ----- the library sort -----

  ghost predicate Sorted(s: seq<Utxo>) {
    forall i, j :: 0 <= i < j < |s| ==> s[i].amount >= s[j].amount
  }

  function Insert(u: Utxo, s: seq<Utxo>): seq<Utxo> {
    if s == [] || u.amount >= s[0].amount then [u] + s else [s[0]] + Insert(u, s[1..])
  }

  /** The stable sort by decreasing amount. */
  function SortDescending(s: seq<Utxo>): seq<Utxo> {
    if s == [] then [] else Insert(s[0], SortDescending(s[1..]))
  }

  lemma {:induction false} InsertKeepsUtxos(u: Utxo, s: seq<Utxo>)
    ensures multiset(Insert(u, s)) == multiset{u} + multiset(s)
  {
    if s == [] || u.amount >= s[0].amount {
    } else {
      InsertKeepsUtxos(u, s[1..]);
      assert s == [s[0]] + s[1..];
    }
  }

  lemma {:induction false} InsertSorts(u: Utxo, s: seq<Utxo>)
    requires Sorted(s)
    ensures Sorted(Insert(u, s))
  {
    if s == [] || u.amount >= s[0].amount {
    } else {
      InsertSorts(u, s[1..]);
      InsertBelow(u, s[1..], s[0].amount);
    }
  }

  lemma InsertBelow(u: Utxo, s: seq<Utxo>, bound: int)
    requires u.amount <= bound && forall i :: 0 <= i < |s| ==> s[i].amount <= bound
    ensures forall i :: 0 <= i < |Insert(u, s)| ==> Insert(u, s)[i].amount <= bound
  {
    hide Insert;
    InsertKeepsUtxos(u, s);
    forall i | 0 <= i < |Insert(u, s)|
      ensures Insert(u, s)[i].amount <= bound
    {
      assert Insert(u, s)[i] in multiset(Insert(u, s));
    }
  }

  lemma {:induction false} SortDescendingSorts(s: seq<Utxo>)
    ensures Sorted(SortDescending(s))
    ensures multiset(SortDescending(s)) == multiset(s)
  {
    if s == [] {
    } else {
      SortDescendingSorts(s[1..]);
      InsertSorts(s[0], SortDescending(s[1..]));
      InsertKeepsUtxos(s[0], SortDescending(s[1..]));
      assert s == [s[0]] + s[1..];
    }
  }

  // ----- totals -----

  lemma {:induction false} TotalAppend(a: seq<Utxo>, b: seq<Utxo>)
    ensures Total(a + b) == Total(a) + Total(b)
  {
    if a == [] {
      assert a + b == b;
    } else {
      TotalAppend(a[1..], b);
      assert (a + b)[1..] == a[1..] + b;
    }
  }

  lemma TotalWithout(s: seq<Utxo>, i: nat)
    requires i < |s|
    ensures Total(s) == s[i].amount + Total(s[..i] + s[i + 1..])
    ensures multiset(s) == multiset{s[i]} + multiset(s[..i] + s[i + 1..])
  {
    assert s == s[..i] + s[i..] && s[i..] == [s[i]] + s[i + 1..];
    TotalAppend(s[..i], s[i..]);
    TotalAppend(s[..i], s[i + 1..]);
  }

  lemma WithoutFirst(s: seq<Utxo>, other: seq<Utxo>, i: nat)
    requires s != [] && i < |other| && other[i] == s[0] && multiset(other) <= multiset(s)
    ensures multiset(other[..i] + other[i + 1..]) <= multiset(s[1..])
  {
    TotalWithout(other, i);
    assert s == [s[0]] + s[1..];
    assert multiset(s[1..]) == multiset(s) - multiset{s[0]};
    assert multiset(other[..i] + other[i + 1..]) == multiset(other) - multiset{s[0]};
  }

  lemma WithoutTheFirst(s: seq<Utxo>, other: seq<Utxo>)
    requires s != [] && s[0] !in other && multiset(other) <= multiset(s)
    ensures multiset(other) <= multiset(s[1..])
  {
    assert s == [s[0]] + s[1..];
    assert s[0] !in multiset(other);
  }

  /** Shifting a window over a sorted list does not increase what it amounts to. */
  lemma ShiftedTotal(s: seq<Utxo>, n: nat)
    requires Sorted(s) && n < |s|
    ensures Total(s[1..][..n]) <= Total(s[..n])
  {
    if n == 0 {
    } else {
      assert s[..n] == [s[0]] + s[1..n];
      assert s[1..][..n] == s[1..n] + [s[n]];
      TotalAppend(s[1..n], [s[n]]);
    }
  }

  /** Among equally many utxos of a sorted list, none amount to more than the first ones. */
  lemma {:induction false} FirstOnesAmountToMost(s: seq<Utxo>, other: seq<Utxo>)
    requires Sorted(s) && multiset(other) <= multiset(s)
    ensures |other| <= |s| && Total(other) <= Total(s[..|other|])
  {
    CountsBelow(other, s);
    if other == [] {
    } else if s[0] in other {
      var i :| 0 <= i < |other| && other[i] == s[0];
      var rest := other[..i] + other[i + 1..];
      WithoutFirst(s, other, i);
      assert Total(other) == s[0].amount + Total(rest) by { TotalWithout(other, i); }
      FirstOnesAmountToMost(s[1..], rest);
      assert s[..|other|][1..] == s[1..][..|rest|];
    } else {
      WithoutTheFirst(s, other);
      FirstOnesAmountToMost(s[1..], other);
      ShiftedTotal(s, |other|);
    }
  }

  lemma CountsBelow(a: seq<Utxo>, b: seq<Utxo>)
    requires multiset(a) <= multiset(b)
    ensures |a| <= |b|
  {
    assert |multiset(b) - multiset(a)| == |b| - |a|;
  }

  lemma {:induction false} TotalMonotone(s: seq<Utxo>, i: nat, j: nat)
    requires i <= j <= |s|
    ensures Total(s[..i]) <= Total(s[..j])
  {
    assert s[..j] == s[..i] + s[i..j];
    TotalAppend(s[..i], s[i..j]);
  }

  lemma {:induction false} SameTotal(a: seq<Utxo>, b: seq<Utxo>)
    requires multiset(a) == multiset(b)
    ensures Total(a) == Total(b)
  {
    CountsBelow(a, b);
    CountsBelow(b, a);
    if a == [] {
    } else {
      assert a == [a[0]] + a[1..];
      assert a[0] in multiset(b);
      var i :| 0 <= i < |b| && b[i] == a[0];
      TotalWithout(b, i);
      assert multiset(a[1..]) == multiset(a) - multiset{a[0]};
      SameTotal(a[1..], b[..i] + b[i + 1..]);
    }
  }

  // ----- what a good selection is -----

  /** The selection uses available utxos, each at most as often as it is listed, and reaches the sum. */
  ghost predicate Covers(available: seq<Utxo>, sum: int, picked: seq<Utxo>) {
    multiset(picked) <= multiset(available) && Total(picked) >= sum
  }

  ghost predicate FewestInputs(available: seq<Utxo>, sum: int, picked: seq<Utxo>) {
    forall other: seq<Utxo> :: Covers(available, sum, other) ==> |picked| <= |other|
  }

  ghost predicate SmallestSufficient(available: seq<Utxo>, sum: int, picked: seq<Utxo>) {
    && |picked| == 1
    && forall u :: u in available && u.amount >= sum ==> picked[0].amount <= u.amount
  }

  /** Nothing left is larger than anything taken, and nothing taken is superfluous. */
  ghost predicate LargestFirst(available: seq<Utxo>, sum: int, picked: seq<Utxo>) {
    && picked != []
    && Sorted(picked)
    && (forall u, v :: u in multiset(available) - multiset(picked) && v in picked ==> u.amount <= v.amount)
    && (forall k :: 0 < k < |picked| ==> Total(picked[..k]) < sum)
    && (sum > 0 ==> Total(picked) - sum < picked[|picked| - 1].amount)
  }

  /** The first `n` utxos of a list, and no fewer than `n`, reach the sum. */
  ghost predicate FirstToReach(sorted: seq<Utxo>, sum: int, n: nat) {
    && 0 < n <= |sorted|
    && Total(sorted[..n]) >= sum
    && forall k :: 0 < k < n ==> Total(sorted[..k]) < sum
  }

  lemma PrefixOnTop(available: seq<Utxo>, sorted: seq<Utxo>, n: nat)
    requires Sorted(sorted) && multiset(sorted) == multiset(available) && n <= |sorted|
    ensures multiset(sorted[..n]) <= multiset(available)
    ensures forall u, v :: u in multiset(available) - multiset(sorted[..n]) && v in sorted[..n] ==> u.amount <= v.amount
  {
    assert sorted == sorted[..n] + sorted[n..];
    assert multiset(available) - multiset(sorted[..n]) == multiset(sorted[n..]);
    forall u, v | u in multiset(sorted[n..]) && v in sorted[..n]
      ensures u.amount <= v.amount
    {
      assert u in sorted[n..];
    }
  }

  lemma OvershootBelowLast(sorted: seq<Utxo>, sum: int, n: nat)
    requires FirstToReach(sorted, sum, n) && sum > 0
    ensures Total(sorted[..n]) - sum < sorted[n - 1].amount
  {
    assert sorted[..n] == sorted[..n - 1] + [sorted[n - 1]];
    TotalAppend(sorted[..n - 1], [sorted[n - 1]]);
    assert Total([sorted[n - 1]]) == sorted[n - 1].amount;
    assert n == 1 ==> sorted[..n - 1] == [];
  }

  lemma PrefixLargestFirst(available: seq<Utxo>, sorted: seq<Utxo>, sum: int, n: nat)
    requires Sorted(sorted) && multiset(sorted) == multiset(available)
    requires FirstToReach(sorted, sum, n)
    ensures LargestFirst(available, sum, sorted[..n])
  {
    hide Total;
    var picked := sorted[..n];
    PrefixOnTop(available, sorted, n);
    forall k | 0 < k < n
      ensures Total(picked[..k]) < sum
    {
      assert picked[..k] == sorted[..k];
    }
    if sum > 0 {
      OvershootBelowLast(sorted, sum, n);
    }
  }

  lemma PrefixFewestInputs(available: seq<Utxo>, sorted: seq<Utxo>, sum: int, n: nat)
    requires sum > 0 && Sorted(sorted) && multiset(sorted) == multiset(available)
    requires FirstToReach(sorted, sum, n)
    ensures FewestInputs(available, sum, sorted[..n])
  {
    forall other: seq<Utxo> | Covers(available, sum, other)
      ensures n <= |other|
    {
      FirstOnesAmountToMost(sorted, other);
    }
  }

  /** A sum of nothing needs no input at all. */
  lemma NothingCovers(available: seq<Utxo>, sum: int, picked: seq<Utxo>)
    requires picked != []
    ensures sum <= 0 ==> !FewestInputs(available, sum, picked)
  {
    if sum <= 0 {
      assert Covers(available, sum, []);
    }
  }

  lemma SingleCovers(available: seq<Utxo>, sum: int, u: Utxo)
    requires u in available && u.amount >= sum
    ensures Covers(available, sum, [u])
    ensures FewestInputs(available, sum, [u]) <==> sum > 0
  {
    assert u in multiset(available);
    NothingCovers(available, sum, [u]);
  }

  lemma {:induction false} OneBelowTotal(s: seq<Utxo>, u: Utxo)
    requires u in s
    ensures u.amount <= Total(s)
  {
    if u != s[0] {
      OneBelowTotal(s[1..], u);
    }
  }

  // ----- the selection itself -----

  method FindFirstSmaller(utxos: seq<Utxo>, sum: int) returns (index: int)
    ensures -1 <= index < |utxos|
    ensures index == -1 ==> forall u :: u in utxos ==> u.amount >= sum
    ensures index >= 0 ==> utxos[index].amount < sum && forall k :: 0 <= k < index ==> utxos[k].amount >= sum
  {
    for i := 0 to |utxos|
      invariant forall k :: 0 <= k < i ==> utxos[k].amount >= sum
    {
      if utxos[i].amount < sum {
        return i;
      }
    }
    return -1;
  }

  /** The smallest utxo that is enough on its own, of a sorted list that starts with more than enough. */
  method TakeOne(sorted: seq<Utxo>, sum: int) returns (picked: seq<Utxo>)
    requires Sorted(sorted) && sorted != [] && sorted[0].amount > sum
    ensures |picked| == 1 && picked[0] in sorted && picked[0].amount >= sum
    ensures forall u :: u in sorted && u.amount >= sum ==> picked[0].amount <= u.amount
  {
    var utxos := sorted;
    var firstSmallerIndex := FindFirstSmaller(utxos, sum);
    if firstSmallerIndex == -1 {
      var last := utxos[|utxos| - 1];
      utxos := utxos[..|utxos| - 1];
      return [last];
    }
    return [utxos[firstSmallerIndex - 1]];
  }

  /** The utxos in order until the sum is reached. */
  method TakeMany(utxos: seq<Utxo>, sum: int) returns (r: Selection)
    ensures r.NoFunds? <==> utxos == [] || Total(utxos) < sum
    ensures !r.NoFunds? ==> r.Picked? && FirstToReach(utxos, sum, |r.utxos|) && r.utxos == utxos[..|r.utxos|]
  {
    var total, retUtxos := 0, [];
    for i := 0 to |utxos|
      invariant retUtxos == utxos[..i] && total == Total(retUtxos)
      invariant forall k :: 0 < k <= i ==> Total(utxos[..k]) < sum
    {
      TotalAppend(retUtxos, [utxos[i]]);
      assert utxos[..i + 1] == retUtxos + [utxos[i]];
      retUtxos := retUtxos + [utxos[i]];
      total := total + utxos[i].amount;
      if total >= sum {
        TotalMonotone(utxos, i + 1, |utxos|);
        assert utxos[..|utxos|] == utxos;
        return Picked(retUtxos);
      }
    }
    assert utxos[..|utxos|] == utxos;
    return NoFunds;
  }

  /** What a selection answers to a wallet's reply. */
  ghost predicate Answers(d: UtxosDetails, sum: int, r: Selection) {
    && (r.Crashed? <==> d.totalAmountAvailable >= sum && d.utxos == [])
    && (r.NoFunds? <==> d.totalAmountAvailable < sum || (d.utxos != [] && Total(d.utxos) < sum))
    && (r.Picked? ==>
          && Covers(d.utxos, sum, r.utxos)
          && (FewestInputs(d.utxos, sum, r.utxos) <==> sum > 0)
          && if exists u :: u in d.utxos && u.amount > sum
             then SmallestSufficient(d.utxos, sum, r.utxos)
             else LargestFirst(d.utxos, sum, r.utxos))
  }

  method GetUtxosToFillTx(wallet: Wallet, sumOutputs: int, options: Query) returns (r: Selection)
    ensures Answers(wallet.getUtxos(options.(onlyAvailableUtxos := true)), sumOutputs, r)
  {
    var details := wallet.getUtxos(options.(onlyAvailableUtxos := true));
    if details.totalAmountAvailable < sumOutputs {
      return NoFunds;
    }
    if details.utxos == [] {
      return Crashed;
    }
    var utxos := SortDescending(details.utxos);
    SortDescendingSorts(details.utxos);
    SameTotal(details.utxos, utxos);
    SameUtxos(details.utxos, utxos);
    if utxos[0].amount > sumOutputs {
      var picked := TakeOne(utxos, sumOutputs);
      OneBelowTotal(utxos, utxos[0]);
      SingleCovers(details.utxos, sumOutputs, picked[0]);
      assert utxos[0] in details.utxos && picked == [picked[0]];
      return Picked(picked);
    }
    r := TakeMany(utxos, sumOutputs);
    if r.Picked? {
      ManyAnswers(details, utxos, sumOutputs, |r.utxos|);
    }
  }

  lemma ManyAnswers(d: UtxosDetails, sorted: seq<Utxo>, sum: int, n: nat)
    requires d.totalAmountAvailable >= sum
    requires Sorted(sorted) && multiset(sorted) == multiset(d.utxos)
    requires FirstToReach(sorted, sum, n) && sorted[0].amount <= sum
    ensures Answers(d, sum, Picked(sorted[..n]))
  {
    hide Total, FewestInputs, LargestFirst;
    SameTotal(d.utxos, sorted);
    SameUtxos(d.utxos, sorted);
    TotalMonotone(sorted, n, |sorted|);
    assert sorted[..|sorted|] == sorted;
    PrefixOnTop(d.utxos, sorted, n);
    PrefixLargestFirst(d.utxos, sorted, sum, n);
    NothingCovers(d.utxos, sum, sorted[..n]);
    if sum > 0 {
      PrefixFewestInputs(d.utxos, sorted, sum, n);
    }
  }

  lemma SameUtxos(a: seq<Utxo>, b: seq<Utxo>)
    requires multiset(a) == multiset(b)
    ensures forall u :: u in a <==> u in b
    ensures a == [] <==> b == []
  {
    forall u
      ensures u in a <==> u in b
    {
      assert u in a <==> u in multiset(a);
      assert u in b <==> u in multiset(b);
    }
    CountsBelow(a, b);
    CountsBelow(b, a);
  }
}
