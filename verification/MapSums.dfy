// Sums of the values of a finite map, as ledgers need them.
module MapSums {

  ghost function AnyKey<K(!new)>(m: map<K, nat>): (k: K)
    requires |m| != 0
    ensures k in m
  {
    var k :| k in m;
    k
  }

  ghost function Sum<K(!new)>(m: map<K, nat>): nat
    decreases |m|
  {
    if |m| == 0 then 0 else m[AnyKey(m)] + Sum(m - {AnyKey(m)})
  }

  function GetOr0<K>(m: map<K, nat>, k: K): nat {
    if k in m then m[k] else 0
  }

  function AddTo<K>(m: map<K, nat>, k: K, amount: nat): map<K, nat> {
    m[k := GetOr0(m, k) + amount]
  }

  /** The sum does not depend on the order in which the keys are taken. */
  lemma {:induction false} SumRemove<K(!new)>(m: map<K, nat>, k: K)
    requires k in m
    ensures Sum(m) == m[k] + Sum(m - {k})
    decreases |m|
  {
    var j := AnyKey(m);
    if j != k {
      SumRemove(m - {j}, k);
      SumRemove(m - {k}, j);
      assert m - {j} - {k} == m - {k} - {j};
    }
  }

  lemma SumSplit<K(!new)>(m: map<K, nat>, k: K)
    ensures Sum(m) == GetOr0(m, k) + Sum(m - {k})
  {
    if k in m {
      SumRemove(m, k);
    } else {
      assert m - {k} == m;
    }
  }

  lemma SumAddTo<K(!new)>(m: map<K, nat>, k: K, amount: nat)
    ensures Sum(AddTo(m, k, amount)) == Sum(m) + amount
  {
    SumSplit(AddTo(m, k, amount), k);
    SumSplit(m, k);
    assert AddTo(m, k, amount) - {k} == m - {k};
  }

  ghost predicate Below<K(!new)>(m: map<K, nat>, n: map<K, nat>) {
    forall k :: k in m ==> m[k] <= GetOr0(n, k)
  }

  lemma BelowWithout<K(!new)>(m: map<K, nat>, n: map<K, nat>, k: K)
    requires Below(m, n)
    ensures Below(m - {k}, n - {k})
  {}

  /** A map that is below another one key by key has the smaller sum. */
  lemma {:induction false} SumBelow<K(!new)>(m: map<K, nat>, n: map<K, nat>)
    requires Below(m, n)
    ensures Sum(m) <= Sum(n)
    decreases |m|
  {
    if |m| == 0 {
    } else {
      var k := AnyKey(m);
      BelowWithout(m, n, k);
      SumBelow(m - {k}, n - {k});
      SumSplit(n, k);
    }
  }
}
