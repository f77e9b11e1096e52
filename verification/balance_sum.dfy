/** The sum of every balance entry of a balance store, and how it moves when one
    entry is overwritten. A key that is absent contributes 0, as it reads as 0. */
module BalanceSum {
  import opened Types

  /** Some key of a non-empty store; the sum takes its entries out in this order. */
  ghost function AnyKey(m: map<Address, nat>): (k: Address)
    requires m != map[]
    ensures k in m
  {
    var k :| k in m; k
  }

  ghost function Sum(m: map<Address, nat>): nat
    decreases |m|
  {
    if m == map[] then 0
    else
      var k := AnyKey(m);
      m[k] + Sum(m - {k})
  }

  /** The sum does not depend on which key is taken out first. */
  lemma {:induction false} SumRemove(m: map<Address, nat>, k: Address)
    requires k in m
    ensures Sum(m) == m[k] + Sum(m - {k})
    decreases |m|
  {
    var j := AnyKey(m);
    if j != k {
      SumRemove(m - {j}, k);
      SumRemove(m - {k}, j);
      assert m - {j} - {k} == m - {k} - {j};
    }
  }

  /** Overwriting one entry changes the sum by the new value minus the old one. */
  lemma SumUpdate(m: map<Address, nat>, k: Address, v: nat)
    ensures Sum(m[k := v]) + (if k in m then m[k] else 0) == Sum(m) + v
  {
    SumRemove(m[k := v], k);
    assert m[k := v] - {k} == m - {k};
    if k in m {
      SumRemove(m, k);
    } else {
      assert m - {k} == m;
    }
  }

  /** A single entry never exceeds the sum. */
  lemma {:induction false} SumBoundsEntry(m: map<Address, nat>, a: Address)
    ensures (if a in m then m[a] else 0) <= Sum(m)
  {
    if a in m {
      SumRemove(m, a);
    }
  }

  /** Two distinct entries together never exceed the sum. */
  lemma {:induction false} SumBoundsPair(m: map<Address, nat>, a: Address, b: Address)
    requires a != b
    ensures (if a in m then m[a] else 0) + (if b in m then m[b] else 0) <= Sum(m)
  {
    if a in m {
      SumRemove(m, a);
      if b in m {
        SumRemove(m - {a}, b);
      }
    } else if b in m {
      SumRemove(m, b);
    }
  }
}
