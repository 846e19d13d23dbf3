/** Amounts kept under keys of the state, and sums over them. */
module Amounts {
  import opened Basics

  type StakeKey = (Address, Address)            // Hyper formulator, staker

  const COIN: nat := 1_000_000_000_000_000_000

  // The stored amount; a missing entry is zero.
  function At<K>(m: map<K, nat>, k: K): nat { if k in m then m[k] else 0 }

  // Storing an amount writes the magnitude of the number, and nothing at all for zero.
  function PutAmount<K>(m: map<K, nat>, k: K, x: int): map<K, nat> {
    if x == 0 then m - {k} else m[k := if x < 0 then -x else x]
  }

  lemma StoredAmount<K>(m: map<K, nat>, k: K, x: int, k': K)
    ensures At(PutAmount(m, k, x), k') == if k' != k then At(m, k') else if x < 0 then -x else x
  {
  }

  // Sums over finite maps.

  ghost function Pick<K>(m: map<K, nat>): K
    requires m != map[]
  {
    var k :| k in m; k
  }

  ghost function Sum<K>(m: map<K, nat>): nat
    decreases |m|
  {
    if m == map[] then 0 else m[Pick(m)] + Sum(m - {Pick(m)})
  }

  lemma {:induction false} SumWithout<K>(m: map<K, nat>, k: K)
    requires k in m
    ensures Sum(m) == m[k] + Sum(m - {k})
    decreases |m|
  {
    var p := Pick(m);
    if p != k {
      SumWithout(m - {p}, k);
      SumWithout(m - {k}, p);
      assert (m - {p}) - {k} == (m - {k}) - {p};
    }
  }

  lemma SumRemove<K>(m: map<K, nat>, k: K)
    ensures Sum(m - {k}) == Sum(m) - At(m, k)
  {
    if k in m {
      SumWithout(m, k);
    } else {
      assert m - {k} == m;
    }
  }

  lemma SumSet<K>(m: map<K, nat>, k: K, x: nat)
    ensures Sum(m[k := x]) == Sum(m) - At(m, k) + x
  {
    var m' := m[k := x];
    SumWithout(m', k);
    assert m' - {k} == m - {k};
    SumRemove(m, k);
  }

  /** Storing an amount changes the sum by exactly the difference, unless the amount is negative. */
  lemma SumPut<K>(m: map<K, nat>, k: K, x: int)
    ensures Sum(PutAmount(m, k, x)) == Sum(m) - At(m, k) + if x < 0 then -x else x
  {
    if x == 0 {
      SumRemove(m, k);
    } else {
      SumSet(m, k, if x < 0 then -x else x);
    }
  }

  lemma SumNone<K>()
    ensures Sum<K>(map[]) == 0
  {
  }

  lemma SumOne<K>(k: K, x: nat)
    ensures Sum(map[k := x]) == x
  {
    SumSet(map[], k, x);
    SumNone<K>();
    assert map[][k := x] == map[k := x];
  }

  // The sum splits into that of some keys and that of the others.
  lemma {:induction false} SumSplit<K>(m: map<K, nat>, s: set<K>)
    ensures Sum(m) == Sum(map k | k in m && k in s :: m[k]) + Sum(m - s)
    decreases |m|
  {
    var some := map k | k in m && k in s :: m[k];
    if m == map[] {
      assert some == map[] && m - s == map[];
    } else {
      var p := Pick(m);
      var rest := m - {p};
      SumSplit(rest, s);
      var fewer := map k | k in rest && k in s :: rest[k];
      if p in s {
        SumWithout(some, p);
        assert fewer == some - {p} && rest - s == m - s;
      } else {
        SumWithout(m - s, p);
        assert fewer == some && rest - s == (m - s) - {p};
      }
    }
  }
}
