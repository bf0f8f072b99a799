/** Sums of token balances over sets of accounts. */
module Balances {
  import opened Numeric

  /** An account address. Zero stands for the default public key. */
  type Key = nat

  const DEFAULT_KEY: Key := 0

  type Amounts = map<Key, u64>

  /** The balance at `k`; an account that does not exist holds nothing. */
  function Get(m: Amounts, k: Key): u64 {
    if k in m then m[k] else 0
  }

  ghost function SumOver(m: Amounts, s: set<Key>): nat {
    if s == {} then 0
    else
      var k :| k in s;
      Get(m, k) + SumOver(m, s - {k})
  }

  /** The sum over every account. */
  ghost function Total(m: Amounts): nat {
    SumOver(m, m.Keys)
  }

  /** The choice of account does not matter. */
  lemma {:induction false} SumSplit(m: Amounts, s: set<Key>, k: Key)
    requires k in s
    ensures SumOver(m, s) == Get(m, k) + SumOver(m, s - {k})
    decreases s
  {
    var j :| j in s && SumOver(m, s) == Get(m, j) + SumOver(m, s - {j});
    if j != k {
      SumSplit(m, s - {j}, k);
      SumSplit(m, s - {k}, j);
      assert s - {j} - {k} == s - {k} - {j};
    }
  }

  lemma {:induction false} SumAgrees(m: Amounts, m': Amounts, s: set<Key>)
    requires forall k :: k in s ==> Get(m, k) == Get(m', k)
    ensures SumOver(m, s) == SumOver(m', s)
    decreases s
  {
    if s != {} {
      var k :| k in s;
      SumSplit(m, s, k);
      SumSplit(m', s, k);
      SumAgrees(m, m', s - {k});
    }
  }

  lemma SumUpdate(m: Amounts, s: set<Key>, k: Key, v: u64)
    ensures SumOver(m[k := v], s) == SumOver(m, s) + (if k in s then v - Get(m, k) else 0)
  {
    if k in s {
      SumSplit(m, s, k);
      SumSplit(m[k := v], s, k);
      SumAgrees(m, m[k := v], s - {k});
    } else {
      SumAgrees(m, m[k := v], s);
    }
  }

  lemma TotalUpdate(m: Amounts, k: Key, v: u64)
    ensures Total(m[k := v]) == Total(m) + v - Get(m, k)
  {
    SumUpdate(m, m.Keys + {k}, k, v);
    assert m[k := v].Keys == m.Keys + {k};
    if k !in m {
      SumSplit(m, m.Keys + {k}, k);
      assert m.Keys + {k} - {k} == m.Keys;
    } else {
      assert m.Keys + {k} == m.Keys;
    }
  }

  lemma TotalRemove(m: Amounts, k: Key)
    requires k in m
    ensures Total(m - {k}) == Total(m) - m[k]
  {
    SumSplit(m, m.Keys, k);
    assert (m - {k}).Keys == m.Keys - {k};
    SumAgrees(m, m - {k}, m.Keys - {k});
  }

  /** Removing an empty account changes no sum. */
  lemma SumRemoveEmpty(m: Amounts, s: set<Key>, k: Key)
    requires Get(m, k) == 0
    ensures SumOver(m - {k}, s) == SumOver(m, s)
  {
    SumAgrees(m, m - {k}, s);
  }

  lemma BalanceWithinTotal(m: Amounts, k: Key)
    ensures Get(m, k) <= Total(m)
  {
    if k in m {
      SumSplit(m, m.Keys, k);
    }
  }

  lemma TwoBalancesWithinTotal(m: Amounts, j: Key, k: Key)
    requires j != k
    ensures Get(m, j) + Get(m, k) <= Total(m)
  {
    BalanceWithinTotal(m, j);
    BalanceWithinTotal(m, k);
    if j in m && k in m {
      SumSplit(m, m.Keys, j);
      SumSplit(m, m.Keys - {j}, k);
    }
  }
}
