/** Account balances and their sum. */
module Ledger {

  type Account = string

  /** A missing entry counts as zero. */
  function Balance(m: map<Account, nat>, who: Account): nat { if who in m then m[who] else 0 }

  ghost function Sum(m: map<Account, nat>): nat
    decreases |m|
  {
    if m == map[] then 0
    else
      var k :| k in m;
      m[k] + Sum(m - {k})
  }

  /** The sum does not depend on the order in which entries are taken. */
  lemma {:induction false} SumPick(m: map<Account, nat>, k: Account)
    requires k in m
    ensures Sum(m) == m[k] + Sum(m - {k})
    decreases |m|
  {
    var j :| j in m && Sum(m) == m[j] + Sum(m - {j});
    if j != k {
      SumPick(m - {j}, k);
      SumPick(m - {k}, j);
      assert m - {j} - {k} == m - {k} - {j};
    }
  }

  lemma {:induction false} SumSet(m: map<Account, nat>, k: Account, v: nat)
    ensures Sum(m[k := v]) + Balance(m, k) == Sum(m) + v
  {
    SumPick(m[k := v], k);
    assert m[k := v] - {k} == m - {k};
    if k in m { SumPick(m, k); } else { assert m - {k} == m; }
  }

  lemma {:induction false} SumDrop(m: map<Account, nat>, k: Account)
    ensures Sum(m - {k}) + Balance(m, k) == Sum(m)
  {
    if k in m { SumPick(m, k); } else { assert m - {k} == m; }
  }
}
