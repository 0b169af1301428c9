/** Sums over the integer column of a table. A table with one row per key is a
    finite map from the key to the column's value; `Total` adds up the column,
    as `sum(map(lambda row: row.column, rows))` does. */
module Ledger {

  ghost function Total<K>(m: map<K, int>): int
    decreases |m|
  {
    if |m| == 0 then 0 else var k :| k in m; m[k] + Total(m - {k})
  }

  /** Some row, and the split of the sum that `Total` itself makes at it. */
  lemma FirstRow<K>(m: map<K, int>) returns (j: K)
    requires |m| > 0
    ensures j in m && Total(m) == m[j] + Total(m - {j})
  {
    j :| j in m && Total(m) == m[j] + Total(m - {j});
  }

  /** The sum does not depend on which row is taken first. */
  lemma {:induction false} TotalRemove<K>(m: map<K, int>, k: K)
    requires k in m
    ensures Total(m) == m[k] + Total(m - {k})
    decreases |m|
  {
    var j := FirstRow(m);
    if j != k {
      var mj, mk := m - {j}, m - {k};
      assert k in mj && j in mk;
      assert mj.Keys == m.Keys - {j};
      assert |mj| < |m| && |mk| < |m|;
      TotalRemove(mj, k);
      TotalRemove(mk, j);
      assert mj - {k} == mk - {j};
    }
  }

  /** Writing `v` under key `k` changes the sum by `v` minus what was there. */
  lemma TotalUpdate<K>(m: map<K, int>, k: K, v: int)
    ensures Total(m[k := v]) == Total(m) - (if k in m then m[k] else 0) + v
  {
    TotalRemove(m[k := v], k);
    assert m[k := v] - {k} == m - {k};
    if k in m {
      TotalRemove(m, k);
    } else {
      assert m - {k} == m;
    }
  }

  /** The value of a key's row, 0 when the table has no row for it: the
      rows these tables create on first use start at 0. */
  function Read<K>(m: map<K, int>, k: K): (v: int)
    ensures k in m ==> v == m[k]
    ensures k !in m ==> v == 0
  {
    if k in m then m[k] else 0
  }

  /** The value after an update: the value given, or the previous value
      plus it when the update is relative. */
  function Updated(previous: int, amount: int, relative: bool): (v: int)
    ensures relative ==> v - previous == amount
    ensures !relative ==> v == amount
  {
    if relative then previous + amount else amount
  }

  /** A table that holds nothing sums to zero. */
  lemma {:induction false} TotalOfZeros<K>(m: map<K, int>)
    requires forall k :: k in m ==> m[k] == 0
    ensures Total(m) == 0
    decreases |m|
  {
    if |m| > 0 {
      var k :| k in m;
      TotalRemove(m, k);
      TotalOfZeros(m - {k});
    }
  }

  /** The rows whose key is in `keys`. */
  function Restrict<K>(m: map<K, int>, keys: set<K>): (r: map<K, int>)
    ensures r.Keys == m.Keys * keys
    ensures forall k :: k in r ==> r[k] == m[k]
  {
    map k | k in m && k in keys :: m[k]
  }

  /** Adding one more row to a partial sum. */
  lemma TotalStep<K>(m: map<K, int>, done: set<K>, k: K)
    requires k in m && k !in done
    ensures Total(Restrict(m, done + {k})) == Total(Restrict(m, done)) + m[k]
  {
    assert Restrict(m, done + {k}) == Restrict(m, done)[k := m[k]];
    TotalUpdate(Restrict(m, done), k, m[k]);
  }

  /** A set that is not empty has an element. */
  lemma NonEmpty<K>(s: set<K>)
    requires s != {}
    ensures exists x :: x in s
  {
    if forall x :: x !in s {
      assert false;
    }
  }

  /** A set of IDs that is not empty has an element. `NonEmpty<int>` does not
      serve here: its witness is a value of the generic type, and the
      verifier does not carry it over to a choice `x :| x in s` among
      integers. */
  lemma HasElement(s: set<int>)
    requires s != {}
    ensures exists x :: x in s
  {
    if forall x :: x !in s {
      assert false;
    }
  }

  /** `sum(map(lambda row: row.column, rows))`: the rows are visited in no
      particular order. */
  method Sum<K>(m: map<K, int>) returns (total: int)
    ensures total == Total(m)
  {
    total := 0;
    var todo := m.Keys;
    assert Restrict(m, m.Keys - todo) == map[];
    while todo != {}
      invariant todo <= m.Keys
      invariant total == Total(Restrict(m, m.Keys - todo))
      decreases todo
    {
      NonEmpty(todo);
      var k :| k in todo;
      TotalStep(m, m.Keys - todo, k);
      assert (m.Keys - todo) + {k} == m.Keys - (todo - {k});
      total := total + m[k];
      todo := todo - {k};
    }
    assert Restrict(m, m.Keys - todo) == m;
  }
}
