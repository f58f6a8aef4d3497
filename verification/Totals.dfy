/** Sums over the rows of a table, and how one row more, one row less or one changed row moves them. */
module Totals {
  ghost function Total<K, V>(rows: map<K, V>, f: V -> int): int
    decreases rows.Keys
  {
    if rows.Keys == {} then 0
    else
      var k :| k in rows.Keys;
      f(rows[k]) + Total(rows - {k}, f)
  }

  lemma {:induction false} TotalWithout<K, V>(rows: map<K, V>, f: V -> int, k: K)
    requires k in rows
    ensures Total(rows, f) == f(rows[k]) + Total(rows - {k}, f)
    decreases rows.Keys
  {
    var j :| j in rows.Keys && Total(rows, f) == f(rows[j]) + Total(rows - {j}, f);
    if j != k {
      TotalWithout(rows - {j}, f, k);
      TotalWithout(rows - {k}, f, j);
      assert rows - {j} - {k} == rows - {k} - {j};
    }
  }

  /** One row inserted or overwritten. */
  lemma TotalPut<K, V>(rows: map<K, V>, f: V -> int, k: K, v: V)
    ensures Total(rows[k := v], f) == Total(rows, f) + f(v) - (if k in rows then f(rows[k]) else 0)
  {
    TotalWithout(rows[k := v], f, k);
    assert rows[k := v] - {k} == rows - {k};
    if k in rows {
      TotalWithout(rows, f, k);
    } else {
      assert rows - {k} == rows;
    }
  }

  /** Rows that count for nothing may go. */
  lemma {:induction false} TotalDrop<K, V>(rows: map<K, V>, f: V -> int, gone: set<K>)
    requires forall k :: k in rows && k in gone ==> f(rows[k]) == 0
    ensures Total(rows - gone, f) == Total(rows, f)
    decreases rows.Keys
  {
    if k :| k in rows && k in gone {
      TotalWithout(rows, f, k);
      TotalDrop(rows - {k}, f, gone);
      assert rows - {k} - gone == rows - gone;
    } else {
      assert rows - gone == rows;
    }
  }

  lemma {:induction false} TotalAtLeast<K, V>(rows: map<K, V>, f: V -> int)
    requires forall k :: k in rows ==> f(rows[k]) >= 0
    ensures Total(rows, f) >= 0
    ensures forall k :: k in rows ==> f(rows[k]) <= Total(rows, f)
    decreases rows.Keys
  {
    forall k | k in rows
      ensures f(rows[k]) <= Total(rows, f)
    {
      TotalWithout(rows, f, k);
      TotalAtLeast(rows - {k}, f);
    }
  }

  lemma {:induction false} TotalWitness<K, V>(rows: map<K, V>, f: V -> int) returns (k: K)
    requires Total(rows, f) > 0
    ensures k in rows && f(rows[k]) > 0
    decreases rows.Keys
  {
    k :| k in rows.Keys && Total(rows, f) == f(rows[k]) + Total(rows - {k}, f);
    if f(rows[k]) <= 0 {
      k := TotalWitness(rows - {k}, f);
    }
  }
}
