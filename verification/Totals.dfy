/** Sums over the rows of a table. */
module Totals {

  ghost function Sum<K, V>(rows: map<K, V>, weight: V -> int): int {
    if rows == map[] then 0
    else var k :| k in rows; weight(rows[k]) + Sum(rows - {k}, weight)
  }

  /** The sum does not depend on the order in which rows are taken. */
  lemma {:induction false} SumSplit<K, V>(rows: map<K, V>, k: K, weight: V -> int)
    requires k in rows
    ensures Sum(rows, weight) == weight(rows[k]) + Sum(rows - {k}, weight)
    decreases |rows|
  {
    var j :| j in rows && Sum(rows, weight) == weight(rows[j]) + Sum(rows - {j}, weight);
    if j != k {
      SumSplit(rows - {j}, k, weight);
      SumSplit(rows - {k}, j, weight);
      assert rows - {j} - {k} == rows - {k} - {j};
    }
  }

  lemma SumPut<K, V>(rows: map<K, V>, k: K, v: V, weight: V -> int)
    ensures Sum(rows[k := v], weight) == Sum(rows, weight) + weight(v) - if k in rows then weight(rows[k]) else 0
  {
    SumSplit(rows[k := v], k, weight);
    assert rows[k := v] - {k} == rows - {k};
    if k in rows {
      SumSplit(rows, k, weight);
    } else {
      assert rows - {k} == rows;
    }
  }

  lemma {:induction false} SumAlike<K, V>(a: map<K, V>, b: map<K, V>, weight: V -> int)
    requires a.Keys == b.Keys && forall k | k in a :: weight(a[k]) == weight(b[k])
    ensures Sum(a, weight) == Sum(b, weight)
    decreases |a|
  {
    if a != map[] {
      var k :| k in a && Sum(a, weight) == weight(a[k]) + Sum(a - {k}, weight);
      SumSplit(b, k, weight);
      SumAlike(a - {k}, b - {k}, weight);
    } else {
      assert b == map[];
    }
  }

  lemma {:induction false} SumNonnegative<K, V>(rows: map<K, V>, weight: V -> int)
    requires forall k | k in rows :: weight(rows[k]) >= 0
    ensures Sum(rows, weight) >= 0
    decreases |rows|
  {
    if rows != map[] {
      var k :| k in rows && Sum(rows, weight) == weight(rows[k]) + Sum(rows - {k}, weight);
      SumNonnegative(rows - {k}, weight);
    }
  }
}
