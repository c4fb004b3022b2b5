/**
 Sums of a weight over a list of rows, as a whole and per group. The ledger, the settlement
 summary, the outage buckets and the exposure breakdown all rest on one fact proved here:
 summing group by group over any duplicate-free list of groups that covers the rows is the
 same as summing row by row.
 */
module GroupedSums {
  import opened Common

  /** SQL `SUM(weight)` over all rows. */
  function Total<T>(rows: seq<T>, weight: T -> int): int {
    if rows == [] then 0
    else Total(rows[..|rows| - 1], weight) + weight(rows[|rows| - 1])
  }

  /** SQL `SUM(weight) WHERE key = k`. */
  function TotalFor<T, K(==)>(rows: seq<T>, key: T -> K, weight: T -> int, k: K): int {
    if rows == [] then 0
    else
      TotalFor(rows[..|rows| - 1], key, weight, k)
      + if key(rows[|rows| - 1]) == k then weight(rows[|rows| - 1]) else 0
  }

  /** The group totals of the listed groups, added up. */
  function TotalOfGroups<T, K(==)>(rows: seq<T>, key: T -> K, weight: T -> int, ks: seq<K>): int {
    if ks == [] then 0
    else
      TotalOfGroups(rows, key, weight, ks[..|ks| - 1]) + TotalFor(rows, key, weight, ks[|ks| - 1])
  }

  /** The weight that counts rows. */
  function One<T>(row: T): int {
    1
  }

  /** Every row belongs to one of the listed groups. */
  predicate Covers<T, K(==)>(rows: seq<T>, key: T -> K, ks: seq<K>) {
    forall i :: 0 <= i < |rows| ==> key(rows[i]) in ks
  }

  lemma {:induction false} TotalAppend<T>(rows: seq<T>, row: T, weight: T -> int)
    ensures Total(rows + [row], weight) == Total(rows, weight) + weight(row)
  {
    assert (rows + [row])[..|rows|] == rows;
  }

  lemma {:induction false} TotalForAppend<T, K>(rows: seq<T>, row: T, key: T -> K, weight: T -> int, k: K)
    ensures TotalFor(rows + [row], key, weight, k)
         == TotalFor(rows, key, weight, k) + if key(row) == k then weight(row) else 0
  {
    assert (rows + [row])[..|rows|] == rows;
  }

  lemma {:induction false} TotalConcat<T>(a: seq<T>, b: seq<T>, weight: T -> int)
    ensures Total(a + b, weight) == Total(a, weight) + Total(b, weight)
  {
    if b == [] {
      assert a + b == a;
    } else {
      var init := b[..|b| - 1];
      assert (a + b)[..|a + b| - 1] == a + init;
      TotalConcat(a, init, weight);
    }
  }

  lemma {:induction false} TotalForConcat<T, K>(a: seq<T>, b: seq<T>, key: T -> K, weight: T -> int, k: K)
    ensures TotalFor(a + b, key, weight, k) == TotalFor(a, key, weight, k) + TotalFor(b, key, weight, k)
  {
    if b == [] {
      assert a + b == a;
    } else {
      var init := b[..|b| - 1];
      assert (a + b)[..|a + b| - 1] == a + init;
      TotalForConcat(a, init, key, weight, k);
    }
  }

  lemma {:induction false} CountIsLength<T>(rows: seq<T>)
    ensures Total(rows, One) == |rows|
  {
    if rows == [] {
    } else {
      CountIsLength(rows[..|rows| - 1]);
    }
  }

  /** Groups that no row belongs to add nothing. */
  lemma {:induction false} EmptyGroups<T, K>(rows: seq<T>, key: T -> K, weight: T -> int, ks: seq<K>)
    requires rows == []
    ensures TotalOfGroups(rows, key, weight, ks) == 0
  {
    if ks == [] {
    } else {
      EmptyGroups(rows, key, weight, ks[..|ks| - 1]);
    }
  }

  /** One more row adds its weight once to the groups' sum, if its group is listed. */
  lemma {:induction false} GroupsAfterAppend<T, K>(rows: seq<T>, row: T, key: T -> K, weight: T -> int, ks: seq<K>)
    requires Distinct(ks)
    ensures TotalOfGroups(rows + [row], key, weight, ks)
         == TotalOfGroups(rows, key, weight, ks) + if key(row) in ks then weight(row) else 0
  {
    if ks == [] {
    } else {
      var init, last := ks[..|ks| - 1], ks[|ks| - 1];
      assert ks == init + [last];
      GroupsAfterAppend(rows, row, key, weight, init);
      TotalForAppend(rows, row, key, weight, last);
    }
  }

  /** Summing by group equals summing by row. */
  lemma {:induction false} PartitionTotal<T, K>(rows: seq<T>, key: T -> K, weight: T -> int, ks: seq<K>)
    requires Distinct(ks) && Covers(rows, key, ks)
    ensures TotalOfGroups(rows, key, weight, ks) == Total(rows, weight)
  {
    if rows == [] {
      EmptyGroups(rows, key, weight, ks);
    } else {
      var init, last := rows[..|rows| - 1], rows[|rows| - 1];
      assert rows == init + [last];
      PartitionTotal(init, key, weight, ks);
      GroupsAfterAppend(init, last, key, weight, ks);
    }
  }
}
