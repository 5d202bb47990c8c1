/**
 * One partition of a wide-column table: the rows that share a partition key,
 * kept by the storage engine in strictly ascending order of their clustering
 * key. An INSERT is an upsert: the row lands at the position of its clustering
 * key, replacing the row that already has that key.
 */
module Partitions {

  /** `less` is a strict total order on `K`. */
  ghost predicate StrictTotalOrder<K(!new)>(less: (K, K) -> bool)
  {
    && (forall a :: !less(a, a))
    && (forall a, b, c :: less(a, b) && less(b, c) ==> less(a, c))
    && (forall a, b :: a == b || less(a, b) || less(b, a))
  }

  /** The rows are in strictly ascending clustering-key order, so no key occurs twice. */
  ghost predicate Sorted<K, R>(rows: seq<R>, key: R -> K, less: (K, K) -> bool)
  {
    forall i, j :: 0 <= i < j < |rows| ==> less(key(rows[i]), key(rows[j]))
  }

  /** The partition after an INSERT of `row`. */
  function Upsert<K(==), R>(rows: seq<R>, row: R, key: R -> K, less: (K, K) -> bool): (r: seq<R>)
    ensures |rows| <= |r| <= |rows| + 1
    ensures row in r
  {
    if rows == [] then [row]
    else if key(row) == key(rows[0]) then [row] + rows[1..]
    else if less(key(row), key(rows[0])) then [row] + rows
    else [rows[0]] + Upsert(rows[1..], row, key, less)
  }

  /** The partition as the map from clustering key to row that a point lookup sees. */
  function AsMap<K(==), R>(rows: seq<R>, key: R -> K): map<K, R>
  {
    if rows == [] then map[] else AsMap(rows[1..], key)[key(rows[0]) := rows[0]]
  }

  /** Every row of the partition is in the map under its own key, and the map holds nothing else. */
  lemma {:induction false} AsMapContents<K, R>(rows: seq<R>, key: R -> K)
    ensures forall x :: x in rows ==> key(x) in AsMap(rows, key)
    ensures forall k :: k in AsMap(rows, key) ==> AsMap(rows, key)[k] in rows && key(AsMap(rows, key)[k]) == k
  {
    if rows != [] {
      AsMapContents(rows[1..], key);
      assert forall x :: x in rows ==> x == rows[0] || x in rows[1..];
    }
  }

  /** In a sorted partition the map sees every row: the row stored under a row's key is that row. */
  lemma {:induction false} SortedAsMap<K(!new), R>(rows: seq<R>, key: R -> K, less: (K, K) -> bool)
    requires StrictTotalOrder(less)
    requires Sorted(rows, key, less)
    ensures forall x :: x in rows ==> key(x) in AsMap(rows, key) && AsMap(rows, key)[key(x)] == x
  {
    if rows != [] {
      SortedTail(rows, key, less);
      SortedAsMap(rows[1..], key, less);
      assert forall x :: x in rows ==> x == rows[0] || x in rows[1..];
    }
  }

  /** After an INSERT every row other than the inserted one was there before. */
  lemma {:induction false} UpsertElements<K, R>(rows: seq<R>, row: R, key: R -> K, less: (K, K) -> bool)
    ensures forall x :: x in Upsert(rows, row, key, less) ==> x == row || x in rows
  {
    if rows != [] && key(row) != key(rows[0]) && !less(key(row), key(rows[0])) {
      UpsertElements(rows[1..], row, key, less);
      assert forall x :: x in rows[1..] ==> x in rows;
    }
  }

  /** The rows after the first of a sorted partition are sorted, and all have larger keys than the first. */
  lemma SortedTail<K, R>(rows: seq<R>, key: R -> K, less: (K, K) -> bool)
    requires Sorted(rows, key, less)
    requires rows != []
    ensures Sorted(rows[1..], key, less)
    ensures forall y :: y in rows[1..] ==> less(key(rows[0]), key(y))
  {
    var tail := rows[1..];
    forall i, j | 0 <= i < j < |tail| ensures less(key(tail[i]), key(tail[j])) {
      assert tail[i] == rows[i + 1] && tail[j] == rows[j + 1];
    }
    forall y | y in tail ensures less(key(rows[0]), key(y)) {
      var m :| 0 <= m < |tail| && tail[m] == y;
      assert rows[m + 1] == y;
    }
  }

  /** A row with a smaller key than every row of a sorted partition can go in front of it. */
  lemma SortedCons<K, R>(x: R, rest: seq<R>, key: R -> K, less: (K, K) -> bool)
    requires Sorted(rest, key, less)
    requires forall y :: y in rest ==> less(key(x), key(y))
    ensures Sorted([x] + rest, key, less)
  {
    var r := [x] + rest;
    forall i, j | 0 <= i < j < |r| ensures less(key(r[i]), key(r[j])) {
      assert r[j] == rest[j - 1];
      if i > 0 {
        assert r[i] == rest[i - 1];
      } else {
        assert rest[j - 1] in rest;
      }
    }
  }

  /** An INSERT keeps the partition in clustering order. */
  lemma {:induction false} UpsertSorted<K(!new), R>(rows: seq<R>, row: R, key: R -> K, less: (K, K) -> bool)
    requires StrictTotalOrder(less)
    requires Sorted(rows, key, less)
    ensures Sorted(Upsert(rows, row, key, less), key, less)
  {
    if rows != [] {
      SortedTail(rows, key, less);
      var tail := rows[1..];
      if key(row) == key(rows[0]) {
        SortedCons(row, tail, key, less);
      } else if less(key(row), key(rows[0])) {
        assert forall y :: y in rows ==> y == rows[0] || y in tail;
        SortedCons(row, rows, key, less);
      } else {
        UpsertSorted(tail, row, key, less);
        UpsertElements(tail, row, key, less);
        SortedCons(rows[0], Upsert(tail, row, key, less), key, less);
      }
    }
  }

  /** A point lookup after the INSERT sees the new row under its key and every other key unchanged. */
  lemma {:induction false} UpsertAsMap<K, R>(rows: seq<R>, row: R, key: R -> K, less: (K, K) -> bool)
    ensures AsMap(Upsert(rows, row, key, less), key) == AsMap(rows, key)[key(row) := row]
  {
    if rows == [] {
    } else if key(row) == key(rows[0]) {
      assert ([row] + rows[1..])[1..] == rows[1..];
    } else if less(key(row), key(rows[0])) {
      assert ([row] + rows)[1..] == rows;
    } else {
      var u := Upsert(rows[1..], row, key, less);
      assert ([rows[0]] + u)[1..] == u;
      UpsertAsMap(rows[1..], row, key, less);
      assert AsMap(rows[1..], key)[key(row) := row][key(rows[0]) := rows[0]]
          == AsMap(rows[1..], key)[key(rows[0]) := rows[0]][key(row) := row];
    }
  }

  /** An INSERT under a key the partition does not hold adds one row; under a key it holds, it adds none. */
  lemma {:induction false} UpsertLength<K(!new), R>(rows: seq<R>, row: R, key: R -> K, less: (K, K) -> bool)
    requires StrictTotalOrder(less)
    requires Sorted(rows, key, less)
    ensures |Upsert(rows, row, key, less)| == if key(row) in AsMap(rows, key) then |rows| else |rows| + 1
  {
    if rows != [] {
      SortedTail(rows, key, less);
      AsMapContents(rows[1..], key);
      if key(row) != key(rows[0]) && !less(key(row), key(rows[0])) {
        UpsertLength(rows[1..], row, key, less);
      }
    }
  }
}
