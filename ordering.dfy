/** The sort of `summary`: `sorted(progress, key=...)` on the percent
    (p[3]) or on the remaining count (p[4]). Python's `sorted` is a stable
    sort; it is modelled by insertion sort. */
module Ordering {
  import opened Wrappers
  import opened Records

  datatype SortKey = ByPercent | ByRemaining

  /** The `sortBy` argument: "percent" and "total" select a key; every other
      value selects none, and then nothing is printed. */
  function ParseSortBy(sortBy: string): (k: Option<SortKey>)
    ensures k == Some(ByPercent) <==> sortBy == "percent"
    ensures k == Some(ByRemaining) <==> sortBy == "total"
    ensures k == None <==> sortBy != "percent" && sortBy != "total"
  {
    if sortBy == "percent" then Some(ByPercent)
    else if sortBy == "total" then Some(ByRemaining)
    else None
  }

  function KeyOf(row: Row, key: SortKey): nat
  {
    match key
    case ByPercent => row.percent
    case ByRemaining => row.remaining
  }

  ghost predicate SortedBy(rows: seq<Row>, key: SortKey)
  {
    forall i, j :: 0 <= i < j < |rows| ==> KeyOf(rows[i], key) <= KeyOf(rows[j], key)
  }

  /** Places x in front of the first row whose key is not smaller than x's. */
  function Insert(x: Row, rows: seq<Row>, key: SortKey): seq<Row>
  {
    if rows == [] then [x]
    else if KeyOf(x, key) <= KeyOf(rows[0], key) then [x] + rows
    else [rows[0]] + Insert(x, rows[1..], key)
  }

  function SortRows(rows: seq<Row>, key: SortKey): seq<Row>
  {
    if rows == [] then [] else Insert(rows[0], SortRows(rows[1..], key), key)
  }

  lemma {:induction false} InsertPermutation(x: Row, rows: seq<Row>, key: SortKey)
    ensures multiset(Insert(x, rows, key)) == multiset(rows) + multiset{x}
  {
    if rows != [] && KeyOf(x, key) > KeyOf(rows[0], key) {
      InsertPermutation(x, rows[1..], key);
      assert rows == [rows[0]] + rows[1..];
    }
  }

  lemma {:induction false} InsertMembers(x: Row, rows: seq<Row>, key: SortKey, y: Row)
    requires y in Insert(x, rows, key)
    ensures y == x || y in rows
  {
    InsertPermutation(x, rows, key);
    assert y in multiset(rows) + multiset{x};
  }

  lemma {:induction false} InsertSorted(x: Row, rows: seq<Row>, key: SortKey)
    requires SortedBy(rows, key)
    ensures SortedBy(Insert(x, rows, key), key)
  {
    if rows != [] && KeyOf(x, key) > KeyOf(rows[0], key) {
      var head, rest := rows[0], rows[1..];
      var tail := Insert(x, rest, key);
      InsertSorted(x, rest, key);
      forall j | 0 <= j < |tail|
        ensures KeyOf(head, key) <= KeyOf(tail[j], key)
      {
        InsertMembers(x, rest, key, tail[j]);
        if tail[j] != x {
          var k :| 0 <= k < |rest| && rest[k] == tail[j];
          assert rows[k + 1] == tail[j];
        }
      }
      assert Insert(x, rows, key) == [head] + tail;
    }
  }

  /** The printed rows are a rearrangement of the progress rows... */
  lemma {:induction false} SortRowsPermutation(rows: seq<Row>, key: SortKey)
    ensures multiset(SortRows(rows, key)) == multiset(rows)
  {
    if rows != [] {
      SortRowsPermutation(rows[1..], key);
      InsertPermutation(rows[0], SortRows(rows[1..], key), key);
      assert rows == [rows[0]] + rows[1..];
    }
  }

  /** ... in non-decreasing order of the chosen key. */
  lemma {:induction false} SortRowsSorted(rows: seq<Row>, key: SortKey)
    ensures SortedBy(SortRows(rows, key), key)
  {
    if rows != [] {
      SortRowsSorted(rows[1..], key);
      InsertSorted(rows[0], SortRows(rows[1..], key), key);
    }
  }

  /** The rows whose key equals v, in their original order. */
  function WithKey(rows: seq<Row>, key: SortKey, v: nat): seq<Row>
  {
    if rows == [] then []
    else (if KeyOf(rows[0], key) == v then [rows[0]] else []) + WithKey(rows[1..], key, v)
  }

  lemma {:induction false} InsertWithKey(x: Row, rows: seq<Row>, key: SortKey, v: nat)
    ensures WithKey(Insert(x, rows, key), key, v)
         == (if KeyOf(x, key) == v then [x] else []) + WithKey(rows, key, v)
  {
    if rows == [] {
    } else if KeyOf(x, key) <= KeyOf(rows[0], key) {
      assert ([x] + rows)[1..] == rows;
    } else {
      InsertWithKey(x, rows[1..], key, v);
      assert ([rows[0]] + Insert(x, rows[1..], key))[1..] == Insert(x, rows[1..], key);
    }
  }

  /** The sort is stable: rows with equal keys keep their relative order, as
      with Python's `sorted`. */
  lemma {:induction false} SortRowsStable(rows: seq<Row>, key: SortKey, v: nat)
    ensures WithKey(SortRows(rows, key), key, v) == WithKey(rows, key, v)
  {
    if rows != [] {
      SortRowsStable(rows[1..], key, v);
      InsertWithKey(rows[0], SortRows(rows[1..], key), key, v);
    }
  }
}
