/**
 * The SQL tables behind the routes, as in-memory sequences of rows with an
 * AUTO_INCREMENT primary key, and the query shapes the routes use:
 * WHERE filters, ORDER BY ... DESC, DELETE and UPDATE with a WHERE clause.
 */
module Tables {
  import opened Wrappers

  /** A row: its primary key and its other columns. */
  datatype Row<R> = Row(id: nat, data: R)

  /** Primary keys strictly increase along the table, so no two rows share one. */
  ghost predicate IdsAscending<R>(rows: seq<Row<R>>)
  {
    forall i, j :: 0 <= i < j < |rows| ==> rows[i].id < rows[j].id
  }

  /** `WHERE p`, keeping the table's order. */
  function Filter<T>(s: seq<T>, p: T -> bool): (r: seq<T>)
    ensures |r| <= |s|
    ensures forall i :: 0 <= i < |r| ==> r[i] in s && p(r[i])
    ensures forall i :: 0 <= i < |s| && p(s[i]) ==> s[i] in r
    ensures (forall i :: 0 <= i < |s| ==> p(s[i])) ==> r == s
  {
    if s == [] then []
    else if p(s[0]) then [s[0]] + Filter(s[1..], p)
    else Filter(s[1..], p)
  }

  /** A row appended to the table is appended to the filter when it matches. */
  lemma {:induction false} FilterAppend<T>(s: seq<T>, x: T, p: T -> bool)
    ensures Filter(s + [x], p) == Filter(s, p) + (if p(x) then [x] else [])
  {
    if s == [] {
      assert s + [x] == [x];
    } else {
      assert (s + [x])[1..] == s[1..] + [x];
      FilterAppend(s[1..], x, p);
    }
  }

  /** The complement of a condition: `WHERE NOT p`. */
  function Not<T>(p: T -> bool): T -> bool
  {
    x => !p(x)
  }

  /** How many rows satisfy `p`: the `affectedRows` of a DELETE or UPDATE. */
  function Count<T>(s: seq<T>, p: T -> bool): (n: nat)
    ensures n <= |s|
    ensures n == 0 <==> forall i :: 0 <= i < |s| ==> !p(s[i])
  {
    if s == [] then 0
    else (if p(s[0]) then 1 else 0) + Count(s[1..], p)
  }

  /** A filter keeps the rows that match and drops the others: the two parts add up. */
  lemma {:induction false} FilterCount<T>(s: seq<T>, p: T -> bool)
    ensures |Filter(s, p)| == Count(s, p)
    ensures |Filter(s, Not(p))| == |s| - Count(s, p)
  {
    if s != [] {
      FilterCount(s[1..], p);
    }
  }

  /** Filtering keeps the relative order, so ascending keys stay ascending. */
  lemma {:induction false} FilterAscending<R>(rows: seq<Row<R>>, p: Row<R> -> bool)
    requires IdsAscending(rows)
    ensures IdsAscending(Filter(rows, p))
  {
    if rows != [] {
      AscendingTail(rows);
      FilterAscending(rows[1..], p);
      FilterAbove(rows[1..], p, rows[0].id);
      if p(rows[0]) {
        AscendingCons(rows[0], Filter(rows[1..], p));
      }
    }
  }

  /** The rows after the first keep ascending keys, all above the first key. */
  lemma AscendingTail<R>(rows: seq<Row<R>>)
    requires rows != [] && IdsAscending(rows)
    ensures IdsAscending(rows[1..]) && forall i :: 0 <= i < |rows[1..]| ==> rows[0].id < rows[1..][i].id
  {
    var tail := rows[1..];
    forall i, j | 0 <= i < j < |tail| ensures tail[i].id < tail[j].id {
      assert tail[i] == rows[i + 1] && tail[j] == rows[j + 1];
    }
    forall i | 0 <= i < |tail| ensures rows[0].id < tail[i].id {
      assert tail[i] == rows[i + 1];
    }
  }

  /** A row whose key is below all of ascending rows can go in front of them. */
  lemma AscendingCons<R>(x: Row<R>, rest: seq<Row<R>>)
    requires IdsAscending(rest) && forall i :: 0 <= i < |rest| ==> x.id < rest[i].id
    ensures IdsAscending([x] + rest)
  {
    var r := [x] + rest;
    forall i, j | 0 <= i < j < |r| ensures r[i].id < r[j].id {
      assert r[j] == rest[j - 1];
      if i > 0 {
        assert r[i] == rest[i - 1];
      }
    }
  }

  /** A bound below every key is a bound below every key the filter keeps. */
  lemma {:induction false} FilterAbove<R>(rows: seq<Row<R>>, p: Row<R> -> bool, bound: nat)
    requires forall i :: 0 <= i < |rows| ==> bound < rows[i].id
    ensures forall i :: 0 <= i < |Filter(rows, p)| ==> bound < Filter(rows, p)[i].id
  {
    if rows != [] {
      FilterAbove(rows[1..], p, bound);
    }
  }

  /** With distinct keys, a condition that fixes the key matches at most one row. */
  lemma {:induction false} AtMostOneWithId<R>(rows: seq<Row<R>>, id: nat, p: Row<R> -> bool)
    requires IdsAscending(rows)
    requires forall r :: p(r) ==> r.id == id
    ensures Count(rows, p) <= 1
  {
    if rows != [] {
      AtMostOneWithId(rows[1..], id, p);
      if p(rows[0]) {
        assert forall i :: 0 <= i < |rows[1..]| ==> rows[1..][i].id > id;
      }
    }
  }

  /** `UPDATE ... SET f WHERE p`: matching rows are rewritten, keys and order kept. */
  function Updated<R>(rows: seq<Row<R>>, p: Row<R> -> bool, f: R -> R): (r: seq<Row<R>>)
    ensures |r| == |rows|
    ensures forall i :: 0 <= i < |rows| ==> r[i].id == rows[i].id
    ensures forall i :: 0 <= i < |rows| ==> r[i] == if p(rows[i]) then Row(rows[i].id, f(rows[i].data)) else rows[i]
  {
    if rows == [] then []
    else [if p(rows[0]) then Row(rows[0].id, f(rows[0].data)) else rows[0]] + Updated(rows[1..], p, f)
  }

  // ---------------------------------------------------------------- ORDER BY ... DESC

  /**
   * The order of ORDER BY k DESC between two keys, NULL (None) being MySQL's
   * lowest value and therefore last.
   */
  predicate AtLeast(a: Option<int>, b: Option<int>)
  {
    match (a, b)
    case (Some(x), Some(y)) => x >= y
    case (Some(_), None) => true
    case (None, None) => true
    case (None, Some(_)) => false
  }

  ghost predicate Descending<T>(s: seq<T>, key: T -> Option<int>)
  {
    forall i, j :: 0 <= i < j < |s| ==> AtLeast(key(s[i]), key(s[j]))
  }

  /** Places `x` before the first element it is not below. */
  function InsertDesc<T>(x: T, s: seq<T>, key: T -> Option<int>): (r: seq<T>)
    ensures multiset(r) == multiset(s) + multiset{x}
  {
    if s == [] then [x]
    else if AtLeast(key(x), key(s[0])) then [x] + s
    else
      var rest := InsertDesc(x, s[1..], key);
      assert s == [s[0]] + s[1..];
      [s[0]] + rest
  }

  /** A key at least every key of `s` and that of `x` is at least every key after inserting `x`. */
  lemma {:induction false} InsertDescBound<T>(x: T, s: seq<T>, key: T -> Option<int>, b: Option<int>)
    requires AtLeast(b, key(x))
    requires forall i :: 0 <= i < |s| ==> AtLeast(b, key(s[i]))
    ensures forall i :: 0 <= i < |InsertDesc(x, s, key)| ==> AtLeast(b, key(InsertDesc(x, s, key)[i]))
  {
    if s != [] && !AtLeast(key(x), key(s[0])) {
      InsertDescBound(x, s[1..], key, b);
    }
  }

  /** The DESC order is transitive. */
  lemma AtLeastTrans(a: Option<int>, b: Option<int>, c: Option<int>)
    requires AtLeast(a, b) && AtLeast(b, c)
    ensures AtLeast(a, c)
  {
  }

  /** The rest of a descending sequence is descending and bounded by its first key. */
  lemma DescendingTail<T>(s: seq<T>, key: T -> Option<int>)
    requires s != [] && Descending(s, key)
    ensures Descending(s[1..], key)
    ensures forall i :: 0 <= i < |s[1..]| ==> AtLeast(key(s[0]), key(s[1..][i]))
  {
    var t := s[1..];
    forall i, j | 0 <= i < j < |t| ensures AtLeast(key(t[i]), key(t[j])) {
      assert t[i] == s[i + 1] && t[j] == s[j + 1];
    }
    forall i | 0 <= i < |t| ensures AtLeast(key(s[0]), key(t[i])) {
      assert t[i] == s[i + 1];
    }
  }

  /** An element at least every key of a descending sequence can go in front of it. */
  lemma DescendingCons<T>(x: T, s: seq<T>, key: T -> Option<int>)
    requires Descending(s, key) && forall i :: 0 <= i < |s| ==> AtLeast(key(x), key(s[i]))
    ensures Descending([x] + s, key)
  {
    var r := [x] + s;
    forall i, j | 0 <= i < j < |r| ensures AtLeast(key(r[i]), key(r[j])) {
      assert r[j] == s[j - 1];
      if i > 0 {
        assert r[i] == s[i - 1];
      }
    }
  }

  /** Inserting into a descending sequence keeps it descending. */
  lemma {:induction false} InsertDescSorted<T>(x: T, s: seq<T>, key: T -> Option<int>)
    requires Descending(s, key)
    ensures Descending(InsertDesc(x, s, key), key)
  {
    if s == [] {
    } else if AtLeast(key(x), key(s[0])) {
      DescendingTail(s, key);
      forall i | 0 <= i < |s| ensures AtLeast(key(x), key(s[i])) {
        if i > 0 {
          assert s[i] == s[1..][i - 1];
          AtLeastTrans(key(x), key(s[0]), key(s[i]));
        }
      }
      DescendingCons(x, s, key);
    } else {
      DescendingTail(s, key);
      InsertDescSorted(x, s[1..], key);
      InsertDescBound(x, s[1..], key, key(s[0]));
      DescendingCons(s[0], InsertDesc(x, s[1..], key), key);
    }
  }

  /**
   * The rows in ORDER BY key DESC. SQL leaves the order of equal keys open;
   * this one keeps their table order.
   */
  function SortDesc<T>(s: seq<T>, key: T -> Option<int>): (r: seq<T>)
    ensures multiset(r) == multiset(s)
    ensures Descending(r, key)
  {
    if s == [] then []
    else
      assert s == [s[0]] + s[1..];
      var sorted := SortDesc(s[1..], key);
      InsertDescSorted(s[0], sorted, key);
      InsertDesc(s[0], sorted, key)
  }

  /** `WHERE p ORDER BY key DESC`: exactly the matching rows, newest (largest key) first. */
  function Select<T>(s: seq<T>, p: T -> bool, key: T -> Option<int>): (r: seq<T>)
    ensures multiset(r) == multiset(Filter(s, p))
    ensures forall i :: 0 <= i < |r| ==> r[i] in s && p(r[i])
    ensures forall i :: 0 <= i < |s| && p(s[i]) ==> s[i] in r
    ensures Descending(r, key)
  {
    var f := Filter(s, p);
    var r := SortDesc(f, key);
    forall i | 0 <= i < |r| ensures r[i] in f {
      assert r[i] in multiset(r);
    }
    forall i | 0 <= i < |s| && p(s[i]) ensures s[i] in r {
      assert s[i] in multiset(f);
    }
    r
  }

  // ---------------------------------------------------------------- the table

  /** One table: its rows in insertion order and the next AUTO_INCREMENT value. */
  class Table<R> {
    var rows: seq<Row<R>>
    var nextId: nat

    ghost predicate Valid()
      reads this
    {
      && 1 <= nextId
      && IdsAscending(rows)
      && forall i :: 0 <= i < |rows| ==> 1 <= rows[i].id < nextId
    }

    /** An empty table; MySQL starts AUTO_INCREMENT at 1. */
    constructor ()
      ensures Valid() && rows == [] && nextId == 1
    {
      rows := [];
      nextId := 1;
    }

    /** INSERT: one row at the end, keyed by the next AUTO_INCREMENT value (`insertId`). */
    method Insert(data: R) returns (id: nat)
      requires Valid()
      modifies this
      ensures Valid()
      ensures id == old(nextId) && nextId == id + 1
      ensures rows == old(rows) + [Row(id, data)]
    {
      id := nextId;
      rows := rows + [Row(id, data)];
      nextId := nextId + 1;
    }

    /** DELETE ... WHERE p: drops exactly the matching rows and reports how many. */
    method DeleteWhere(p: Row<R> -> bool) returns (affected: nat)
      requires Valid()
      modifies this
      ensures Valid() && nextId == old(nextId)
      ensures rows == Filter(old(rows), Not(p))
      ensures affected == Count(old(rows), p)
    {
      FilterAscending(rows, Not(p));
      FilterCount(rows, p);
      affected := Count(rows, p);
      rows := Filter(rows, Not(p));
    }

    /** UPDATE ... SET f WHERE p. */
    method UpdateWhere(p: Row<R> -> bool, f: R -> R)
      requires Valid()
      modifies this
      ensures Valid() && nextId == old(nextId)
      ensures rows == Updated(old(rows), p, f)
    {
      rows := Updated(rows, p, f);
    }
  }
}
