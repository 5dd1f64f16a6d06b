/**
 * Generic operations on a table held as a sequence of rows, in rowid order.
 * They give the meaning of the SQL statements the trader issues: a
 * `SELECT ... fetchone()` is the first matching row, an `UPDATE ... WHERE`
 * rewrites every matching row, a `DELETE ... WHERE` keeps the others, and
 * `SUM` skips NULL terms and is NULL when no term is left.
 */
module Sql {
  import opened Wrappers

  /** Index of the first row satisfying `p` (what `fetchone` returns). */
  function FirstIndex<T>(s: seq<T>, p: T -> bool): (r: Option<nat>)
    ensures r.Some? ==> r.value < |s| && p(s[r.value])
    ensures r.Some? ==> forall j :: 0 <= j < r.value ==> !p(s[j])
    ensures r.None? ==> forall j :: 0 <= j < |s| ==> !p(s[j])
  {
    if s == [] then None
    else if p(s[0]) then Some(0)
    else match FirstIndex(s[1..], p)
      case None => None
      case Some(k) => Some(k + 1)
  }

  /** The first-match index is determined by the rows before it. */
  lemma FirstIndexIs<T>(s: seq<T>, p: T -> bool, k: nat)
    requires k < |s| && p(s[k])
    requires forall j :: 0 <= j < k ==> !p(s[j])
    ensures FirstIndex(s, p) == Some(k)
  {
  }

  /** Rows appended after a match do not move the first match. */
  lemma FirstIndexExtends<T>(s: seq<T>, s2: seq<T>, p: T -> bool)
    requires |s| <= |s2| && s2[..|s|] == s && FirstIndex(s, p).Some?
    ensures FirstIndex(s2, p) == FirstIndex(s, p)
  {
    var k := FirstIndex(s, p).value;
    assert forall j :: 0 <= j <= k ==> s2[j] == s[j];
    FirstIndexIs(s2, p, k);
  }

  /**
   * The rows satisfying `p`, in table order and each as often as it occurs.
   * The order and multiplicity are fixed by the definition itself, one row at a
   * time from the front; `WhereStep` states that step, and the `ensures` below
   * give the membership a join relies on.
   */
  function Where<T>(s: seq<T>, p: T -> bool): (r: seq<T>)
    ensures |r| <= |s|
    ensures forall i :: 0 <= i < |r| ==> p(r[i])
    ensures forall x {:trigger x in s} :: x in s && p(x) ==> x in r
    ensures forall x {:trigger x in r} :: x in r ==> x in s
  {
    if s == [] then []
    else
      var init, last := s[..|s| - 1], s[|s| - 1];
      assert forall x {:trigger x in s} :: x in s ==> x in init || x == last;
      Where(init, p) + (if p(last) then [last] else [])
  }

  /** Scanning one more row extends the selection by that row when it matches. */
  lemma WhereStep<T>(s: seq<T>, i: int, p: T -> bool)
    requires 0 <= i < |s|
    ensures Where(s[..i + 1], p) == Where(s[..i], p) + (if p(s[i]) then [s[i]] else [])
  {
    assert s[..i + 1][..i] == s[..i];
  }

  /** Number of rows satisfying `p` (the `rowcount` of an UPDATE). */
  function Count<T>(s: seq<T>, p: T -> bool): (n: nat)
    ensures n == 0 <==> forall i :: 0 <= i < |s| ==> !p(s[i])
    ensures n <= |s|
  {
    if s == [] then 0
    else (if p(s[0]) then 1 else 0) + Count(s[1..], p)
  }

  /** `UPDATE table SET ... WHERE p`: every matching row is rewritten by `f`. */
  function UpdateWhere<T>(s: seq<T>, p: T -> bool, f: T -> T): (r: seq<T>)
    ensures |r| == |s|
    ensures forall i :: 0 <= i < |s| ==> r[i] == if p(s[i]) then f(s[i]) else s[i]
  {
    seq(|s|, i requires 0 <= i < |s| => if p(s[i]) then f(s[i]) else s[i])
  }

  /** The complement of a row filter. */
  function Not<T>(p: T -> bool): T -> bool {
    x => !p(x)
  }

  /** `DELETE FROM table WHERE p`. */
  function DeleteWhere<T>(s: seq<T>, p: T -> bool): (r: seq<T>)
    ensures forall i :: 0 <= i < |r| ==> !p(r[i])
    ensures forall x {:trigger x in s} :: x in s && !p(x) ==> x in r
    ensures forall x {:trigger x in r} :: x in r ==> x in s
  {
    Where(s, Not(p))
  }

  /** Adding a finite value to a SUM accumulator that may still be NULL. */
  function AddTerm(acc: Option<real>, t: Option<real>): Option<real> {
    match t
    case None => acc
    case Some(v) => Some(acc.GetOr(0.0) + v)
  }

  /** SQL `SUM`: NULL terms are skipped; the sum of no value is NULL. */
  function SqlSum(terms: seq<Option<real>>): (r: Option<real>)
    ensures r.None? <==> forall i :: 0 <= i < |terms| ==> terms[i].None?
  {
    if terms == [] then None
    else AddTerm(SqlSum(terms[..|terms| - 1]), terms[|terms| - 1])
  }

  /** SQL `a / b` on REAL values: NULL when either side is NULL or `b` is 0. */
  function SqlDiv(a: Option<real>, b: Option<real>): (r: Option<real>)
    ensures r.Some? <==> a.Some? && b.Some? && b.value != 0.0
    ensures r.Some? ==> r.value * b.value == a.value
  {
    if a.Some? && b.Some? && b.value != 0.0 then Some(a.value / b.value) else None
  }

  /** SQL `a * b`: NULL when either side is NULL. */
  function SqlMul(a: Option<real>, b: Option<real>): (r: Option<real>)
    ensures r.Some? <==> a.Some? && b.Some?
  {
    if a.Some? && b.Some? then Some(a.value * b.value) else None
  }

  /** Truth of the SQL comparison `column = ?`: NULL equals nothing. */
  predicate SqlEq<T(==)>(column: Option<T>, param: Option<T>) {
    column.Some? && column == param
  }

  /** The sum of all values of a sequence of reals. */
  function Total(xs: seq<real>): real {
    if xs == [] then 0.0 else Total(xs[..|xs| - 1]) + xs[|xs| - 1]
  }

  /** The non-NULL values of a sequence of SQL values, in order. */
  function Present(terms: seq<Option<real>>): (r: seq<real>)
    ensures r == [] <==> forall i :: 0 <= i < |terms| ==> terms[i].None?
  {
    if terms == [] then []
    else
      var init := terms[..|terms| - 1];
      assert forall i :: 0 <= i < |init| ==> terms[i] == init[i];
      Present(init) + (if terms[|terms| - 1].Some? then [terms[|terms| - 1].value] else [])
  }

  /** SUM is NULL on no value, and otherwise the total of the non-NULL values. */
  lemma {:induction false} SqlSumIsTotal(terms: seq<Option<real>>)
    ensures SqlSum(terms) == if Present(terms) == [] then None else Some(Total(Present(terms)))
  {
    if terms != [] {
      var init, last := terms[..|terms| - 1], terms[|terms| - 1];
      SqlSumIsTotal(init);
      var p := Present(init);
      if last.Some? {
        var xs := p + [last.value];
        assert Present(terms) == xs;
        assert xs[..|xs| - 1] == p;
        assert Total(xs) == Total(p) + last.value;
        if p == [] {
          assert Total(p) == 0.0;
        }
      } else {
        assert Present(terms) == p + [];
        assert p + [] == p;
      }
    }
  }

  /** The terms a `SUM` over a join adds up: one per joined row, in table order. */
  function Terms<T>(rows: seq<T>, joins: T -> bool, term: T -> Option<real>): seq<Option<real>> {
    if rows == [] then []
    else
      var init, last := rows[..|rows| - 1], rows[|rows| - 1];
      Terms(init, joins, term) + (if joins(last) then [term(last)] else [])
  }

  /**
   * `SELECT SUM(term) FROM rows WHERE joins`: the joined rows' terms, NULL
   * ones skipped, folded in table order. A row dropped from a join and a row
   * whose term is NULL contribute alike.
   */
  function SumOver<T>(rows: seq<T>, joins: T -> bool, term: T -> Option<real>): (r: Option<real>)
    ensures r.None? <==> forall i :: 0 <= i < |rows| ==> !joins(rows[i]) || term(rows[i]).None?
  {
    if rows == [] then None
    else
      var init, last := rows[..|rows| - 1], rows[|rows| - 1];
      assert forall i :: 0 <= i < |init| ==> rows[i] == init[i];
      var acc := SumOver(init, joins, term);
      if joins(last) then AddTerm(acc, term(last)) else acc
  }

  /** The SUM over a join is SQL `SUM` of the joined rows' terms. */
  lemma {:induction false} SumOverIsSqlSum<T>(rows: seq<T>, joins: T -> bool, term: T -> Option<real>)
    ensures SumOver(rows, joins, term) == SqlSum(Terms(rows, joins, term))
  {
    if rows != [] {
      var init, last := rows[..|rows| - 1], rows[|rows| - 1];
      SumOverIsSqlSum(init, joins, term);
      var ts := Terms(init, joins, term);
      if joins(last) {
        assert (ts + [term(last)])[..|ts|] == ts;
      } else {
        assert ts + [] == ts;
      }
    }
  }

  /** A SUM over a join is NULL on no value, and otherwise the total of the joined rows' non-NULL terms. */
  lemma SumOverTotal<T>(rows: seq<T>, joins: T -> bool, term: T -> Option<real>)
    ensures var present := Present(Terms(rows, joins, term));
      SumOver(rows, joins, term) == if present == [] then None else Some(Total(present))
  {
    SumOverIsSqlSum(rows, joins, term);
    SqlSumIsTotal(Terms(rows, joins, term));
  }

  /** A row appended to the table adds its term when it joins and the term is not NULL; otherwise the SUM is unchanged. */
  lemma SumOverAppend<T>(rows: seq<T>, joins: T -> bool, term: T -> Option<real>, x: T)
    ensures SumOver(rows + [x], joins, term) ==
      if joins(x) && term(x).Some? then Some(SumOver(rows, joins, term).GetOr(0.0) + term(x).value)
      else SumOver(rows, joins, term)
  {
    assert (rows + [x])[..|rows|] == rows;
  }

  /** Two term functions that agree on every joined row give the same SUM. */
  lemma {:induction false} SumOverSameTerms<T>(rows: seq<T>, joins: T -> bool, term1: T -> Option<real>, term2: T -> Option<real>)
    requires forall i :: 0 <= i < |rows| && joins(rows[i]) ==> term1(rows[i]) == term2(rows[i])
    ensures SumOver(rows, joins, term1) == SumOver(rows, joins, term2)
  {
    if rows != [] {
      var init := rows[..|rows| - 1];
      assert forall i :: 0 <= i < |init| ==> rows[i] == init[i];
      SumOverSameTerms(init, joins, term1, term2);
    }
  }

  /** A sum of non-negative terms is non-negative (NULL read as 0). */
  lemma {:induction false} SumOverNonNegative<T>(rows: seq<T>, joins: T -> bool, term: T -> Option<real>)
    requires forall i :: 0 <= i < |rows| && joins(rows[i]) && term(rows[i]).Some? ==> term(rows[i]).value >= 0.0
    ensures SumOver(rows, joins, term).GetOr(0.0) >= 0.0
  {
    if rows != [] {
      var init := rows[..|rows| - 1];
      assert forall i :: 0 <= i < |init| ==> rows[i] == init[i];
      SumOverNonNegative(init, joins, term);
    }
  }

  /** Rows outside the join do not change the sum: filtering them out first gives the same SUM. */
  lemma {:induction false} SumOverWhere<T>(rows: seq<T>, keep: T -> bool, joins: T -> bool, term: T -> Option<real>)
    requires forall i :: 0 <= i < |rows| && joins(rows[i]) ==> keep(rows[i])
    ensures SumOver(Where(rows, keep), joins, term) == SumOver(rows, joins, term)
  {
    if rows != [] {
      var init, last := rows[..|rows| - 1], rows[|rows| - 1];
      assert forall i :: 0 <= i < |init| ==> rows[i] == init[i];
      SumOverWhere(init, keep, joins, term);
      var w := Where(init, keep);
      if keep(last) {
        assert Where(rows, keep) == w + [last];
        assert (w + [last])[..|w|] == w;
      } else {
        assert Where(rows, keep) == w + [];
        assert w + [] == w;
      }
    }
  }

  /** A sum of non-positive terms is non-positive (NULL read as 0). */
  lemma {:induction false} SumOverNonPositive<T>(rows: seq<T>, joins: T -> bool, term: T -> Option<real>)
    requires forall i :: 0 <= i < |rows| && joins(rows[i]) && term(rows[i]).Some? ==> term(rows[i]).value <= 0.0
    ensures SumOver(rows, joins, term).GetOr(0.0) <= 0.0
  {
    if rows != [] {
      var init := rows[..|rows| - 1];
      assert forall i :: 0 <= i < |init| ==> rows[i] == init[i];
      SumOverNonPositive(init, joins, term);
    }
  }

  /**
   * Dropping some non-positive terms from a sum (the narrower `term2` is
   * NULL where it differs from `term1`) can only raise it.
   */
  lemma {:induction false} SumOverDropNonPositive<T>(rows: seq<T>, joins: T -> bool, term1: T -> Option<real>, term2: T -> Option<real>)
    requires forall i :: 0 <= i < |rows| && joins(rows[i]) ==>
               term2(rows[i]) == term1(rows[i])
               || (term2(rows[i]).None? && (term1(rows[i]).Some? ==> term1(rows[i]).value <= 0.0))
    ensures SumOver(rows, joins, term1).GetOr(0.0) <= SumOver(rows, joins, term2).GetOr(0.0)
  {
    if rows != [] {
      var init := rows[..|rows| - 1];
      assert forall i :: 0 <= i < |init| ==> rows[i] == init[i];
      SumOverDropNonPositive(init, joins, term1, term2);
    }
  }

  /**
   * No two rows share a key; rows whose key is NULL (`None`) clash with
   * nothing, as NULL never equals anything in SQL.
   */
  ghost predicate Distinct<T, K>(rows: seq<T>, key: T -> Option<K>) {
    forall i, j :: 0 <= i < j < |rows| && key(rows[i]).Some? ==> key(rows[i]) != key(rows[j])
  }

  /** Filtering keeps keys distinct. */
  lemma {:induction false} DistinctWhere<T, K>(rows: seq<T>, p: T -> bool, key: T -> Option<K>)
    requires Distinct(rows, key)
    ensures Distinct(Where(rows, p), key)
  {
    if rows != [] {
      var init, last := rows[..|rows| - 1], rows[|rows| - 1];
      assert forall i :: 0 <= i < |init| ==> rows[i] == init[i];
      DistinctWhere(init, p, key);
      var w := Where(init, p);
      if p(last) {
        forall i | 0 <= i < |w|
          ensures key(w[i]).Some? ==> key(w[i]) != key(last)
          ensures key(last).Some? ==> key(w[i]) != key(last)
        {
          assert w[i] in w;
          var k :| 0 <= k < |init| && init[k] == w[i];
          assert rows[k] == w[i];
        }
        assert Where(rows, p) == w + [last];
      } else {
        assert Where(rows, p) == w + [];
      }
    }
  }

  /** DELETE keeps keys distinct. */
  lemma DistinctDelete<T, K>(rows: seq<T>, p: T -> bool, key: T -> Option<K>)
    requires Distinct(rows, key)
    ensures Distinct(DeleteWhere(rows, p), key)
  {
    DistinctWhere(rows, Not(p), key);
  }

  /** An UPDATE that leaves every key as it was keeps keys distinct. */
  lemma DistinctUpdate<T, K>(rows: seq<T>, p: T -> bool, f: T -> T, key: T -> Option<K>)
    requires Distinct(rows, key)
    requires forall i :: 0 <= i < |rows| && p(rows[i]) ==> key(f(rows[i])) == key(rows[i])
    ensures Distinct(UpdateWhere(rows, p, f), key)
  {
    var r := UpdateWhere(rows, p, f);
    assert forall i :: 0 <= i < |rows| ==> key(r[i]) == key(rows[i]);
  }

  /** An INSERT of a row whose key is NULL or new keeps keys distinct. */
  lemma DistinctAppend<T, K>(rows: seq<T>, x: T, key: T -> Option<K>)
    requires Distinct(rows, key)
    requires key(x).None? || forall i :: 0 <= i < |rows| ==> key(rows[i]) != key(x)
    ensures Distinct(rows + [x], key)
  {
  }

  /** Under distinct keys, two rows with the same non-NULL key are the same row. */
  lemma DistinctSameKey<T, K>(rows: seq<T>, key: T -> Option<K>, x: T, y: T)
    requires Distinct(rows, key) && x in rows && y in rows
    requires key(x).Some? && key(x) == key(y)
    ensures x == y
  {
    var i :| 0 <= i < |rows| && rows[i] == x;
    var j :| 0 <= j < |rows| && rows[j] == y;
  }

  /** An UPDATE confined to the rows of one key leaves the rows of every other key as they were. */
  lemma UpdateKeepsOtherKeys<T, K>(rows: seq<T>, p: T -> bool, f: T -> T, key: T -> Option<K>, k: K)
    requires forall i :: 0 <= i < |rows| && p(rows[i]) ==> key(rows[i]) == Some(k) && key(f(rows[i])) == Some(k)
    ensures forall x {:trigger x in rows} :: key(x) != Some(k) ==> (x in UpdateWhere(rows, p, f) <==> x in rows)
  {
    var r := UpdateWhere(rows, p, f);
    forall x | key(x) != Some(k)
      ensures x in r <==> x in rows
    {
      if x in rows {
        var i :| 0 <= i < |rows| && rows[i] == x;
        assert r[i] == x;
      }
      if x in r {
        var i :| 0 <= i < |r| && r[i] == x;
        assert rows[i] == x;
      }
    }
  }
}
