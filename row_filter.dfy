/**
 * The row filter: keep, in order, the rows in which at least one cell
 * matches the query. How a cell is rendered as text and how a query matches
 * it belong to the data-frame library (its `contains` test is a regular
 * expression search over the cell's string form), so both stay abstract
 * here, as a `Matcher`.
 */
module RowFilter {
  import opened Tables

  /**
   * The library's matching behaviour: whether a query is an acceptable
   * pattern at all, and whether a cell's string form matches it.
   */
  datatype Matcher = Matcher(compiles: string -> bool, cellMatches: (string, string) -> bool)

  /** Some cell of the row matches the query. */
  predicate RowMatches(row: seq<string>, query: string, m: Matcher) {
    exists i :: 0 <= i < |row| && m.cellMatches(row[i], query)
  }

  /** The rows that match, in their original order. */
  function FilterRows(rows: seq<seq<string>>, query: string, m: Matcher): (kept: seq<seq<string>>)
    ensures |kept| <= |rows|
    ensures forall row :: row in kept ==> row in rows && RowMatches(row, query, m)
  {
    if rows == [] then []
    else if RowMatches(rows[0], query, m) then [rows[0]] + FilterRows(rows[1..], query, m)
    else FilterRows(rows[1..], query, m)
  }

  /** The filtered table: same header, only the matching rows. */
  function FilterTable(t: Table, query: string, m: Matcher): (r: Table)
    ensures r.columns == t.columns
    ensures r.rows == FilterRows(t.rows, query, m)
  {
    var kept := FilterRows(t.rows, query, m);
    assert forall i :: 0 <= i < |kept| ==> |kept[i]| == |t.columns| by {
      forall i | 0 <= i < |kept| ensures |kept[i]| == |t.columns| {
        assert kept[i] in kept;
        var j :| 0 <= j < |t.rows| && t.rows[j] == kept[i];
      }
    }
    RawTable(t.columns, kept)
  }

  /** Every matching row is kept: with the contract of FilterRows, a row is kept iff it is present and matches. */
  lemma {:induction false} FilterRowsComplete(rows: seq<seq<string>>, query: string, m: Matcher, row: seq<string>)
    requires row in rows && RowMatches(row, query, m)
    ensures row in FilterRows(rows, query, m)
  {
    if rows[0] != row {
      FilterRowsComplete(rows[1..], query, m, row);
    }
  }

  /** The filter keeps each matching row as often as it occurs and drops every other row. */
  lemma {:induction false} FilterRowsCount(rows: seq<seq<string>>, query: string, m: Matcher, row: seq<string>)
    ensures multiset(FilterRows(rows, query, m))[row] ==
            if RowMatches(row, query, m) then multiset(rows)[row] else 0
  {
    if rows != [] {
      FilterRowsCount(rows[1..], query, m, row);
      assert rows == [rows[0]] + rows[1..];
    }
  }

  /** The kept rows are a subsequence of the input rows: order is preserved and nothing is invented. */
  lemma {:induction false} FilterRowsSubsequence(rows: seq<seq<string>>, query: string, m: Matcher)
    ensures IsSubsequence(FilterRows(rows, query, m), rows)
  {
    if rows != [] {
      FilterRowsSubsequence(rows[1..], query, m);
      var rest := FilterRows(rows[1..], query, m);
      if RowMatches(rows[0], query, m) {
        var kept := [rows[0]] + rest;
        assert kept[1..] == rest;
      }
    }
  }

  /** No row is kept exactly when no row matches. */
  lemma {:induction false} FilterRowsEmpty(rows: seq<seq<string>>, query: string, m: Matcher)
    ensures FilterRows(rows, query, m) == [] <==>
            forall i :: 0 <= i < |rows| ==> !RowMatches(rows[i], query, m)
  {
    if FilterRows(rows, query, m) == [] {
      forall i | 0 <= i < |rows| ensures !RowMatches(rows[i], query, m) {
        if RowMatches(rows[i], query, m) {
          FilterRowsComplete(rows, query, m, rows[i]);
        }
      }
    } else {
      var first := FilterRows(rows, query, m)[0];
      assert first in rows && RowMatches(first, query, m);
      var i :| 0 <= i < |rows| && rows[i] == first;
    }
  }

  /** Filtering again with the same query changes nothing. */
  lemma {:induction false} FilterRowsIdempotent(rows: seq<seq<string>>, query: string, m: Matcher)
    ensures FilterRows(FilterRows(rows, query, m), query, m) == FilterRows(rows, query, m)
  {
    if rows != [] {
      FilterRowsIdempotent(rows[1..], query, m);
      var rest := FilterRows(rows[1..], query, m);
      if RowMatches(rows[0], query, m) {
        assert ([rows[0]] + rest)[0] == rows[0];
        assert ([rows[0]] + rest)[1..] == rest;
      }
    }
  }

  /** Two successive filters keep the same rows whichever query is applied first. */
  lemma {:induction false} FilterRowsCommute(rows: seq<seq<string>>, q1: string, q2: string, m: Matcher)
    ensures FilterRows(FilterRows(rows, q1, m), q2, m) == FilterRows(FilterRows(rows, q2, m), q1, m)
  {
    if rows != [] {
      FilterRowsCommute(rows[1..], q1, q2, m);
      var r1 := FilterRows(rows[1..], q1, m);
      var r2 := FilterRows(rows[1..], q2, m);
      assert ([rows[0]] + r1)[0] == rows[0] && ([rows[0]] + r1)[1..] == r1;
      assert ([rows[0]] + r2)[0] == rows[0] && ([rows[0]] + r2)[1..] == r2;
    }
  }
}
