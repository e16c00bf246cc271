/**
 * The tabular data a session works on: the header row and the data rows of a
 * `;`-separated file as the parser hands them over, plus the two pieces of
 * sequence arithmetic the session needs (subsequences, for "filtering only
 * narrows", and Python list indexing, for resolving a clicked heading).
 */
module Tables {

  datatype Option<+T> = None | Some(value: T)

  /** A table as read: column names in file order and rows of cells in file order. */
  datatype RawTable = RawTable(columns: seq<string>, rows: seq<seq<string>>)

  /**
   * What the parser guarantees of every table it returns: each row has one
   * cell per column, and column names are distinct (duplicate headers are
   * renamed by the parser).
   */
  predicate WellFormed(t: RawTable) {
    (forall i :: 0 <= i < |t.rows| ==> |t.rows[i]| == |t.columns|) &&
    (forall i, j :: 0 <= i < j < |t.columns| ==> t.columns[i] != t.columns[j])
  }

  type Table = t: RawTable | WellFormed(t) witness RawTable([], [])

  // ---------------------------------------------------------------------
  // Subsequences

  /** `s` is obtained from `t` by deleting zero or more elements, keeping order. */
  ghost predicate IsSubsequence<T>(s: seq<T>, t: seq<T>)
    decreases |t|
  {
    s == [] ||
    (t != [] && (IsSubsequence(s, t[1..]) || (s[0] == t[0] && IsSubsequence(s[1..], t[1..]))))
  }

  lemma {:induction false} SubsequenceReflexive<T>(s: seq<T>)
    ensures IsSubsequence(s, s)
    decreases |s|
  {
    if s != [] {
      SubsequenceReflexive(s[1..]);
    }
  }

  lemma {:induction false} SubsequenceTransitive<T>(a: seq<T>, b: seq<T>, c: seq<T>)
    requires IsSubsequence(a, b) && IsSubsequence(b, c)
    ensures IsSubsequence(a, c)
    decreases |c|
  {
    if a != [] {
      assert b != [] && c != [];
      if IsSubsequence(b, c[1..]) {
        SubsequenceTransitive(a, b, c[1..]);
      } else {
        assert b[0] == c[0] && IsSubsequence(b[1..], c[1..]);
        if IsSubsequence(a, b[1..]) {
          SubsequenceTransitive(a, b[1..], c[1..]);
        } else {
          SubsequenceTransitive(a[1..], b[1..], c[1..]);
        }
      }
    }
  }

  /** A subsequence is no longer than the sequence and draws its elements from it. */
  lemma {:induction false} SubsequenceBounds<T>(s: seq<T>, t: seq<T>)
    requires IsSubsequence(s, t)
    ensures |s| <= |t|
    ensures forall x :: x in s ==> x in t
    decreases |t|
  {
    if s != [] {
      if IsSubsequence(s, t[1..]) {
        SubsequenceBounds(s, t[1..]);
      } else {
        SubsequenceBounds(s[1..], t[1..]);
        assert s == [s[0]] + s[1..];
      }
    }
  }

  // ---------------------------------------------------------------------
  // Python list indexing

  /**
   * The position `xs[i]` denotes in a Python list of length `n`: a
   * non-negative index counts from the front, a negative one from the back,
   * and anything below `-n` or from `n` on raises IndexError (None here).
   */
  function PyIndex(n: nat, i: int): (r: Option<nat>)
    ensures r.Some? <==> 0 <= n + i && i < n
    ensures r.Some? ==> r.value < n && (r.value - i) % n == 0
  {
    if 0 <= i < n then Some(i)
    else if 0 <= n + i && i < 0 then Some(n + i)
    else None
  }

  // ---------------------------------------------------------------------
  // Columns

  /** The position of a column name in the header. */
  function IndexOf(columns: seq<string>, name: string): (k: nat)
    requires name in columns
    ensures k < |columns| && columns[k] == name
    ensures forall j :: 0 <= j < k ==> columns[j] != name
  {
    if columns[0] == name then 0 else 1 + IndexOf(columns[1..], name)
  }

  /** The cells of the named column, one per row, in row order. */
  function ColumnCells(t: Table, name: string): (cells: seq<string>)
    requires name in t.columns
    ensures |cells| == |t.rows|
    ensures forall i, k :: 0 <= i < |cells| && 0 <= k < |t.columns| && t.columns[k] == name ==>
              cells[i] == t.rows[i][k]
  {
    var k := IndexOf(t.columns, name);
    seq(|t.rows|, i requires 0 <= i < |t.rows| => t.rows[i][k])
  }
}
