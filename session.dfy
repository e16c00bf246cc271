/**
 * The session behind the analysis window: the current (possibly filtered)
 * table, the snapshot taken at load, the selected column, the text of the
 * filter field and what the table widget shows. Each user action is a
 * method; instead of popping up a message box it returns the kind of notice
 * the window would show.
 */
module AppSession {
  import opened Tables
  import opened RowFilter

  /**
   * What the user sees after an action: nothing (Ok), an information,
   * warning or error box, or nothing because an exception escaped the event
   * handler (Uncaught; the toolkit reports it on the console and the state
   * is left as it was at the raise).
   */
  datatype Notice = Ok | Info | Warning | Error | Uncaught

  /** What the parser made of the chosen file. */
  datatype ParseResult = Parsed(table: Table) | ParseError(reason: string)

  /** The part of the table widget a click landed on. */
  datatype Region = Heading | Separator | TreeArea | Cell | Nothing

  class Session {
    /** The current view; None until the first successful load. */
    var data: Option<Table>
    /** The snapshot taken at the last successful load. */
    var originalData: Option<Table>
    /** The column whose heading was clicked last; None until the first click. */
    var selectedColumn: Option<string>
    /** The text of the filter field. */
    var filterValue: string
    /** The headings and rows the table widget displays. */
    var treeColumns: seq<string>
    var treeRows: seq<seq<string>>

    /**
     * Both tables exist from the first load on; the current view keeps the
     * snapshot's header and a subsequence of its rows; a column can only
     * have been selected once a table was shown; the widget shows the
     * current view.
     */
    ghost predicate Valid()
      reads this
    {
      (data.Some? <==> originalData.Some?) &&
      (data.Some? ==>
         data.value.columns == originalData.value.columns &&
         IsSubsequence(data.value.rows, originalData.value.rows)) &&
      (selectedColumn.Some? ==> data.Some?) &&
      treeColumns == (if data.Some? then data.value.columns else []) &&
      treeRows == (if data.Some? then data.value.rows else [])
    }

    constructor ()
      ensures Valid()
      ensures data == None && originalData == None && selectedColumn == None
      ensures filterValue == "" && treeColumns == [] && treeRows == []
    {
      data, originalData, selectedColumn := None, None, None;
      filterValue := "";
      treeColumns, treeRows := [], [];
    }

    /** Redraw the widget from the current view: headings first, then one line per row. */
    method ShowData()
      requires data.Some?
      modifies this`treeColumns, this`treeRows
      ensures treeColumns == data.value.columns
      ensures treeRows == data.value.rows
    {
      treeRows := [];
      treeColumns := data.value.columns;
      var rows := data.value.rows;
      for i := 0 to |rows|
        invariant treeColumns == data.value.columns
        invariant treeRows == rows[..i]
      {
        treeRows := treeRows + [rows[i]];
      }
    }

    /**
     * Load the file the dialog returned (`path`, empty when cancelled),
     * given what the parser made of it.
     */
    method Load(path: string, parsed: ParseResult) returns (notice: Notice)
      requires Valid()
      modifies this
      ensures Valid()
      ensures notice == (if path != "" && parsed.ParseError? then Error else Ok)
      ensures path != "" && parsed.Parsed? ==>
                data == Some(parsed.table) && originalData == Some(parsed.table)
      ensures path == "" || parsed.ParseError? ==>
                data == old(data) && originalData == old(originalData)
      ensures selectedColumn == old(selectedColumn) && filterValue == old(filterValue)
    {
      notice := Ok;
      if path != "" {
        match parsed
        case Parsed(t) =>
          data := Some(t);
          originalData := data;
          ShowData();
          SubsequenceReflexive(t.rows);
        case ParseError(_) =>
          notice := Error;
      }
    }

    /** A click on the table widget, already resolved to a region and the number `k` of the column id `#k`. */
    method ColumnClick(region: Region, k: int) returns (notice: Notice)
      requires Valid()
      modifies this`selectedColumn
      ensures Valid()
      ensures region != Heading ==> notice == Ok && selectedColumn == old(selectedColumn)
      ensures region == Heading ==>
                match PyIndex(|treeColumns|, k - 1)
                case Some(j) => notice == Info && selectedColumn == Some(treeColumns[j])
                case None => notice == Uncaught && selectedColumn == old(selectedColumn)
    {
      notice := Ok;
      if region == Heading {
        match PyIndex(|treeColumns|, k - 1)
        case Some(j) =>
          selectedColumn := Some(treeColumns[j]);
          notice := Info;
        case None =>
          notice := Uncaught;
      }
    }

    /** The user edits the filter field. */
    method SetFilterValue(text: string)
      requires Valid()
      modifies this`filterValue
      ensures Valid() && filterValue == text
    {
      filterValue := text;
    }

    /**
     * Apply the filter field's text to the current view. The snapshot, the
     * selection and the field are never touched; the view changes only when
     * some row matches.
     */
    method Filter(m: Matcher) returns (notice: Notice)
      requires Valid()
      modifies this`data, this`treeColumns, this`treeRows
      ensures Valid()
      ensures old(data) == None ==> notice == Error && data == None
      ensures old(data).Some? && filterValue == "" ==> notice == Warning && data == old(data)
      ensures old(data).Some? && filterValue != "" && old(data).value.rows != [] && !m.compiles(filterValue) ==>
                notice == Uncaught && data == old(data)
      ensures old(data).Some? && filterValue != "" && (old(data).value.rows == [] || m.compiles(filterValue)) ==>
                var kept := FilterRows(old(data).value.rows, filterValue, m);
                (kept == [] ==> notice == Info && data == old(data)) &&
                (kept != [] ==> notice == Ok && data == Some(FilterTable(old(data).value, filterValue, m)))
      ensures data.Some? ==> |data.value.rows| <= |old(data).value.rows|
      ensures data.Some? ==> IsSubsequence(data.value.rows, old(data).value.rows)
    {
      if data.None? {
        return Error;
      }
      var rows := data.value.rows;
      SubsequenceReflexive(rows);
      var query := filterValue;
      if query == "" {
        return Warning;
      }
      if rows != [] && !m.compiles(query) {
        return Uncaught;
      }
      var filtered := FilterTable(data.value, query, m);
      FilterRowsSubsequence(rows, query, m);
      if filtered.rows != [] {
        SubsequenceTransitive(filtered.rows, rows, originalData.value.rows);
        data := Some(filtered);
        ShowData();
        notice := Ok;
      } else {
        notice := Info;
      }
    }

    /** Restore the snapshot and clear the filter field; nothing happens before the first load. */
    method ResetFilter()
      requires Valid()
      modifies this`data, this`treeColumns, this`treeRows, this`filterValue
      ensures Valid()
      ensures originalData.Some? ==> data == originalData && filterValue == ""
      ensures originalData == None ==> data == old(data) && filterValue == old(filterValue)
    {
      if originalData.Some? {
        data := originalData;
        SubsequenceReflexive(data.value.rows);
        ShowData();
        filterValue := "";
      }
    }

    /**
     * The guard shared by the mean, minimum and maximum buttons.
     * `numericDtype` stands for the library's numeric coercion followed by its
     * numeric-type test over the selected column's cells; the reduction that
     * produces the reported value is not modelled. Changes no state.
     */
    method Aggregate(numericDtype: seq<string> -> bool) returns (notice: Notice)
      ensures selectedColumn == None || selectedColumn == Some("") ==> notice == Error
      ensures selectedColumn.Some? && selectedColumn.value != "" ==>
                (data == None || selectedColumn.value !in data.value.columns ==> notice == Uncaught) &&
                (data.Some? && selectedColumn.value in data.value.columns ==>
                   notice == if numericDtype(ColumnCells(data.value, selectedColumn.value)) then Info else Error)
    {
      var column := selectedColumn;
      if column.Some? && column.value != "" {
        if data.None? || column.value !in data.value.columns {
          notice := Uncaught;
        } else if numericDtype(ColumnCells(data.value, column.value)) {
          notice := Info;
        } else {
          notice := Error;
        }
      } else {
        notice := Error;
      }
    }
  }

  /**
   * Load a file, apply any sequence of filter texts, then reset: the view is
   * the loaded table again, the widget shows its rows and the field is empty.
   */
  method FiltersThenReset(s: Session, path: string, t: Table, queries: seq<string>, m: Matcher)
    requires s.Valid() && path != ""
    modifies s
    ensures s.Valid()
    ensures s.data == Some(t) && s.originalData == Some(t)
    ensures s.treeRows == t.rows && s.filterValue == ""
  {
    var _ := s.Load(path, Parsed(t));
    for i := 0 to |queries|
      invariant s.Valid() && s.originalData == Some(t)
    {
      s.SetFilterValue(queries[i]);
      var _ := s.Filter(m);
    }
    s.ResetFilter();
  }
}
