# SimpleStats session model

A Dafny model of the session inside `DataAnalysisApp`. This is the
single-window tool that loads a `;`-separated CSV file into a table widget.
The user can click a heading to select a column, ask for the mean, minimum or
maximum of that column, filter the rows by a text, and reset the filter.

The model has three modules:

- `Tables` (`tables.dfy`) covers the table as the parser delivers it. That is the column names and rows of cells, with one cell per column and distinct names. The module also holds the subsequence relation used to say "filtering only narrows", and Python list indexing, which resolves a clicked heading to a column.
- `RowFilter` (`row_filter.dfy`) is the row filter. It keeps, in order, the rows in which some cell matches the query. Two things stay abstract in a `Matcher`: whether a query is an acceptable pattern, and whether a cell matches it. The library's `contains` test is a regular-expression search over the cell's string form, not a plain substring test.
- `AppSession` (`session.dfy`) is the class `Session`. Its fields are the current view `data`, the snapshot `originalData`, `selectedColumn`, the filter field's text `filterValue`, and what the widget shows (`treeColumns`, `treeRows`). Each button or click handler is a method. Instead of opening a message box, it returns a `Notice`: `Ok` (no box), `Info`, `Warning`, `Error`, or `Uncaught`. `Uncaught` means a Python exception escaped the handler; the toolkit prints it and the state stays as it was.

`Session.Valid()` is the invariant every action keeps:
- both tables exist from the first successful load on;
- the current view has the snapshot's header and a subsequence of its rows;
- a column can only be selected once a table has been shown;
- the widget shows the current view.

Foreign inputs become parameters:
- the file dialog's answer is `path` (empty when cancelled);
- the parser's outcome for that file is a `ParseResult`;
- the matching behaviour is a `Matcher`;
- the numeric-coercion-plus-type test of the aggregate buttons is a predicate over the column's cells;
- a click is already resolved to a `Region` and the number `k` of its column id `#k`.

Three behaviours of the code that a reader might not expect:
- The filter is a regular-expression `contains` over each cell's string form, not a case-sensitive substring test. It raises when the query is not a valid pattern and there is at least one row.
- Loading a new file does not clear the selected column. If the new table lacks that column, an aggregate then raises a key error (`Uncaught`) instead of reporting "no column selected".
- The aggregate buttons report "not numeric" when the library's numeric-type test fails on the coerced column. They do not check whether any value coerced successfully.

## Model

| member | source | states |
|---|---|---|
| `Tables.SubsequenceTransitive` | DataAnalysisApp.py:132-134 | a subsequence of a subsequence is a subsequence, so any chain of successful filters keeps a subsequence of the loaded rows |
| `Tables.SubsequenceBounds` | DataAnalysisApp.py:132-134 | a subsequence is no longer than its source and contains only its source's rows, so repeated filters only narrow |
| `Tables.SubsequenceReflexive` | DataAnalysisApp.py:56-57 | every row sequence is a subsequence of itself, which holds right after a load and after a reset |
| `Tables.PyIndex` | DataAnalysisApp.py:81-82 | a Python list index is valid exactly when it lies in `-n .. n-1`, and it then denotes the position congruent to it modulo `n`; any other index raises |
| `Tables.IndexOf` | DataAnalysisApp.py:89 | the position of a column name in the header is where that name stands, and no earlier column carries it |
| `Tables.ColumnCells` | DataAnalysisApp.py:89 | selecting a column by name gives one cell per row, in row order, each the row's cell under the column with that name |
| `RowFilter.FilterRows` | DataAnalysisApp.py:132 | the kept rows are no more than the input rows, and every kept row is an input row in which some cell matches the query |
| `RowFilter.FilterTable` | DataAnalysisApp.py:132-134 | the filtered table keeps the header and holds exactly the filtered rows, one cell per column |
| `RowFilter.FilterRowsComplete` | DataAnalysisApp.py:132 | every input row with a matching cell is kept; with `FilterRows` this makes "kept" equivalent to "present and matching" |
| `RowFilter.FilterRowsCount` | DataAnalysisApp.py:132 | each matching row is kept as many times as it occurs, and every other row is dropped |
| `RowFilter.FilterRowsSubsequence` | DataAnalysisApp.py:132 | the kept rows appear in their original relative order |
| `RowFilter.FilterRowsEmpty` | DataAnalysisApp.py:133-137 | the filter keeps nothing exactly when no row has a matching cell, which is when the no-match notice is shown |
| `RowFilter.FilterRowsIdempotent` | DataAnalysisApp.py:132-135 | filtering twice with the same text gives the same rows as filtering once |
| `RowFilter.FilterRowsCommute` | DataAnalysisApp.py:132-135 | two successive filters keep the same rows in either order |
| `AppSession.Session.constructor` | DataAnalysisApp.py:7-13 | a new session has no data, no snapshot, no selected column, an empty filter field and an empty widget |
| `AppSession.Session.ShowData` | DataAnalysisApp.py:62-74 | after a redraw, the widget's headings are the current view's columns and its lines are the current view's rows, in order |
| `AppSession.Session.Load` | DataAnalysisApp.py:51-60 | a parsed file becomes both the current view and the snapshot; a parse failure gives an error notice and leaves both alone; a cancelled dialog changes nothing; the selection and the filter field are never touched |
| `AppSession.Session.ColumnClick` | DataAnalysisApp.py:76-83 | a click outside the heading region changes nothing; a heading click on `#k` selects the displayed column at Python index `k-1` and shows an info notice, or raises and changes nothing when that index is out of range |
| `AppSession.Session.SetFilterValue` | DataAnalysisApp.py:46-47 | typing into the filter field sets the text the filter will use |
| `AppSession.Session.Filter` | DataAnalysisApp.py:122-137 | with no data: error and no change. Empty text: warning and no change. Invalid pattern over some rows: raises and no change. No matching row: info and no change. Otherwise the view becomes the matching rows under the same header. The snapshot, the selection and the field are never changed, and the view only shrinks to a subsequence |
| `AppSession.Session.ResetFilter` | DataAnalysisApp.py:139-144 | after a load, the current view becomes the snapshot, the widget shows it and the filter field is emptied; before any load nothing changes |
| `AppSession.Session.Aggregate` | DataAnalysisApp.py:85-120 | with no selected column (or an empty name): error. With a selected column missing from the current view: raises. Otherwise: info when the coerced column passes the numeric-type test, error when it does not. No state changes in any case |
| `AppSession.FiltersThenReset` | DataAnalysisApp.py:139-144 | a load followed by any sequence of filter texts and a reset leaves the loaded table as both view and snapshot, shows its rows and empties the field |

## Left out

- Widget creation, layout, scrollbars, heading texts and the main loop (DataAnalysisApp.py:18-49, 69-70, 146-149) are pure user interface.
- Message texts and message boxes: each handler returns the `Notice` kind instead.
- The file dialog and the CSV parser (`pd.read_csv` with `sep=';'`) are I/O and a foreign library. Their results are parameters. Rectangular rows and distinct column names are taken as the parser's guarantee, through the `Table` type.
- `.copy()` is implicit: tables are values, so the snapshot and the view can never share state.
- An exception raised while redrawing inside the load handler's `try` block is not modelled. The model treats the redraw as always succeeding.
- Pixel-to-region resolution and the parsing of the `#k` column id string (`tree.identify`, `identify_column`, `int(...)`) are widget geometry. The model starts from the resolved region and number.
- `RowFilter.Matcher`: the exact rendering of cells as strings and the regular-expression semantics of the library's `contains` are kept abstract, so the model proves nothing that depends on them.
- AppSession.Session.Aggregate: does not compute the mean, minimum or maximum, because those are floating-point reductions in a foreign library. Its contract covers only which notice kind is shown.
