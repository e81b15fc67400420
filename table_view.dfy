/**
 * `ServerSideDataTable`, the view over the server-side table controller: the export and print
 * handlers with their `exportLoading` flag, the column-search toggle, and the texts it derives
 * from the state (export file name, whether filters are set, result badge, page label).
 */
module TableView {
  import opened Wrappers
  import opened Seqs
  import opened JsValues
  import opened ServerSideTable
  import opened ServerQuery
  import opened DataExport

  /** No character of `s` is whitespace. */
  predicate NoSpace(s: string)
  {
    forall i :: 0 <= i < |s| ==> !IsSpace(s[i])
  }

  /** Every character of `s` is whitespace. */
  predicate AllSpace(s: string)
  {
    forall i :: 0 <= i < |s| ==> IsSpace(s[i])
  }

  /** The text with every leading `\s` character removed. */
  function DropSpaces(s: string): (r: string)
    ensures |r| <= |s| && (r == [] || !IsSpace(r[0]))
    ensures r == s[|s| - |r|..]
  {
    if s != [] && IsSpace(s[0]) then DropSpaces(s[1..]) else s
  }

  /** `s.replace(/\s+/g, '-')`: each maximal run of whitespace becomes one hyphen. */
  function ReplaceSpaceRuns(s: string): (r: string)
    ensures NoSpace(r)
    ensures |r| <= |s|
    decreases |s|
  {
    if s == [] then []
    else if IsSpace(s[0]) then "-" + ReplaceSpaceRuns(DropSpaces(s[1..]))
    else [s[0]] + ReplaceSpaceRuns(s[1..])
  }

  /** Text without whitespace is left as it is. */
  lemma {:induction false} NoSpaceUnchanged(s: string)
    requires NoSpace(s)
    ensures ReplaceSpaceRuns(s) == s
  {
    if s != [] {
      NoSpaceUnchanged(s[1..]);
    }
  }

  /** Two hyphens in a row never come from one run: a run of any length gives one hyphen. */
  lemma {:induction false} RunGivesOneHyphen(prefix: string, run: string, suffix: string)
    requires run != [] && AllSpace(run)
    requires suffix == [] || !IsSpace(suffix[0])
    ensures ReplaceSpaceRuns(run + suffix) == "-" + ReplaceSpaceRuns(suffix)
  {
    var s := run + suffix;
    assert s[1..] == run[1..] + suffix;
    DropAll(run[1..], suffix);
  }

  lemma {:induction false} DropAll(run: string, suffix: string)
    requires AllSpace(run)
    requires suffix == [] || !IsSpace(suffix[0])
    ensures DropSpaces(run + suffix) == suffix
  {
    if run != [] {
      assert (run + suffix)[1..] == run[1..] + suffix;
      DropAll(run[1..], suffix);
    } else {
      assert run + suffix == suffix;
    }
  }

  /** The export file name: the title lower-cased with whitespace runs as hyphens, else 'data-export'. */
  function ExportFilename(title: Option<string>): (r: string)
    ensures NoSpace(r)
    ensures !HasTitle(title) ==> r == "data-export"
    ensures HasTitle(title) ==> |r| <= |title.value|
  {
    if HasTitle(title) then ReplaceSpaceRuns(Lower(title.value)) else "data-export"
  }

  /** Text without whitespace passes through in front of the rest. */
  lemma {:induction false} NoSpacePrefix(a: string, rest: string)
    requires NoSpace(a)
    ensures ReplaceSpaceRuns(a + rest) == a + ReplaceSpaceRuns(rest)
  {
    if a == [] {
      assert a + rest == rest;
    } else {
      assert (a + rest)[1..] == a[1..] + rest;
      NoSpacePrefix(a[1..], rest);
    }
  }

  lemma {:induction false} LowerAppend(a: string, b: string)
    ensures Lower(a + b) == Lower(a) + Lower(b)
  {
  }

  /** Lower-casing never makes or removes whitespace. */
  lemma LowerKeepsSpaces(s: string)
    ensures NoSpace(s) ==> NoSpace(Lower(s))
    ensures AllSpace(s) ==> AllSpace(Lower(s))
  {
  }

  /** A whitespace run between two whitespace-free texts becomes one hyphen. */
  lemma {:induction false} HyphenBetween(x: string, run: string, y: string)
    requires NoSpace(x)
    requires run != [] && AllSpace(run)
    requires NoSpace(y)
    ensures ReplaceSpaceRuns(x + (run + y)) == x + "-" + y
  {
    var ry := ReplaceSpaceRuns(y);
    assert ry == y by { NoSpaceUnchanged(y); }
    var rest := ReplaceSpaceRuns(run + y);
    assert rest == "-" + ry by { RunGivesOneHyphen(x, run, y); }
    assert ReplaceSpaceRuns(x + (run + y)) == x + rest by { NoSpacePrefix(x, run + y); }
    assert x + ("-" + y) == x + "-" + y;
  }

  /**
   * A title made of two whitespace-free words around a run of whitespace gives the two words
   * lower-cased and joined by a single hyphen ("Client Management" gives "client-management").
   */
  lemma {:induction false} TwoWordFilename(a: string, run: string, b: string)
    requires a != [] && NoSpace(a)
    requires run != [] && AllSpace(run)
    requires NoSpace(b)
    ensures ExportFilename(Some(a + run + b)) == Lower(a) + "-" + Lower(b)
  {
    var la, lr, lb := Lower(a), Lower(run), Lower(b);
    assert Lower(a + run + b) == la + (lr + lb) by {
      LowerAppend(a + run, b);
      LowerAppend(a, run);
    }
    assert NoSpace(la) && AllSpace(lr) && lr != [] && NoSpace(lb) by {
      LowerKeepsSpaces(a);
      LowerKeepsSpaces(run);
      LowerKeepsSpaces(b);
    }
    assert ReplaceSpaceRuns(la + (lr + lb)) == la + "-" + lb by {
      HyphenBetween(la, lr, lb);
    }
  }

  /** `columnFilters.some(f => f.value)` */
  predicate AnyFilterValue(fs: seq<ColumnFilter>)
  {
    fs != [] && (fs[0].value != "" || AnyFilterValue(fs[1..]))
  }

  /** `hasFilters`: a global filter or some column filter with a value. */
  predicate HasFilters(s: TableState)
  {
    s.globalFilter != "" || AnyFilterValue(s.columnFilters)
  }

  lemma {:induction false} AnyFilterValueIsFilter(fs: seq<ColumnFilter>)
    ensures AnyFilterValue(fs) <==> Filter(fs, HasValue) != []
  {
    if fs != [] {
      AnyFilterValueIsFilter(fs[1..]);
    }
  }

  /**
   * The view shows "Clear Filters" exactly when the query sent for the state carries a filter
   * clause, whatever the searched columns.
   */
  lemma HasFiltersIffQueryFiltered(table: string, columns: seq<string>, s: TableState)
    ensures HasFilters(s) <==> QueryFor(table, columns, s).clauses != []
  {
    FilterClausesExactly(s.columnFilters);
    AnyFilterValueIsFilter(s.columnFilters);
  }

  /** `{totalCount} result{totalCount !== 1 ? 's' : ''}` */
  function ResultBadge(totalCount: int): (r: string)
    ensures var n := IntToString(totalCount);
      && |r| >= |n| + 7
      && r[..|n|] == n
      && r[|n|..|n| + 7] == " result"
      && (|r| == |n| + 8 <==> totalCount != 1)
      && (totalCount != 1 ==> r[|r| - 1] == 's')
  {
    IntToString(totalCount) + " result" + (if totalCount != 1 then "s" else "")
  }

  /** The page-size choices offered. */
  const PageSizeOptions: seq<int> := [10, 20, 30, 40, 50, 100]

  /** `Page {pageIndex + 1} of {pageCount}` */
  function PageLabel(pageIndex: int, pageCount: JsNumber): string
  {
    "Page " + IntToString(pageIndex + 1) + " of " + NumberText(pageCount)
  }

  /**
   * The label shows the one-based page number: the digits after "Page " read back as
   * `pageIndex + 1`, and the label ends with the page count's text.
   */
  lemma PageLabelNumber(pageIndex: nat, pageCount: JsNumber)
    ensures var digits := NatToString(pageIndex + 1); var shown := PageLabel(pageIndex, pageCount);
      && StartsWith(shown, "Page " + digits + " of ")
      && ParseNat(digits) == pageIndex + 1
      && shown[|shown| - |NumberText(pageCount)|..] == NumberText(pageCount)
  {
    var digits := NatToString(pageIndex + 1);
    var shown := PageLabel(pageIndex, pageCount);
    assert shown == ("Page " + digits + " of ") + NumberText(pageCount);
    ParseNatToString(pageIndex + 1);
  }

  /** `getPageCount() - 1`, the index the last-page button asks for. */
  function LastPageIndex(pageCount: JsNumber): (r: JsNumber)
    ensures pageCount.Finite? ==> r == Finite(pageCount.n - 1)
    ensures !pageCount.Finite? ==> r == pageCount
  {
    match pageCount
    case Finite(n) => Finite(n - 1)
    case NaN => NaN
    case Infinity => Infinity
  }

  /** The last-page button asks for the page that holds the last row. */
  lemma LastPageHoldsLastRow(total: nat, pageSize: int)
    requires pageSize > 0 && total > 0
    ensures var last := LastPageIndex(PageCount(Some(total), pageSize));
      && last.Finite?
      && RangeFrom(Pagination(last.n, pageSize)) <= total - 1 <= RangeTo(Pagination(last.n, pageSize))
  {
    PageCountCovers(total, pageSize);
    var n := PageCount(Some(total), pageSize).n;
    WindowsTile(pageSize, total - 1, n - 1);
  }

  /** The export formats offered. */
  datatype Format = Csv | Excel | Pdf

  /** What an export hands to the browser. */
  datatype ExportFile = CsvFile(download: Download) | ExcelFile(workbook: Workbook) | PdfFile(document: PdfDocument)

  /** The `switch` of `handleExport`. */
  function Dispatch(format: Format, d: ExportData, title: Option<string>): (r: ExportFile)
    ensures format == Csv ==> r == CsvFile(ExportToCsv(d, Some(ExportFilename(title))))
    ensures format == Excel ==> r == ExcelFile(ExportToExcel(d, Some(ExportFilename(title))))
    ensures format == Pdf ==> r == PdfFile(ExportToPdf(d, Some(ExportFilename(title)), title))
  {
    var filename := ExportFilename(title);
    match format
    case Csv => CsvFile(ExportToCsv(d, Some(filename)))
    case Excel => ExcelFile(ExportToExcel(d, Some(filename)))
    case Pdf => PdfFile(ExportToPdf(d, Some(filename), title))
  }

  /** The CSV export of a titled table is named after the title. */
  lemma CsvNamedAfterTitle(d: ExportData, title: Option<string>)
    ensures Dispatch(Csv, d, title).download.filename == ExportFilename(title) + ".csv"
    ensures !HasTitle(title) ==> Dispatch(Csv, d, title).download.filename == "data-export.csv"
  {
  }

  /** The view's own state over a controller. */
  class View {
    const title: Option<string>
    const table: Controller
    const fetchData: TableState -> FetchOutcome
    var showColumnSearch: bool
    var exportLoading: bool

    constructor (title: Option<string>, table: Controller, fetchData: TableState -> FetchOutcome)
      ensures this.title == title && this.table == table && this.fetchData == fetchData
      ensures !showColumnSearch && !exportLoading
    {
      this.title := title;
      this.table := table;
      this.fetchData := fetchData;
      showColumnSearch := false;
      exportLoading := false;
    }

    /** The "Column Search" button. */
    method ToggleColumnSearch()
      modifies this`showColumnSearch
      ensures showColumnSearch == !old(showColumnSearch)
    {
      showColumnSearch := !showColumnSearch;
    }

    /** An export or print up to its `await`. */
    method BeginExport()
      modifies this`exportLoading
      ensures exportLoading
    {
      exportLoading := true;
    }

    /** `handleExport` after its `await`: a file on success, nothing on failure; loading off. */
    method FinishExport(format: Format, fetched: Result<ExportData, Thrown>) returns (file: Option<ExportFile>)
      modifies this`exportLoading
      ensures !exportLoading
      ensures fetched.Err? ==> file == None
      ensures fetched.Ok? ==> file == Some(Dispatch(format, fetched.value, title))
    {
      match fetched {
        case Ok(d) =>
          file := Some(Dispatch(format, d, title));
        case Err(_) =>
          file := None;
      }
      exportLoading := false;
    }

    /** `handlePrint` after its `await`: the print document when a window opened; loading off. */
    method FinishPrint(fetched: Result<ExportData, Thrown>, windowOpened: bool) returns (document: Option<string>)
      modifies this`exportLoading
      ensures !exportLoading
      ensures fetched.Err? ==> document == None
      ensures fetched.Ok? ==> document == PrintData(fetched.value, title, windowOpened)
    {
      match fetched {
        case Ok(d) =>
          document := PrintData(d, title, windowOpened);
        case Err(_) =>
          document := None;
      }
      exportLoading := false;
    }

    /** `handleExport`: every matching row, in the chosen format; the flag is down afterwards. */
    method HandleExport(format: Format) returns (file: Option<ExportFile>)
      modifies this`exportLoading
      ensures !exportLoading
      ensures var outcome := fetchData(ExportState(table.tableState, table.totalCount));
        && (outcome.Rejected? ==> file == None)
        && (outcome.Resolved? ==>
              var visible := ColumnVisibility.VisibleColumns(table.columns, table.columnVisibility);
              file == Some(Dispatch(format, ExportData(ColumnVisibility.Headers(visible),
                                                       Cells(outcome.response.data, visible)), title)))
    {
      BeginExport();
      var fetched := table.GetAllDataForExport(fetchData);
      file := FinishExport(format, fetched);
    }

    /** `handlePrint`: every matching row, printed; the flag is down afterwards. */
    method HandlePrint(windowOpened: bool) returns (document: Option<string>)
      modifies this`exportLoading
      ensures !exportLoading
      ensures var outcome := fetchData(ExportState(table.tableState, table.totalCount));
        && (outcome.Rejected? ==> document == None)
        && (outcome.Resolved? ==>
              var visible := ColumnVisibility.VisibleColumns(table.columns, table.columnVisibility);
              document == PrintData(ExportData(ColumnVisibility.Headers(visible),
                                               Cells(outcome.response.data, visible)), title, windowOpened))
        && (!windowOpened ==> document == None)
    {
      BeginExport();
      var fetched := table.GetAllDataForExport(fetchData);
      document := FinishPrint(fetched, windowOpened);
    }
  }
}
