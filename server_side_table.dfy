/**
 * The server-side table controller (`useServerSideDataTable`): a record of pagination,
 * sorting, column filters and the global filter, a column-visibility record, and the
 * page last fetched. Each updater rewrites the previous state into the next one; the
 * controller class applies them to its fields. `fetchData` is an oracle supplied per
 * call: it maps the state it is called with to a resolved response or a rejection.
 */
module ServerSideTable {
  import opened Wrappers
  import opened Seqs
  import opened JsValues
  import opened ColumnVisibility
  import opened DataExport

  datatype Pagination = Pagination(pageIndex: int, pageSize: int)

  datatype SortEntry = SortEntry(id: string, desc: bool)

  datatype ColumnFilter = ColumnFilter(id: string, value: string)

  /** `ServerSideTableState` */
  datatype TableState = TableState(pagination: Pagination, sorting: seq<SortEntry>,
                                   columnFilters: seq<ColumnFilter>, globalFilter: string)

  /** `ServerSideDataResponse` */
  datatype DataResponse = DataResponse(data: seq<Row>, totalCount: int, pageCount: JsNumber)

  /** What a rejected fetch carries: an `Error` with its message, or any other thrown value. */
  datatype Thrown = ErrorObject(message: string) | NonError

  /** How the promise returned by `fetchData` settles. */
  datatype FetchOutcome = Resolved(response: DataResponse) | Rejected(thrown: Thrown)

  /** `err instanceof Error ? err.message : 'Failed to fetch data'` */
  function ErrorMessage(t: Thrown): string
  {
    match t
    case ErrorObject(m) => m
    case NonError => "Failed to fetch data"
  }

  /** Filter entries as the controller keeps them: one per column, each with a non-empty value. */
  predicate FiltersWellFormed(fs: seq<ColumnFilter>)
  {
    && (forall i :: 0 <= i < |fs| ==> fs[i].value != "")
    && (forall i, j :: 0 <= i < j < |fs| ==> fs[i].id != fs[j].id)
  }

  /** `columnFilters.find(f => f.id === id)?.value || ''`: the text shown in a column's filter box. */
  function FilterText(fs: seq<ColumnFilter>, id: string): string
  {
    if fs == [] then "" else if fs[0].id == id then fs[0].value else FilterText(fs[1..], id)
  }

  function WithoutColumn(fs: seq<ColumnFilter>, id: string): seq<ColumnFilter>
  {
    Filter(fs, (f: ColumnFilter) => f.id != id)
  }

  /** The updater of `setGlobalFilter`: new text, back to the first page. */
  function WithGlobalFilter(s: TableState, value: string): (r: TableState)
    ensures r.globalFilter == value
    ensures r.pagination == Pagination(0, s.pagination.pageSize)
    ensures r.sorting == s.sorting && r.columnFilters == s.columnFilters
  {
    s.(globalFilter := value, pagination := s.pagination.(pageIndex := 0))
  }

  /**
   * The updater of `setColumnFilter`: drop every entry for the column, then append the new
   * one only when its value is non-empty; back to the first page.
   */
  function WithColumnFilter(s: TableState, id: string, value: string): (r: TableState)
    ensures r.pagination == Pagination(0, s.pagination.pageSize)
    ensures r.sorting == s.sorting && r.globalFilter == s.globalFilter
    ensures forall f :: f in r.columnFilters <==>
      (f in s.columnFilters && f.id != id) || (value != "" && f == ColumnFilter(id, value))
    ensures value != "" ==> r.columnFilters[|r.columnFilters| - 1] == ColumnFilter(id, value)
  {
    var kept := WithoutColumn(s.columnFilters, id);
    var fs := if value != "" then kept + [ColumnFilter(id, value)] else kept;
    assert forall f :: f in kept <==> f in s.columnFilters && f.id != id by {
      forall f { FilterMember(s.columnFilters, (f: ColumnFilter) => f.id != id, f); }
    }
    s.(columnFilters := fs, pagination := s.pagination.(pageIndex := 0))
  }

  /** The updater of `clearFilters`. */
  function Cleared(s: TableState): (r: TableState)
    ensures r.globalFilter == "" && r.columnFilters == []
    ensures r.pagination == Pagination(0, s.pagination.pageSize) && r.sorting == s.sorting
  {
    s.(globalFilter := "", columnFilters := [], pagination := s.pagination.(pageIndex := 0))
  }

  /** The state `getAllDataForExport` fetches with: the first page, as large as the total count. */
  function ExportState(s: TableState, totalCount: int): (r: TableState)
    ensures r.pagination == Pagination(0, totalCount)
    ensures r.sorting == s.sorting && r.columnFilters == s.columnFilters && r.globalFilter == s.globalFilter
  {
    s.(pagination := Pagination(0, totalCount))
  }

  /** `String(row[col.id] || '')` for every row and visible column. */
  function Cells(rows: seq<Row>, columns: seq<ColumnDef>): (r: seq<seq<string>>)
    ensures |r| == |rows|
    ensures forall i :: 0 <= i < |rows| ==> |r[i]| == |columns|
    ensures forall i, j :: 0 <= i < |rows| && 0 <= j < |columns| ==>
      r[i][j] == CellText(Field(rows[i], ColumnId(columns[j])))
  {
    seq(|rows|, i requires 0 <= i < |rows| =>
      seq(|columns|, j requires 0 <= j < |columns| => CellText(Field(rows[i], ColumnId(columns[j])))))
  }

  /** Every entry `setColumnFilter` leaves behind for other columns is one that was there, in the same order. */
  lemma ColumnFilterKeepsOthersInOrder(s: TableState, id: string, value: string)
    ensures IsSubsequence(WithoutColumn(WithColumnFilter(s, id, value).columnFilters, id), s.columnFilters)
  {
    var kept := WithoutColumn(s.columnFilters, id);
    var p := (f: ColumnFilter) => f.id != id;
    var r := WithColumnFilter(s, id, value).columnFilters;
    if value != "" {
      FilterAppend(kept, [ColumnFilter(id, value)], p);
      assert Filter([ColumnFilter(id, value)], p) == [];
      assert kept + [] == kept;
    }
    FilterFilter(s.columnFilters, p, p, p);
    FilterIsSubsequence(s.columnFilters, p);
  }

  /** Setting a column's filter twice is the same as setting it once to the later value. */
  lemma ColumnFilterLastWins(s: TableState, id: string, v1: string, v2: string)
    ensures WithColumnFilter(WithColumnFilter(s, id, v1), id, v2) == WithColumnFilter(s, id, v2)
  {
    var p := (f: ColumnFilter) => f.id != id;
    var kept := WithoutColumn(s.columnFilters, id);
    FilterFilter(s.columnFilters, p, p, p);
    if v1 != "" {
      FilterAppend(kept, [ColumnFilter(id, v1)], p);
      assert Filter([ColumnFilter(id, v1)], p) == [];
      assert kept + [] == kept;
    }
  }

  /** The updaters keep the filter list well formed. */
  lemma ColumnFilterWellFormed(s: TableState, id: string, value: string)
    requires FiltersWellFormed(s.columnFilters)
    ensures FiltersWellFormed(WithColumnFilter(s, id, value).columnFilters)
  {
    var p := (f: ColumnFilter) => f.id != id;
    var kept := WithoutColumn(s.columnFilters, id);
    FilterWellFormed(s.columnFilters, p);
    forall f | f in kept ensures f.id != id {
      FilterMember(s.columnFilters, p, f);
    }
  }

  lemma {:induction false} FilterWellFormed(fs: seq<ColumnFilter>, p: ColumnFilter -> bool)
    requires FiltersWellFormed(fs)
    ensures FiltersWellFormed(Filter(fs, p))
  {
    if fs != [] {
      FilterWellFormed(fs[1..], p);
      forall f | f in Filter(fs[1..], p) ensures f.id != fs[0].id {
        FilterMember(fs[1..], p, f);
      }
    }
  }

  lemma {:induction false} FilterTextOfMember(fs: seq<ColumnFilter>, f: ColumnFilter)
    requires FiltersWellFormed(fs)
    requires f in fs
    ensures FilterText(fs, f.id) == f.value
  {
    if fs[0] != f {
      FilterTextOfMember(fs[1..], f);
    }
  }

  lemma {:induction false} FilterTextAbsent(fs: seq<ColumnFilter>, id: string)
    requires forall f :: f in fs ==> f.id != id
    ensures FilterText(fs, id) == ""
  {
    if fs != [] {
      FilterTextAbsent(fs[1..], id);
    }
  }

  lemma {:induction false} FilterTextPresent(fs: seq<ColumnFilter>, id: string)
    requires FiltersWellFormed(fs)
    ensures FilterText(fs, id) == "" || ColumnFilter(id, FilterText(fs, id)) in fs
  {
    if fs != [] && fs[0].id != id {
      FilterTextPresent(fs[1..], id);
    }
  }

  /**
   * After `setColumnFilter(id, value)` the column's filter box shows `value` and every other
   * column's box shows what it showed before.
   */
  lemma ColumnFilterGetPut(s: TableState, id: string, value: string, other: string)
    requires FiltersWellFormed(s.columnFilters)
    requires other != id
    ensures FilterText(WithColumnFilter(s, id, value).columnFilters, id) == value
    ensures FilterText(WithColumnFilter(s, id, value).columnFilters, other) == FilterText(s.columnFilters, other)
  {
    var r := WithColumnFilter(s, id, value).columnFilters;
    ColumnFilterWellFormed(s, id, value);
    if value != "" {
      FilterTextOfMember(r, ColumnFilter(id, value));
    } else {
      FilterTextAbsent(r, id);
    }
    FilterTextPresent(s.columnFilters, other);
    FilterTextPresent(r, other);
    if FilterText(s.columnFilters, other) != "" {
      FilterTextOfMember(r, ColumnFilter(other, FilterText(s.columnFilters, other)));
    } else if FilterText(r, other) != "" {
      FilterTextOfMember(s.columnFilters, ColumnFilter(other, FilterText(r, other)));
    }
  }

  class Controller {
    const columns: seq<ColumnDef>
    const searchableColumns: seq<string>
    const enableGlobalSearch: bool
    const enableColumnSearch: bool
    const enablePagination: bool
    const enableSorting: bool

    var data: seq<Row>
    var totalCount: int
    var pageCount: JsNumber
    var loading: bool
    var error: Option<string>
    var tableState: TableState
    var columnVisibility: Visibility

    ghost predicate Valid()
      reads this
    {
      FiltersWellFormed(tableState.columnFilters)
    }

    /** The hook's initial state: first page, no sorting, no filters, nothing fetched yet. */
    constructor (columns: seq<ColumnDef>, pageSize: int, searchableColumns: seq<string>,
                 enableGlobalSearch: bool, enableColumnSearch: bool, enablePagination: bool, enableSorting: bool)
      ensures Valid()
      ensures this.columns == columns && this.searchableColumns == searchableColumns
      ensures this.enableGlobalSearch == enableGlobalSearch && this.enableColumnSearch == enableColumnSearch
      ensures this.enablePagination == enablePagination && this.enableSorting == enableSorting
      ensures tableState == TableState(Pagination(0, pageSize), [], [], "")
      ensures columnVisibility == map[]
      ensures data == [] && totalCount == 0 && pageCount == Finite(0) && !loading && error == None
    {
      this.columns := columns;
      this.searchableColumns := searchableColumns;
      this.enableGlobalSearch := enableGlobalSearch;
      this.enableColumnSearch := enableColumnSearch;
      this.enablePagination := enablePagination;
      this.enableSorting := enableSorting;
      data := [];
      totalCount := 0;
      pageCount := Finite(0);
      loading := false;
      error := None;
      tableState := TableState(Pagination(0, pageSize), [], [], "");
      columnVisibility := map[];
    }

    /** `loadData` up to the `await`: loading on, error cleared. */
    method BeginLoad()
      modifies this`loading, this`error
      ensures loading && error == None
    {
      loading := true;
      error := None;
    }

    /**
     * `loadData` after the `await`: a response replaces the page; a rejection records its
     * message and keeps the previous page. Loading is off either way.
     */
    method FinishLoad(outcome: FetchOutcome)
      modifies this`data, this`totalCount, this`pageCount, this`loading, this`error
      ensures !loading
      ensures outcome.Resolved? ==>
        data == outcome.response.data && totalCount == outcome.response.totalCount
        && pageCount == outcome.response.pageCount && error == old(error)
      ensures outcome.Rejected? ==>
        error == Some(ErrorMessage(outcome.thrown))
        && data == old(data) && totalCount == old(totalCount) && pageCount == old(pageCount)
    {
      match outcome {
        case Resolved(response) =>
          data := response.data;
          totalCount := response.totalCount;
          pageCount := response.pageCount;
        case Rejected(thrown) =>
          error := Some(ErrorMessage(thrown));
      }
      loading := false;
    }

    /** `loadData` (and `refreshData`): fetch with the current state and settle. */
    method LoadData(fetchData: TableState -> FetchOutcome)
      modifies this`data, this`totalCount, this`pageCount, this`loading, this`error
      ensures !loading
      ensures fetchData(tableState).Resolved? ==>
        var response := fetchData(tableState).response;
        data == response.data && totalCount == response.totalCount && pageCount == response.pageCount
        && error == None
      ensures fetchData(tableState).Rejected? ==>
        error == Some(ErrorMessage(fetchData(tableState).thrown))
        && data == old(data) && totalCount == old(totalCount) && pageCount == old(pageCount)
    {
      BeginLoad();
      FinishLoad(fetchData(tableState));
    }

    /** `setGlobalFilter`, and the table's `onGlobalFilterChange`; ignored when global search is off. */
    method SetGlobalFilter(value: string)
      requires Valid()
      modifies this`tableState
      ensures Valid()
      ensures tableState == if enableGlobalSearch then WithGlobalFilter(old(tableState), value) else old(tableState)
    {
      if !enableGlobalSearch {
        return;
      }
      tableState := WithGlobalFilter(tableState, value);
    }

    /** `setColumnFilter`; ignored when column search is off. */
    method SetColumnFilter(columnId: string, value: string)
      requires Valid()
      modifies this`tableState
      ensures Valid()
      ensures tableState == if enableColumnSearch then WithColumnFilter(old(tableState), columnId, value) else old(tableState)
    {
      if !enableColumnSearch {
        return;
      }
      ColumnFilterWellFormed(tableState, columnId, value);
      tableState := WithColumnFilter(tableState, columnId, value);
    }

    method ClearFilters()
      requires Valid()
      modifies this`tableState
      ensures Valid()
      ensures tableState == Cleared(old(tableState))
    {
      tableState := Cleared(tableState);
    }

    /** `onPaginationChange`: installed only when pagination is on; replaces the pagination alone. */
    method OnPaginationChange(pagination: Pagination)
      requires Valid()
      modifies this`tableState
      ensures Valid()
      ensures tableState == if enablePagination then old(tableState).(pagination := pagination) else old(tableState)
    {
      if enablePagination {
        tableState := tableState.(pagination := pagination);
      }
    }

    /** `onSortingChange`: installed only when sorting is on; the page index is kept. */
    method OnSortingChange(sorting: seq<SortEntry>)
      requires Valid()
      modifies this`tableState
      ensures Valid()
      ensures tableState == if enableSorting then old(tableState).(sorting := sorting) else old(tableState)
    {
      if enableSorting {
        tableState := tableState.(sorting := sorting);
      }
    }

    method ToggleColumnVisibility(columnId: string)
      modifies this`columnVisibility
      ensures columnVisibility == Toggled(old(columnVisibility), columnId)
    {
      columnVisibility := Toggled(columnVisibility, columnId);
    }

    method ShowAllColumns()
      modifies this`columnVisibility
      ensures columnVisibility == map[]
    {
      columnVisibility := map[];
    }

    method HideAllColumns()
      modifies this`columnVisibility
      ensures columnVisibility == HideAll(columns)
    {
      columnVisibility := HideAll(columns);
    }

    /** `getVisibleData`: the current page projected onto the visible columns. */
    function VisibleData(): (r: ExportData)
      reads this
      ensures r.headers == Headers(VisibleColumns(columns, columnVisibility))
      ensures r.data == Cells(data, VisibleColumns(columns, columnVisibility))
    {
      var visible := VisibleColumns(columns, columnVisibility);
      ExportData(Headers(visible), Cells(data, visible))
    }

    /**
     * `getAllDataForExport`: fetch every matching row (first page, page size = total count)
     * and project it onto the visible columns; a rejection is rethrown.
     */
    method GetAllDataForExport(fetchData: TableState -> FetchOutcome) returns (r: Result<ExportData, Thrown>)
      ensures fetchData(ExportState(tableState, totalCount)).Rejected? ==>
        r == Err(fetchData(ExportState(tableState, totalCount)).thrown)
      ensures fetchData(ExportState(tableState, totalCount)).Resolved? ==>
        var visible := VisibleColumns(columns, columnVisibility);
        && r.Ok?
        && r.value.headers == Headers(visible)
        && r.value.data == Cells(fetchData(ExportState(tableState, totalCount)).response.data, visible)
    {
      var allDataState := ExportState(tableState, totalCount);
      var outcome := fetchData(allDataState);
      match outcome
      case Rejected(thrown) =>
        r := Err(thrown);
      case Resolved(response) =>
        var visible := VisibleColumns(columns, columnVisibility);
        r := Ok(ExportData(Headers(visible), Cells(response.data, visible)));
    }
  }
}
