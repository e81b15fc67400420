/**
 * `useDataTable`: the client-side table hook. Rows are filtered in the browser by a global
 * search over the searchable columns and by per-column filters; the hook holds the filter
 * text, the column filters (a JavaScript object, kept here as its entries in insertion
 * order), the column-visibility map and the pagination.
 */
module DataTable {
  import opened Wrappers
  import opened Seqs
  import opened JsValues
  import opened ColumnVisibility

  /** One entry of the `columnFilters` object. */
  datatype FilterEntry = FilterEntry(column: string, value: string)

  /** The hook's options that shape filtering. */
  datatype Options = Options(searchableColumns: seq<string>, enableGlobalSearch: bool, enableColumnSearch: bool)

  /** The filter state: `globalFilter` and the entries of `columnFilters`. */
  datatype Filters = Filters(globalFilter: string, columnFilters: seq<FilterEntry>)

  predicate KeyAt(es: seq<FilterEntry>, k: string, i: int)
  {
    0 <= i < |es| && es[i].column == k
  }

  /** Object keys are unique. */
  predicate UniqueKeys(es: seq<FilterEntry>)
  {
    forall i, j :: 0 <= i < j < |es| ==> es[i].column != es[j].column
  }

  /** `columnFilters[k]`, `undefined` when absent. */
  function Lookup(es: seq<FilterEntry>, k: string): Option<string>
  {
    if es == [] then None
    else if es[0].column == k then Some(es[0].value)
    else Lookup(es[1..], k)
  }

  /**
   * `{ ...prev, [k]: v }`: an existing key keeps its place and takes the new value, a new
   * key goes last.
   */
  function Upsert(es: seq<FilterEntry>, k: string, v: string): seq<FilterEntry>
  {
    if es == [] then [FilterEntry(k, v)]
    else if es[0].column == k then [FilterEntry(k, v)] + es[1..]
    else [es[0]] + Upsert(es[1..], k, v)
  }

  /** Every entry after an upsert is the new one's key or an old entry. */
  lemma {:induction false} UpsertColumns(es: seq<FilterEntry>, k: string, v: string)
    ensures forall e :: e in Upsert(es, k, v) ==> e.column == k || e in es
  {
    if es != [] && es[0].column != k {
      UpsertColumns(es[1..], k, v);
    }
  }

  /** An upsert keeps the keys unique. */
  lemma {:induction false} UpsertUnique(es: seq<FilterEntry>, k: string, v: string)
    requires UniqueKeys(es)
    ensures UniqueKeys(Upsert(es, k, v))
  {
    if es != [] {
      if es[0].column == k {
        forall j | 1 <= j < |es| ensures es[j].column != k {
          assert es[0].column != es[j].column;
        }
      } else {
        var tail := es[1..];
        assert UniqueKeys(tail) by {
          forall i, j | 0 <= i < j < |tail| ensures tail[i].column != tail[j].column {
            assert es[i + 1].column != es[j + 1].column;
          }
        }
        UpsertUnique(tail, k, v);
        UpsertColumns(tail, k, v);
        var rest := Upsert(tail, k, v);
        forall j | 0 <= j < |rest| ensures rest[j].column != es[0].column {
          assert rest[j] in rest;
          if rest[j] in tail {
            var t :| 0 <= t < |tail| && tail[t] == rest[j];
            assert es[t + 1] == rest[j];
          }
        }
      }
    }
  }

  /** An existing key takes the new value in its own place. */
  lemma {:induction false} UpsertInPlace(es: seq<FilterEntry>, k: string, v: string, i: int)
    requires UniqueKeys(es) && KeyAt(es, k, i)
    ensures Upsert(es, k, v) == es[i := FilterEntry(k, v)]
  {
    if es[0].column == k {
      assert i == 0;
    } else {
      var tail := es[1..];
      assert UniqueKeys(tail) by {
        forall a, b | 0 <= a < b < |tail| ensures tail[a].column != tail[b].column {
          assert es[a + 1].column != es[b + 1].column;
        }
      }
      assert KeyAt(tail, k, i - 1);
      UpsertInPlace(tail, k, v, i - 1);
      assert [es[0]] + tail[i - 1 := FilterEntry(k, v)] == es[i := FilterEntry(k, v)];
    }
  }

  /** A new key goes last. */
  lemma {:induction false} UpsertAppends(es: seq<FilterEntry>, k: string, v: string)
    requires forall i :: !KeyAt(es, k, i)
    ensures Upsert(es, k, v) == es + [FilterEntry(k, v)]
  {
    if es != [] {
      assert !KeyAt(es, k, 0);
      forall i ensures !KeyAt(es[1..], k, i) {
        assert !KeyAt(es, k, i + 1);
      }
      UpsertAppends(es[1..], k, v);
      assert [es[0]] + (es[1..] + [FilterEntry(k, v)]) == es + [FilterEntry(k, v)];
    }
  }

  /** Where the upserted entry lands, and that keys stay unique. */
  lemma UpsertPlacement(es: seq<FilterEntry>, k: string, v: string)
    requires UniqueKeys(es)
    ensures UniqueKeys(Upsert(es, k, v))
    ensures forall i :: KeyAt(es, k, i) ==> Upsert(es, k, v) == es[i := FilterEntry(k, v)]
    ensures (forall i :: !KeyAt(es, k, i)) ==> Upsert(es, k, v) == es + [FilterEntry(k, v)]
  {
    UpsertUnique(es, k, v);
    forall i | KeyAt(es, k, i) ensures Upsert(es, k, v) == es[i := FilterEntry(k, v)] {
      UpsertInPlace(es, k, v, i);
    }
    if forall i :: !KeyAt(es, k, i) {
      UpsertAppends(es, k, v);
    }
  }

  /** After an upsert the key reads back the new value and every other key its old one. */
  lemma {:induction false} UpsertLookup(es: seq<FilterEntry>, k: string, v: string, other: string)
    ensures Lookup(Upsert(es, k, v), k) == Some(v)
    ensures other != k ==> Lookup(Upsert(es, k, v), other) == Lookup(es, other)
  {
    if es != [] && es[0].column != k {
      UpsertLookup(es[1..], k, v, other);
    }
  }

  /** The entries after an upsert: the old ones under other keys, and the new one. */
  lemma UpsertMembers(es: seq<FilterEntry>, k: string, v: string, e: FilterEntry)
    requires UniqueKeys(es)
    ensures e in Upsert(es, k, v) <==> (e in es && e.column != k) || e == FilterEntry(k, v)
  {
    UpsertPlacement(es, k, v);
    var r := Upsert(es, k, v);
    if exists i :: KeyAt(es, k, i) {
      var i :| KeyAt(es, k, i);
      if e in es && e.column != k {
        var j :| 0 <= j < |es| && es[j] == e;
        assert r[j] == e;
      }
      if e in r && e != FilterEntry(k, v) {
        var j :| 0 <= j < |r| && r[j] == e;
        assert j != i && es[j] == e;
        assert e.column != k;
      }
    }
  }

  /** `value && String(value).toLowerCase().includes(term)`, with `term` already lower-cased. */
  predicate Matches(v: Value, lowerTerm: string)
  {
    Truthy(v) && Includes(Lower(ToStr(v)), lowerTerm)
  }

  /** `searchableColumns.some(column => ...)` over one row. */
  predicate AnyColumnMatches(row: Row, columns: seq<string>, lowerTerm: string)
  {
    columns != [] && (Matches(Field(row, columns[0]), lowerTerm) || AnyColumnMatches(row, columns[1..], lowerTerm))
  }

  /** `some` holds exactly when one of the columns matches. */
  lemma {:induction false} AnyColumnMatchesExists(row: Row, columns: seq<string>, lowerTerm: string)
    ensures AnyColumnMatches(row, columns, lowerTerm)
        <==> exists i :: 0 <= i < |columns| && Matches(Field(row, columns[i]), lowerTerm)
  {
    if columns != [] {
      AnyColumnMatchesExists(row, columns[1..], lowerTerm);
      if AnyColumnMatches(row, columns[1..], lowerTerm) {
        var i :| 0 <= i < |columns[1..]| && Matches(Field(row, columns[1..][i]), lowerTerm);
        assert columns[i + 1] == columns[1..][i];
      }
      if exists i :: 0 <= i < |columns| && Matches(Field(row, columns[i]), lowerTerm) {
        var i :| 0 <= i < |columns| && Matches(Field(row, columns[i]), lowerTerm);
        if i > 0 {
          assert columns[1..][i - 1] == columns[i];
        }
      }
    }
  }

  /** Whether the global search is applied at all. */
  predicate GlobalActive(f: Filters, o: Options)
  {
    o.enableGlobalSearch && f.globalFilter != ""
  }

  /** The row passes the global search, or no global search applies. */
  predicate GlobalKept(row: Row, f: Filters, o: Options)
  {
    GlobalActive(f, o) ==> AnyColumnMatches(row, o.searchableColumns, Lower(f.globalFilter))
  }

  /** One column filter: skipped when its value is empty. */
  predicate EntryKept(row: Row, e: FilterEntry)
  {
    e.value != "" ==> Matches(Field(row, e.column), Lower(e.value))
  }

  /** The column filters applied one after another, in entry order. */
  predicate ColumnsKept(row: Row, es: seq<FilterEntry>)
  {
    es == [] || (ColumnsKept(row, es[..|es| - 1]) && EntryKept(row, es[|es| - 1]))
  }

  /** Applying the column filters one after another is their conjunction. */
  lemma {:induction false} ColumnsKeptAll(row: Row, es: seq<FilterEntry>)
    ensures ColumnsKept(row, es) <==> forall e :: e in es ==> EntryKept(row, e)
  {
    if es != [] {
      var init := es[..|es| - 1];
      ColumnsKeptAll(row, init);
      assert es == init + [es[|es| - 1]];
    }
  }

  /** One more column filter entry adds its own test. */
  lemma ColumnsKeptStep(row: Row, es: seq<FilterEntry>, i: int)
    requires 0 <= i < |es|
    ensures ColumnsKept(row, es[..i + 1]) == (ColumnsKept(row, es[..i]) && EntryKept(row, es[i]))
  {
    assert es[..i + 1][..i] == es[..i];
  }

  /** Whether a row survives both stages of `filteredData`. */
  predicate Kept(row: Row, f: Filters, o: Options)
  {
    GlobalKept(row, f, o) && (o.enableColumnSearch ==> ColumnsKept(row, f.columnFilters))
  }

  /** `filteredData`, as one filter by the combined test. */
  function Filtered(data: seq<Row>, f: Filters, o: Options): seq<Row>
  {
    Filter(data, (row: Row) => Kept(row, f, o))
  }

  /** The `filteredData` memo: the global filter first, then one filter per column filter entry. */
  method ApplyFilters(data: seq<Row>, f: Filters, o: Options) returns (filtered: seq<Row>)
    ensures filtered == Filtered(data, f, o)
  {
    filtered := data;
    ghost var global := (row: Row) => GlobalKept(row, f, o);
    if o.enableGlobalSearch && f.globalFilter != "" {
      var searchTerm := Lower(f.globalFilter);
      filtered := Filter(filtered, (row: Row) => AnyColumnMatches(row, o.searchableColumns, searchTerm));
      FilterCongruent(data, (row: Row) => AnyColumnMatches(row, o.searchableColumns, searchTerm), global);
    } else {
      FilterKeepsAll(data, global);
    }
    assert filtered == Filter(data, global);
    if o.enableColumnSearch {
      var es := f.columnFilters;
      var i := 0;
      FilterCongruent(data, global, (row: Row) => GlobalKept(row, f, o) && ColumnsKept(row, es[..0]));
      while i < |es|
        invariant 0 <= i <= |es|
        invariant filtered == Filter(data, (row: Row) => GlobalKept(row, f, o) && ColumnsKept(row, es[..i]))
      {
        var e := es[i];
        ghost var before := (row: Row) => GlobalKept(row, f, o) && ColumnsKept(row, es[..i]);
        ghost var after := (row: Row) => GlobalKept(row, f, o) && ColumnsKept(row, es[..i + 1]);
        forall row: Row ensures after(row) == (before(row) && EntryKept(row, e)) {
          ColumnsKeptStep(row, es, i);
        }
        if e.value != "" {
          var term := Lower(e.value);
          var step := (row: Row) => Matches(Field(row, e.column), term);
          filtered := Filter(filtered, step);
          FilterFilter(data, before, step, after);
        } else {
          FilterCongruent(data, before, after);
        }
        i := i + 1;
      }
      assert es[..i] == es;
      FilterCongruent(data, (row: Row) => GlobalKept(row, f, o) && ColumnsKept(row, es[..i]),
                      (row: Row) => Kept(row, f, o));
    } else {
      FilterCongruent(data, global, (row: Row) => Kept(row, f, o));
    }
  }

  /** `filteredData` keeps rows of `data`, in their order, and makes none up. */
  lemma FilteredIsSubsequence(data: seq<Row>, f: Filters, o: Options)
    ensures IsSubsequence(Filtered(data, f, o), data)
  {
    FilterIsSubsequence(data, (row: Row) => Kept(row, f, o));
  }

  /**
   * A row is kept iff it is in `data`, some searchable column holds a truthy value whose
   * lower-cased text contains the lower-cased search term (when a global search applies), and
   * every column filter with a non-empty value matches its column the same way (when column
   * search is on).
   */
  lemma KeptExactly(data: seq<Row>, f: Filters, o: Options, row: Row)
    ensures row in Filtered(data, f, o) <==>
      && row in data
      && (GlobalActive(f, o) ==>
            exists i :: 0 <= i < |o.searchableColumns|
              && Matches(Field(row, o.searchableColumns[i]), Lower(f.globalFilter)))
      && (o.enableColumnSearch ==> forall e :: e in f.columnFilters ==> EntryKept(row, e))
  {
    FilterMember(data, (row: Row) => Kept(row, f, o), row);
    AnyColumnMatchesExists(row, o.searchableColumns, Lower(f.globalFilter));
    ColumnsKeptAll(row, f.columnFilters);
  }

  /** With no searchable columns a non-empty global search removes every row. */
  lemma NoSearchableColumnsRemovesAll(data: seq<Row>, f: Filters, o: Options)
    requires o.searchableColumns == [] && GlobalActive(f, o)
    ensures Filtered(data, f, o) == []
  {
    if Filtered(data, f, o) != [] {
      var row := Filtered(data, f, o)[0];
      KeptExactly(data, f, o, row);
    }
  }

  /** No global search and no non-empty column filter in force: every row is kept, in order. */
  lemma NoActiveFilterKeepsAll(data: seq<Row>, f: Filters, o: Options)
    requires !GlobalActive(f, o)
    requires o.enableColumnSearch ==> forall e :: e in f.columnFilters ==> e.value == ""
    ensures Filtered(data, f, o) == data
  {
    forall i | 0 <= i < |data| ensures Kept(data[i], f, o) {
      ColumnsKeptAll(data[i], f.columnFilters);
    }
    FilterKeepsAll(data, (row: Row) => Kept(row, f, o));
  }

  /**
   * Setting a filter on a column without a non-empty filter only narrows the result: the new
   * result is the old one filtered by the new condition, so it never gains rows. An empty value
   * stays in the entries but changes nothing.
   */
  lemma NewColumnFilterNarrows(data: seq<Row>, f: Filters, o: Options, k: string, v: string)
    requires UniqueKeys(f.columnFilters)
    requires Lookup(f.columnFilters, k).None? || Lookup(f.columnFilters, k) == Some("")
    ensures var g := Filters(f.globalFilter, Upsert(f.columnFilters, k, v));
      && Filtered(data, g, o)
         == Filter(Filtered(data, f, o), (row: Row) => o.enableColumnSearch ==> EntryKept(row, FilterEntry(k, v)))
      && IsSubsequence(Filtered(data, g, o), Filtered(data, f, o))
      && (v == "" ==> Filtered(data, g, o) == Filtered(data, f, o))
  {
    var es := f.columnFilters;
    var g := Filters(f.globalFilter, Upsert(es, k, v));
    var extra := (row: Row) => o.enableColumnSearch ==> EntryKept(row, FilterEntry(k, v));
    forall row: Row ensures Kept(row, g, o) == (Kept(row, f, o) && extra(row)) {
      ColumnsKeptAll(row, es);
      ColumnsKeptAll(row, g.columnFilters);
      forall e | e in es && e.column == k ensures e.value == "" {
        LookupFinds(es, e);
      }
      forall e ensures e in g.columnFilters <==> (e in es && e.column != k) || e == FilterEntry(k, v) {
        UpsertMembers(es, k, v, e);
      }
    }
    FilterFilter(data, (row: Row) => Kept(row, f, o), extra, (row: Row) => Kept(row, g, o));
    FilterIsSubsequence(Filtered(data, f, o), extra);
    if v == "" {
      FilterKeepsAll(Filtered(data, f, o), extra);
    }
  }

  /** With unique keys, an entry is what its key looks up. */
  lemma {:induction false} LookupFinds(es: seq<FilterEntry>, e: FilterEntry)
    requires UniqueKeys(es) && e in es
    ensures Lookup(es, e.column) == Some(e.value)
  {
    if es[0] != e {
      assert e in es[1..];
      LookupFinds(es[1..], e);
    }
  }

  /** The state `useDataTable` holds between renders, for one set of props. */
  class DataTableHook {
    const data: seq<Row>
    const columns: seq<ColumnDef>
    const options: Options
    var globalFilter: string
    var columnFilters: seq<FilterEntry>
    var columnVisibility: Visibility
    var pageIndex: int
    var pageSize: int

    ghost predicate Valid()
      reads this
    {
      UniqueKeys(columnFilters)
    }

    /** Empty filters and visibility, the first page. */
    constructor(data: seq<Row>, columns: seq<ColumnDef>, options: Options, pageSize: int)
      ensures Valid()
      ensures this.data == data && this.columns == columns && this.options == options
      ensures globalFilter == "" && columnFilters == [] && columnVisibility == map[]
      ensures pageIndex == 0 && this.pageSize == pageSize
    {
      this.data := data;
      this.columns := columns;
      this.options := options;
      globalFilter := "";
      columnFilters := [];
      columnVisibility := map[];
      pageIndex := 0;
      this.pageSize := pageSize;
    }

    /** `setGlobalFilter`, the state setter itself: the page is not reset. */
    method SetGlobalFilter(value: string)
      modifies this`globalFilter
      ensures globalFilter == value
    {
      globalFilter := value;
    }

    method SetColumnFilter(columnId: string, value: string)
      requires Valid()
      modifies this`columnFilters
      ensures Valid()
      ensures columnFilters == Upsert(old(columnFilters), columnId, value)
      ensures Lookup(columnFilters, columnId) == Some(value)
      ensures forall other :: other != columnId ==> Lookup(columnFilters, other) == Lookup(old(columnFilters), other)
    {
      columnFilters := Upsert(columnFilters, columnId, value);
      UpsertPlacement(old(columnFilters), columnId, value);
      forall other | other != columnId
        ensures Lookup(columnFilters, other) == Lookup(old(columnFilters), other)
      {
        UpsertLookup(old(columnFilters), columnId, value, other);
      }
      UpsertLookup(old(columnFilters), columnId, value, columnId);
    }

    /** Both filters emptied; pagination, visibility and the data untouched. */
    method ClearFilters()
      modifies this`globalFilter, this`columnFilters
      ensures Valid()
      ensures globalFilter == "" && columnFilters == []
      ensures FilteredData() == data
    {
      globalFilter := "";
      columnFilters := [];
      NoActiveFilterKeepsAll(data, Filters(globalFilter, columnFilters), options);
    }

    method ToggleColumnVisibility(columnId: string)
      modifies this`columnVisibility
      ensures columnVisibility == Toggled(old(columnVisibility), columnId)
    {
      columnVisibility := Toggled(columnVisibility, columnId);
    }

    method ShowAllColumns()
      modifies this`columnVisibility
      ensures columnVisibility == map[]
    {
      columnVisibility := map[];
    }

    method HideAllColumns()
      modifies this`columnVisibility
      ensures columnVisibility == HideAll(columns)
    {
      columnVisibility := HideAll(columns);
    }

    /** The `filteredData` the hook returns for its current filters. */
    function FilteredData(): seq<Row>
      reads this
    {
      Filtered(data, Filters(globalFilter, columnFilters), options)
    }

    /** `filteredData` and `totalRows`, as the hook returns them. */
    method Results() returns (filteredData: seq<Row>, totalRows: nat)
      ensures filteredData == FilteredData()
      ensures totalRows == |filteredData| && totalRows <= |data|
    {
      filteredData := ApplyFilters(data, Filters(globalFilter, columnFilters), options);
      totalRows := |filteredData|;
    }
  }
}
