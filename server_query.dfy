/**
 * The query that `fetchClients` and `fetchProjects` build from a table state, described as
 * a value instead of a call chain on the service's query builder, and the response they make
 * of the service's reply. Both tables build the same shape of query; they differ only in the
 * table name and the columns of the global search.
 */
module ServerQuery {
  import opened Wrappers
  import opened Seqs
  import opened JsValues
  import opened ServerSideTable

  /** A filter: `.or(text)` with its PostgREST text, or `.ilike(column, pattern)`. */
  datatype Clause = OrText(text: string) | Ilike(column: string, pattern: string)

  /** `.order(column, { ascending })` */
  datatype Order = Order(column: string, ascending: bool)

  /** `from(table).select(...)`, the filters in the order applied, the order and `.range(from, to)`. */
  datatype Query = Query(table: string, clauses: seq<Clause>, order: Order, from: int, to: int)

  /** What the awaited query yields: `{ data, error, count }`. */
  datatype ServiceReply = ServiceReply(data: Option<seq<Row>>, error: Option<Thrown>, count: Option<nat>)

  /** `%term%`: a substring pattern. */
  function Pattern(term: string): string
  {
    "%" + term + "%"
  }

  /** `column.ilike.%term%` */
  function IlikeCondition(column: string, term: string): string
  {
    column + ".ilike." + Pattern(term)
  }

  function IlikeConditions(columns: seq<string>, term: string): (r: seq<string>)
    ensures |r| == |columns|
    ensures forall i :: 0 <= i < |columns| ==> r[i] == IlikeCondition(columns[i], term)
  {
    seq(|columns|, i requires 0 <= i < |columns| => IlikeCondition(columns[i], term))
  }

  /** The text handed to `.or(...)`: one `ilike` condition per searched column, comma separated. */
  function OrFilterText(columns: seq<string>, term: string): string
  {
    Join(",", IlikeConditions(columns, term))
  }

  /** The global search: one `.or` clause when the filter is non-empty, none otherwise. */
  function GlobalClauses(columns: seq<string>, globalFilter: string): (r: seq<Clause>)
    ensures globalFilter == "" ==> r == []
    ensures globalFilter != "" ==> r == [OrText(OrFilterText(columns, globalFilter))]
  {
    if globalFilter != "" then [OrText(OrFilterText(columns, globalFilter))] else []
  }

  /** The clauses of the `forEach` over the column filters, taken in order. */
  function FilterClauses(fs: seq<ColumnFilter>): seq<Clause>
  {
    if fs == [] then []
    else
      var f := fs[|fs| - 1];
      FilterClauses(fs[..|fs| - 1]) + (if f.value != "" then [Ilike(f.id, Pattern(f.value))] else [])
  }

  function ToIlike(f: ColumnFilter): Clause
  {
    Ilike(f.id, Pattern(f.value))
  }

  function MapIlike(fs: seq<ColumnFilter>): (r: seq<Clause>)
    ensures |r| == |fs|
    ensures forall i :: 0 <= i < |fs| ==> r[i] == ToIlike(fs[i])
  {
    seq(|fs|, i requires 0 <= i < |fs| => ToIlike(fs[i]))
  }

  predicate HasValue(f: ColumnFilter)
  {
    f.value != ""
  }

  /** The column filters add exactly one `ilike` per filter with a non-empty value, in list order. */
  lemma {:induction false} FilterClausesExactly(fs: seq<ColumnFilter>)
    ensures FilterClauses(fs) == MapIlike(Filter(fs, HasValue))
  {
    if fs != [] {
      var init := fs[..|fs| - 1];
      var f := fs[|fs| - 1];
      FilterClausesExactly(init);
      assert fs == init + [f];
      FilterAppend(init, [f], HasValue);
      assert MapIlike(Filter(init, HasValue) + Filter([f], HasValue))
          == MapIlike(Filter(init, HasValue)) + MapIlike(Filter([f], HasValue));
    }
  }

  /** First sort entry, ascending unless it says `desc`; with none, newest `created_at` first. */
  function SortOrder(sorting: seq<SortEntry>): (r: Order)
    ensures |sorting| > 0 ==> r == Order(sorting[0].id, !sorting[0].desc)
    ensures |sorting| == 0 ==> r == Order("created_at", false)
  {
    if |sorting| > 0 then Order(sorting[0].id, !sorting[0].desc) else Order("created_at", false)
  }

  function RangeFrom(p: Pagination): int
  {
    p.pageIndex * p.pageSize
  }

  function RangeTo(p: Pagination): int
  {
    RangeFrom(p) + p.pageSize - 1
  }

  /** The query built for a table, a set of searched columns and a table state. */
  function QueryFor(table: string, columns: seq<string>, s: TableState): Query
  {
    Query(table, GlobalClauses(columns, s.globalFilter) + FilterClauses(s.columnFilters),
          SortOrder(s.sorting), RangeFrom(s.pagination), RangeTo(s.pagination))
  }

  /** The query, built step by step as the code reassigns its builder. */
  method BuildQuery(table: string, columns: seq<string>, s: TableState) returns (q: Query)
    ensures q == QueryFor(table, columns, s)
  {
    var clauses: seq<Clause> := [];
    if s.globalFilter != "" {
      clauses := clauses + [OrText(OrFilterText(columns, s.globalFilter))];
    }
    var i := 0;
    while i < |s.columnFilters|
      invariant 0 <= i <= |s.columnFilters|
      invariant clauses == GlobalClauses(columns, s.globalFilter) + FilterClauses(s.columnFilters[..i])
    {
      var f := s.columnFilters[i];
      assert s.columnFilters[..i + 1][..i] == s.columnFilters[..i];
      if f.value != "" {
        clauses := clauses + [Ilike(f.id, Pattern(f.value))];
      }
      i := i + 1;
    }
    assert s.columnFilters[..i] == s.columnFilters;
    var order: Order;
    if |s.sorting| > 0 {
      var sort := s.sorting[0];
      order := Order(sort.id, !sort.desc);
    } else {
      order := Order("created_at", false);
    }
    var from := s.pagination.pageIndex * s.pagination.pageSize;
    var to := from + s.pagination.pageSize - 1;
    q := Query(table, clauses, order, from, to);
  }

  /** `Math.ceil(totalCount / pageSize)` with `totalCount = count || 0`. */
  function PageCount(count: Option<nat>, pageSize: int): JsNumber
  {
    CeilDiv(count.GetOr(0), pageSize)
  }

  /** The response made of the service's reply: an error is rethrown, missing data is an empty list. */
  function Respond(reply: ServiceReply, pageSize: int): (r: FetchOutcome)
    ensures reply.error.Some? ==> r == Rejected(reply.error.value)
    ensures reply.error.None? ==>
              && r.Resolved?
              && r.response.data == reply.data.GetOr([])
              && r.response.totalCount == reply.count.GetOr(0)
              && r.response.pageCount == PageCount(reply.count, pageSize)
  {
    if reply.error.Some? then Rejected(reply.error.value)
    else
      var totalCount := reply.count.GetOr(0);
      Resolved(DataResponse(reply.data.GetOr([]), totalCount, CeilDiv(totalCount, pageSize)))
  }

  /** A fetch: build the query, send it, make the response of the reply. */
  function Fetch(table: string, columns: seq<string>, service: Query -> ServiceReply, s: TableState): FetchOutcome
  {
    Respond(service(QueryFor(table, columns, s)), s.pagination.pageSize)
  }

  /** The global search's text splits into one `ilike` condition per searched column, in order. */
  lemma OrFilterConditions(columns: seq<string>, term: string)
    requires |columns| >= 1
    requires ',' !in term
    requires forall i :: 0 <= i < |columns| ==> ',' !in columns[i]
    ensures Split(OrFilterText(columns, term), ',') == IlikeConditions(columns, term)
  {
    var conds := IlikeConditions(columns, term);
    forall i | 0 <= i < |conds| ensures ',' !in conds[i] {
      assert conds[i] == columns[i] + (".ilike." + ("%" + term + "%"));
    }
    SplitJoin(conds, ',');
  }

  /**
   * The search term goes into the `.or` text as typed, so a ',' in it splits its condition in
   * two: for the term "a,b" the text of one column reads as `column.ilike.%a` and `b%`.
   */
  lemma CommaInTermSplitsCondition(column: string, a: string, b: string)
    requires ',' !in column && ',' !in a && ',' !in b
    ensures Split(OrFilterText([column], a + "," + b), ',') == [column + ".ilike.%" + a, b + "%"]
  {
    var first := column + ".ilike.%" + a;
    assert OrFilterText([column], a + "," + b) == first + [','] + (b + "%");
    assert ',' !in first by {
      forall i | 0 <= i < |first| ensures first[i] != ',' {
        if i >= |column| + 8 {
          assert first[i] == a[i - |column| - 8];
        } else if i >= |column| {
          assert first[i] == ".ilike.%"[i - |column|];
        } else {
          assert first[i] == column[i];
        }
      }
    }
    assert ',' !in b + "%" by {
      assert forall i | 0 <= i < |b| :: (b + "%")[i] == b[i];
    }
    SplitPiece(first, ',', b + "%");
    SplitPiece(b + "%", ',', "");
  }

  /** The requested window covers exactly `pageSize` positions. */
  lemma WindowSize(p: Pagination)
    ensures RangeTo(p) - RangeFrom(p) + 1 == p.pageSize
  {
  }

  /**
   * With a positive page size the windows of the pages tile the rows: each row position lies
   * in the window of exactly one page, and consecutive windows are adjacent.
   */
  lemma WindowsTile(pageSize: int, k: nat, pageIndex: nat)
    requires pageSize > 0
    ensures RangeTo(Pagination(pageIndex, pageSize)) + 1 == RangeFrom(Pagination(pageIndex + 1, pageSize))
    ensures RangeFrom(Pagination(pageIndex, pageSize)) <= k <= RangeTo(Pagination(pageIndex, pageSize))
        <==> pageIndex == k / pageSize
  {
    var from := pageIndex * pageSize;
    assert (pageIndex + 1) * pageSize == from + pageSize;
    if from <= k < from + pageSize {
      DivisionInWindow(k, pageSize, pageIndex);
    }
    if pageIndex == k / pageSize {
      assert k == (k / pageSize) * pageSize + k % pageSize;
    }
  }

  lemma DivisionInWindow(k: nat, pageSize: int, pageIndex: nat)
    requires pageSize > 0
    requires pageIndex * pageSize <= k < pageIndex * pageSize + pageSize
    ensures k / pageSize == pageIndex
  {
    var q := k / pageSize;
    var r := k % pageSize;
    assert k == q * pageSize + r && 0 <= r < pageSize;
    if q < pageIndex {
      MulMono(q + 1, pageIndex, pageSize);
      assert false;
    } else if q > pageIndex {
      MulMono(pageIndex + 1, q, pageSize);
      assert false;
    }
  }

  lemma MulMono(a: int, b: int, c: int)
    requires a <= b && c >= 0
    ensures a * c <= b * c
  {
    assert b * c - a * c == (b - a) * c;
  }

  /**
   * With a positive page size the page count is the least number of pages that hold every
   * row: zero for no rows, otherwise the last page is the one holding the last row.
   */
  lemma PageCountCovers(total: nat, pageSize: int)
    requires pageSize > 0
    ensures PageCount(Some(total), pageSize).Finite?
    ensures var n := PageCount(Some(total), pageSize).n;
      && n >= 0 && n * pageSize >= total
      && (total == 0 <==> n == 0)
      && (total > 0 ==> n - 1 == (total - 1) / pageSize)
  {
    var n := (total + pageSize - 1) / pageSize;
    assert total + pageSize - 1 == n * pageSize + (total + pageSize - 1) % pageSize;
    if total > 0 {
      var m := (total - 1) / pageSize;
      assert total - 1 == m * pageSize + (total - 1) % pageSize;
      assert total + pageSize - 1 == (m + 1) * pageSize + (total - 1) % pageSize;
      DivisionInWindow(total + pageSize - 1, pageSize, m + 1);
    } else {
      DivisionInWindow(pageSize - 1, pageSize, 0);
    }
  }

  /** A missing count reads as zero rows. */
  lemma MissingCountIsZero(pageSize: int)
    requires pageSize > 0
    ensures PageCount(None, pageSize) == Finite(0)
  {
    PageCountCovers(0, pageSize);
  }

  /**
   * The export state of an empty result asks for pages of size 0, and the response's page
   * count is then `Math.ceil(0 / 0)`, which is `NaN`.
   */
  lemma EmptyExportPageCount(table: string, columns: seq<string>, s: TableState, reply: ServiceReply)
    requires reply.error.None?
    ensures var e := ExportState(s, 0);
      && e.pagination.pageSize == 0
      && QueryFor(table, columns, e).from == 0 && QueryFor(table, columns, e).to == -1
      && Respond(reply, e.pagination.pageSize).response.pageCount ==
         (if reply.count.GetOr(0) == 0 then NaN else Infinity)
  {
  }
}
