/** The server-side clients table: its fetch function and the query it sends. */
module ServerSideClientTable {
  import opened Seqs
  import opened JsValues
  import opened ServerSideTable
  import opened ServerQuery

  const Table := "clients"

  /** Columns of the global search, in the order of the `.or` text. */
  const SearchColumns: seq<string> := ["company", "name", "email", "status"]

  /** `fetchClients`, for a given service. */
  function FetchClients(service: Query -> ServiceReply): TableState -> FetchOutcome
  {
    s => Fetch(Table, SearchColumns, service, s)
  }

  /**
   * The query `fetchClients` sends: for a non-empty global filter exactly the source's `.or`
   * text over company, name, email and status, then one `ilike` per non-empty column filter,
   * the first sort entry or newest first, and the page's window.
   */
  lemma ClientsQuery(s: TableState)
    ensures var q := QueryFor(Table, SearchColumns, s); var g := s.globalFilter;
      && q.table == "clients"
      && q.clauses == (if g != "" then [OrText(Join(",", ["company.ilike.%" + g + "%", "name.ilike.%" + g + "%",
                                                         "email.ilike.%" + g + "%", "status.ilike.%" + g + "%"]))]
                       else []) + MapIlike(Filter(s.columnFilters, HasValue))
      && q.order == SortOrder(s.sorting)
      && q.from == s.pagination.pageIndex * s.pagination.pageSize
      && q.to == q.from + s.pagination.pageSize - 1
  {
    FilterClausesExactly(s.columnFilters);
    var g := s.globalFilter;
    var conds := IlikeConditions(SearchColumns, g);
    assert conds[0] == "company.ilike.%" + g + "%" && conds[1] == "name.ilike.%" + g + "%"
        && conds[2] == "email.ilike.%" + g + "%" && conds[3] == "status.ilike.%" + g + "%";
    assert conds == ["company.ilike.%" + g + "%", "name.ilike.%" + g + "%",
                     "email.ilike.%" + g + "%", "status.ilike.%" + g + "%"];
  }

  /** The fetch made for a state, and what becomes of its reply. */
  lemma FetchClientsReply(service: Query -> ServiceReply, s: TableState)
    ensures var reply := service(QueryFor(Table, SearchColumns, s));
      FetchClients(service)(s) == Respond(reply, s.pagination.pageSize)
  {
  }
}
