/** The server-side projects table: its fetch function and its display cells. */
module ServerSideProjectTable {
  import opened Wrappers
  import opened Seqs
  import opened JsValues
  import opened ServerSideTable
  import opened ServerQuery

  const Table := "projects"

  /** Columns of the global search, in the order of the `.or` text. */
  const SearchColumns: seq<string> := ["name", "description", "status"]

  /** `fetchProjects`, for a given service. */
  function FetchProjects(service: Query -> ServiceReply): TableState -> FetchOutcome
  {
    s => Fetch(Table, SearchColumns, service, s)
  }

  /**
   * The query `fetchProjects` sends: for a non-empty global filter exactly the source's `.or`
   * text over name, description and status, then one `ilike` per non-empty column filter,
   * the first sort entry or newest first, and the page's window.
   */
  lemma ProjectsQuery(s: TableState)
    ensures var q := QueryFor(Table, SearchColumns, s); var g := s.globalFilter;
      && q.table == "projects"
      && q.clauses == (if g != "" then [OrText(Join(",", ["name.ilike.%" + g + "%",
                                                         "description.ilike.%" + g + "%",
                                                         "status.ilike.%" + g + "%"]))]
                       else []) + MapIlike(Filter(s.columnFilters, HasValue))
      && q.order == SortOrder(s.sorting)
      && q.from == s.pagination.pageIndex * s.pagination.pageSize
      && q.to == q.from + s.pagination.pageSize - 1
  {
    FilterClausesExactly(s.columnFilters);
    var g := s.globalFilter;
    var conds := IlikeConditions(SearchColumns, g);
    assert conds[0] == "name.ilike.%" + g + "%" && conds[1] == "description.ilike.%" + g + "%"
        && conds[2] == "status.ilike.%" + g + "%";
    assert conds == ["name.ilike.%" + g + "%", "description.ilike.%" + g + "%", "status.ilike.%" + g + "%"];
  }

  /** The fetch made for a state, and what becomes of its reply. */
  lemma FetchProjectsReply(service: Query -> ServiceReply, s: TableState)
    ensures var reply := service(QueryFor(Table, SearchColumns, s));
      FetchProjects(service)(s) == Respond(reply, s.pagination.pageSize)
  {
  }

  /** Position of the first `c` in `s`. */
  function FirstIndex(s: string, c: char): (i: nat)
    requires c in s
    ensures i < |s| && s[i] == c && c !in s[..i]
  {
    if s[0] == c then 0 else FirstIndex(s[1..], c) + 1
  }

  /** `s.replace(from, to)` with a one-character string pattern: only the first match is replaced. */
  function ReplaceFirst(s: string, from: char, to: char): (r: string)
    ensures |r| == |s|
  {
    if s == [] then []
    else if s[0] == from then [to] + s[1..]
    else [s[0]] + ReplaceFirst(s[1..], from, to)
  }

  /** Without the pattern the text is unchanged; otherwise exactly its first occurrence becomes `to`. */
  lemma {:induction false} ReplaceFirstSpec(s: string, from: char, to: char)
    ensures from !in s ==> ReplaceFirst(s, from, to) == s
    ensures from in s ==> var i := FirstIndex(s, from);
      ReplaceFirst(s, from, to) == s[..i] + [to] + s[i + 1..]
  {
    if s != [] && s[0] != from {
      ReplaceFirstSpec(s[1..], from, to);
      assert s == [s[0]] + s[1..];
      if from in s {
        assert from in s[1..];
        var j := FirstIndex(s[1..], from);
        assert s[..j + 1] == [s[0]] + s[1..][..j];
        assert s[j + 2..] == s[1..][j + 1..];
      }
    }
  }

  /** The status badge's text, `status?.replace('_', ' ')`; a missing status shows nothing. */
  function StatusLabel(status: Option<string>): (r: Option<string>)
    ensures status.None? ==> r.None?
    ensures status.Some? ==> r.Some? && |r.value| == |status.value|
    ensures status.Some? && '_' in status.value ==>
      var i := FirstIndex(status.value, '_');
      r.value[i] == ' ' && r.value[..i] == status.value[..i] && r.value[i + 1..] == status.value[i + 1..]
  {
    match status
    case None => None
    case Some(s) => ReplaceFirstSpec(s, '_', ' '); Some(ReplaceFirst(s, '_', ' '))
  }

  /** A leading character other than the pattern is kept and the search goes on. */
  lemma ReplaceFirstSkip(c: char, rest: string, from: char, to: char)
    requires c != from
    ensures ReplaceFirst([c] + rest, from, to) == [c] + ReplaceFirst(rest, from, to)
  {
    assert ([c] + rest)[1..] == rest;
  }

  /** A leading pattern character is replaced and the rest is left alone. */
  lemma ReplaceFirstHit(rest: string, from: char, to: char)
    ensures ReplaceFirst([from] + rest, from, to) == [to] + rest
  {
    assert ([from] + rest)[1..] == rest;
  }

  lemma OnHoldReplaced()
    ensures ReplaceFirst("on_hold", '_', ' ') == "on hold"
  {
    assert "on_hold" == ['o'] + (['n'] + (['_'] + "hold"));
    ReplaceFirstHit("hold", '_', ' ');
    ReplaceFirstSkip('n', ['_'] + "hold", '_', ' ');
    ReplaceFirstSkip('o', ['n'] + (['_'] + "hold"), '_', ' ');
  }

  lemma SecondUnderscoreKept()
    ensures ReplaceFirst("a_b_c", '_', ' ') == "a b_c"
  {
    assert "a_b_c" == ['a'] + (['_'] + "b_c");
    ReplaceFirstHit("b_c", '_', ' ');
    ReplaceFirstSkip('a', ['_'] + "b_c", '_', ' ');
  }

  lemma ActiveUnchanged()
    ensures ReplaceFirst("active", '_', ' ') == "active"
  {
    assert forall i :: 0 <= i < |"active"| ==> "active"[i] != '_';
  }

  /** Only the first underscore is replaced: "a_b_c" shows as "a b_c". */
  lemma OnlyFirstUnderscore()
    ensures StatusLabel(Some("on_hold")) == Some("on hold")
    ensures StatusLabel(Some("a_b_c")) == Some("a b_c")
    ensures StatusLabel(Some("active")) == Some("active")
  {
    OnHoldReplaced();
    SecondUnderscoreKept();
    ActiveUnchanged();
  }

  /** The client cell: `project.clients?.company || 'N/A'`; a project without a client shows 'N/A'. */
  function ClientCell(clientCompany: Option<Value>): (r: Value)
    ensures clientCompany.None? ==> r == Str("N/A")
    ensures clientCompany.Some? && Truthy(clientCompany.value) ==> r == clientCompany.value
    ensures clientCompany.Some? && !Truthy(clientCompany.value) ==> r == Str("N/A")
  {
    OrFallback(clientCompany.GetOr(Undefined), NotAvailable)
  }

  /** The description cell shows `OrFallback(description, NoDescription)`. */
  const NoDescription := "No description"
}
