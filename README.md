# Clever console: a verified model of its table, export and dashboard logic

The repository is a React console over a hosted Postgres service: employees, clients, projects,
working hours and payments. This project models the logic under the pages in Dafny and proves
what that logic promises. The pages' JSX and the network calls are not modelled.

The modelled parts are:

- **Server-side table controller** (`useServerSideDataTable`): the table state, its updaters,
  the load step with its error policy, column visibility, and the export fetch.
- **Client-side table hook** (`useDataTable`): the filtered rows, built by a global search and
  then one filter per column filter entry.
- **Export builders** (`useDataExport`): the CSV text, the spreadsheet matrix, the PDF table and
  the print document.
- **Server queries** (`fetchClients`, `fetchProjects`): the query each one sends, held as a value.
  It lists the filter clauses, the order and the row window. The models also cover how a reply
  becomes a response or a rethrown error.
- **Table view** (`ServerSideDataTable`): the export file name, the filter test and the labels.
  It also covers export dispatch and the `exportLoading` flag.
- **Dashboard**: the date range, summary figures and chart series, the activity lines, and the
  page state.
- **Client management page**: the add/edit dialog, the writes it sends, and the client counts.
- **Floating navigation menu**: the permission filter and the open/closed state.
- **Profile table**: role labels and cell fallbacks.

Shared modules:

| module | holds |
|---|---|
| `Wrappers` | `Option`, `Result` and a query `Reply` |
| `JsValues` | JavaScript values: truthiness, `\|\|`, `String(v)`, ASCII `toLowerCase`, `\s`, `includes`, `Math.ceil` of a division |
| `Seqs` | `filter`, `join`, `split` and sums |
| `ColumnVisibility` | the visibility record both table hooks keep |
| `Calendar` | JavaScript `Date` arithmetic as day numbers |
| `Grouping` | the dashboard's "find or push" reductions and the sort of their result |

Where the model has a state that changes, it is a class:

- The controller, the two hooks' holders, the view, the dashboard page, the client page and the
  menu are classes.
- Their methods update fields.
- Their `ensures` clauses tie the new state to a function of the old one. The properties are
  proved about those functions.

`fetchData`, the Supabase service and `hasPermission` are function parameters. A user's answer
to `confirm` is also a parameter, as is whether `window.open` returned a window.

## Model

| member | source | states |
|---|---|---|
| ServerSideTable.Controller.constructor | src/hooks/useServerSideDataTable.tsx:47-63 | Initial state: first page of the given size, no sorting, no column filters, empty global filter, empty visibility record, nothing loaded, no error |
| ServerSideTable.Controller.LoadData | src/hooks/useServerSideDataTable.tsx:66-81 | A resolved fetch replaces data, totalCount and pageCount and leaves no error. A rejection sets the error to the Error's message, or 'Failed to fetch data' for other thrown values, and keeps data, totalCount and pageCount. Loading is false afterwards either way |
| ServerSideTable.Controller.BeginLoad | src/hooks/useServerSideDataTable.tsx:67-68 | Before the await: loading on, error cleared |
| ServerSideTable.Controller.FinishLoad | src/hooks/useServerSideDataTable.tsx:70-80 | After the await: a response replaces the page, a rejection records its message and keeps the page; loading off |
| ServerSideTable.WithGlobalFilter | src/hooks/useServerSideDataTable.tsx:134-138 | New global filter, page index 0, page size, sorting and column filters unchanged |
| ServerSideTable.Controller.SetGlobalFilter | src/hooks/useServerSideDataTable.tsx:131-139 | Applies WithGlobalFilter when global search is enabled, otherwise changes nothing |
| ServerSideTable.WithColumnFilter | src/hooks/useServerSideDataTable.tsx:144-155 | Entries of other columns are kept and every entry of this column is dropped. {id, value} is added only for a non-empty value, and then as the last entry. Page index 0; sorting and global filter unchanged |
| ServerSideTable.ColumnFilterKeepsOthersInOrder | src/hooks/useServerSideDataTable.tsx:145-148 | The other columns' entries after the update are a subsequence of the old list (same order, none new) |
| ServerSideTable.ColumnFilterLastWins | src/hooks/useServerSideDataTable.tsx:141-156 | Setting a column's filter twice equals setting it once to the later value |
| ServerSideTable.ColumnFilterWellFormed | src/hooks/useServerSideDataTable.tsx:145-148 | The updater keeps one entry per column, each with a non-empty value |
| ServerSideTable.ColumnFilterGetPut | src/components/ui/server-side-data-table.tsx:375-376 | After setColumnFilter(id, v) the filter box of column id shows v and every other box shows what it showed before |
| ServerSideTable.Controller.SetColumnFilter | src/hooks/useServerSideDataTable.tsx:141-156 | Applies WithColumnFilter when column search is enabled, otherwise changes nothing; keeps the filter list well formed |
| ServerSideTable.Cleared | src/hooks/useServerSideDataTable.tsx:159-164 | Global filter '', no column filters, page index 0; page size and sorting kept |
| ServerSideTable.Controller.ClearFilters | src/hooks/useServerSideDataTable.tsx:158-165 | The state becomes Cleared of the old state |
| ServerSideTable.Controller.OnPaginationChange | src/hooks/useServerSideDataTable.tsx:101-110 | When pagination is enabled only the pagination is replaced; otherwise nothing changes |
| ServerSideTable.Controller.OnSortingChange | src/hooks/useServerSideDataTable.tsx:111-120 | When sorting is enabled only the sorting is replaced, page index and filters untouched; otherwise nothing changes |
| ColumnVisibility.Toggled | src/hooks/useServerSideDataTable.tsx:167-172 | The column's entry becomes the negation of its old value, a missing entry counting as false; every other entry is unchanged |
| ServerSideTable.Controller.ToggleColumnVisibility | src/hooks/useServerSideDataTable.tsx:167-172 | The visibility record becomes Toggled of the old one |
| ColumnVisibility.ToggleTwice | src/hooks/useServerSideDataTable.tsx:167-172 | Two toggles restore the entry as a boolean; a missing entry comes back as false |
| ColumnVisibility.FirstToggleKeepsColumnVisible | src/hooks/useServerSideDataTable.tsx:170 | The first toggle of an unmentioned column writes true, so a column shown before stays shown |
| ColumnVisibility.ToggledVisibility | src/components/ui/server-side-data-table.tsx:290-291 | The toggle the checkbox intends: the column's visibility is negated and every other column's is kept |
| ServerSideTable.Controller.ShowAllColumns | src/hooks/useServerSideDataTable.tsx:174-176 | The visibility record becomes empty |
| ColumnVisibility.ShowAllShowsEverything | src/hooks/useServerSideDataTable.tsx:174-176 | With the empty record every declared column is visible, in declaration order |
| ServerSideTable.Controller.HideAllColumns | src/hooks/useServerSideDataTable.tsx:178-186 | The visibility record becomes the reduce over the columns |
| ColumnVisibility.HideAllExactly | src/hooks/useServerSideDataTable.tsx:179-184 | hideAllColumns maps exactly the columns with a non-empty accessorKey, each to false |
| ColumnVisibility.HideAllLeavesDisplayColumns | src/hooks/useServerSideDataTable.tsx:178-186 | After hiding all, a column is visible iff it is declared and has no accessorKey |
| ServerSideTable.Controller.VisibleData | src/hooks/useServerSideDataTable.tsx:189-202 | Headers of the visible columns in order. One row of cells per loaded row, each cell String(value \|\| '') |
| ServerSideTable.Cells | src/hooks/useServerSideDataTable.tsx:220-224 | One text row per row and one cell per column. Each cell is String(value \|\| '') of that column's field |
| JsValues.CellText | src/hooks/useServerSideDataTable.tsx:223 | String(value \|\| '') is empty exactly for falsy values (including 0 and false) |
| ServerSideTable.ExportState | src/hooks/useServerSideDataTable.tsx:206-212 | The export fetch state is the current one with page index 0 and page size = totalCount |
| ServerSideTable.Controller.GetAllDataForExport | src/hooks/useServerSideDataTable.tsx:205-231 | Fetches with ExportState. A rejection is rethrown; a response becomes the visible headers and the cells of every returned row |
| DataTable.ApplyFilters | src/hooks/useDataTable.tsx:35-62 | The step-by-step filtering (global search, then one filter per entry in entry order) yields Filtered(data) |
| DataTable.FilteredIsSubsequence | src/hooks/useDataTable.tsx:35-61 | filteredData is an order-preserving subsequence of data |
| DataTable.KeptExactly | src/hooks/useDataTable.tsx:39-59 | A row is kept iff it is in data, and two conditions hold. (1) If global search is on and the filter is non-empty, some searchable column has a truthy value whose lower-cased text contains the lower-cased term. (2) If column search is on, every entry with a non-empty value matches its column the same way |
| DataTable.AnyColumnMatchesExists | src/hooks/useDataTable.tsx:42-45 | `some` over the searchable columns holds iff one column matches |
| DataTable.ColumnsKeptAll | src/hooks/useDataTable.tsx:51-58 | The chained per-entry filters are their conjunction (AND) |
| DataTable.NoSearchableColumnsRemovesAll | src/hooks/useDataTable.tsx:39-47 | With no searchable columns an active global search removes every row |
| DataTable.NoActiveFilterKeepsAll | src/hooks/useDataTable.tsx:39-52 | No active global search and no non-empty column filter: filteredData equals data |
| DataTable.NewColumnFilterNarrows | src/hooks/useDataTable.tsx:41-58 | Adding a filter for a column without one gives the old result filtered by the new condition. The result is a subsequence of the old one, and an empty value changes nothing |
| DataTable.UpsertPlacement | src/hooks/useDataTable.tsx:85-88 | `{...prev, [k]: v}` keeps keys unique. An existing key is updated in place; a new key is appended |
| DataTable.UpsertLookup | src/hooks/useDataTable.tsx:84-89 | After the upsert the key reads v and every other key reads what it read before |
| DataTable.UpsertMembers | src/hooks/useDataTable.tsx:84-89 | After the upsert the entries are the old entries of other keys plus {k, v} |
| DataTable.DataTableHook.constructor | src/hooks/useDataTable.tsx:25-32 | Empty global filter, column filters and visibility; page 0 of the given size |
| DataTable.DataTableHook.SetGlobalFilter | src/hooks/useDataTable.tsx:25 | The plain state setter: only the global filter changes, the page is not reset |
| DataTable.DataTableHook.SetColumnFilter | src/hooks/useDataTable.tsx:84-89 | Upserts the entry (an empty value stays in the map); the key reads v, others unchanged |
| DataTable.DataTableHook.ClearFilters | src/hooks/useDataTable.tsx:91-94 | Global filter '' and no column filters, with pagination untouched; filteredData then equals data |
| DataTable.DataTableHook.ToggleColumnVisibility | src/hooks/useDataTable.tsx:96-101 | The visibility record becomes Toggled of the old one |
| DataTable.DataTableHook.ShowAllColumns | src/hooks/useDataTable.tsx:103-105 | The visibility record becomes empty |
| DataTable.DataTableHook.HideAllColumns | src/hooks/useDataTable.tsx:107-115 | The visibility record becomes the accessor-key columns mapped to false |
| DataTable.DataTableHook.Results | src/hooks/useDataTable.tsx:145-146 | Returns filteredData and totalRows = its length, at most the number of rows |
| DataExport.ExportToCsv | src/hooks/useDataExport.tsx:18-30 | The download is named filename + '.csv' (default 'export') and holds the CSV text |
| DataExport.CsvLines | src/hooks/useDataExport.tsx:19-22 | Split at '\n', the text gives the unquoted header line, then one line per row. There is no trailing newline, so there are 1 + rows lines (texts without line breaks) |
| DataExport.HeaderLineFields | src/hooks/useDataExport.tsx:20 | The header line is the headers joined by ',' unquoted: split at ',' it gives them back |
| DataExport.QuotedRowRoundTrip | src/hooks/useDataExport.tsx:21 | A row line (every cell in '"', joined by ',') reads back as the row when no cell holds a quote |
| DataExport.QuotedRowIsAmbiguous | src/hooks/useDataExport.tsx:21 | A cell `a"b` is written `"a"b"`, which does not read back as that cell |
| DataExport.Rfc4180RowRoundTrip | src/hooks/useDataExport.tsx:21 | With quotes doubled as section 2 of RFC 4180 requires, every row reads back exactly |
| DataExport.ExportToExcel | src/hooks/useDataExport.tsx:32-37 | The sheet matrix is [headers, ...rows], the sheet is named 'Sheet1', and the file is filename + '.xlsx' |
| DataExport.ExportToPdf | src/hooks/useDataExport.tsx:39-66 | The heading is drawn iff the title is non-empty. The table starts at 30 with a heading and at 20 without; head = headers, body = rows; the file is filename + '.pdf' |
| DataExport.PrintData | src/hooks/useDataExport.tsx:68-118 | Nothing is written when no window opened; otherwise the print document is written |
| DataExport.DocumentTitle | src/hooks/useDataExport.tsx:76 | The document title is the title, or 'Print Data' when it is absent or empty |
| DataExport.Heading | src/hooks/useDataExport.tsx:91 | An `<h1>` holding the title appears only for a non-empty title |
| DataExport.HeaderCellsRoundTrip | src/hooks/useDataExport.tsx:95 | The header row reads back as the headers, one `<th>` each, in order (texts without markup) |
| DataExport.BodyRowsRoundTrip | src/hooks/useDataExport.tsx:99-101 | The body reads back as the rows, one `<tr>` per row and one `<td>` per cell, in order |
| DataExport.PrintTableReadsBack | src/hooks/useDataExport.tsx:92-103 | Within the document's table the header cells and then the body rows read back as written |
| ServerQuery.GlobalClauses | src/components/tables/ServerSideClientDataTable.tsx:120-122 | A non-empty global filter adds exactly one OR clause; an empty one adds none |
| ServerQuery.OrFilterConditions | src/components/tables/ServerSideClientDataTable.tsx:121 | For a term and column names without ',', the OR text splits back into one `column.ilike.%term%` per searched column, in order |
| ServerQuery.CommaInTermSplitsCondition | src/components/tables/ServerSideClientDataTable.tsx:121 | The term goes in unescaped, so a term 'a,b' turns one column's condition into two pieces, `column.ilike.%a` and `b%` |
| ServerQuery.FilterClausesExactly | src/components/tables/ServerSideClientDataTable.tsx:125-129 | The column filters add one ilike(%value%) on their own column per filter with a non-empty value, in list order |
| ServerQuery.SortOrder | src/components/tables/ServerSideClientDataTable.tsx:132-137 | The first sort entry with ascending = !desc; with no sorting, created_at descending |
| ServerQuery.BuildQuery | src/components/tables/ServerSideClientDataTable.tsx:115-142 | The query built by reassigning the builder step by step (a loop over the column filters) equals QueryFor |
| ServerQuery.WindowSize | src/components/tables/ServerSideClientDataTable.tsx:140-142 | The range covers exactly pageSize positions from pageIndex*pageSize |
| ServerQuery.WindowsTile | src/components/tables/ServerSideClientDataTable.tsx:140-142 | Consecutive pages' windows are adjacent: to(p)+1 = from(p+1). Row k lies in the window of page k / pageSize |
| ServerQuery.Respond | src/components/tables/ServerSideClientDataTable.tsx:144-159 | An error is rethrown. Otherwise the data is the rows, or [] when missing; totalCount = count \|\| 0; pageCount = ceil(totalCount/pageSize) |
| ServerQuery.PageCountCovers | src/components/tables/ServerSideClientDataTable.tsx:148-149 | With a positive page size the page count is the least number of pages holding every row: 0 iff no rows, otherwise the last page holds the last row |
| ServerQuery.MissingCountIsZero | src/components/tables/ServerSideClientDataTable.tsx:148 | A missing count gives page count 0 |
| ServerQuery.EmptyExportPageCount | src/hooks/useServerSideDataTable.tsx:210 | With totalCount 0 the export state asks for page size 0 and the window from 0 to -1. The reply's page count is then ceil(0/0) = NaN for a count of 0 and Infinity otherwise |
| ServerSideClientTable.ClientsQuery | src/components/tables/ServerSideClientDataTable.tsx:113-142 | Query on 'clients'. A non-empty search gives the literal OR text over company, name, email, status; then one ilike per non-empty filter, the sort order and the page window |
| ServerSideClientTable.FetchClientsReply | src/components/tables/ServerSideClientDataTable.tsx:113-160 | fetchClients sends that query and responds with Respond of the reply |
| ServerSideProjectTable.ProjectsQuery | src/components/tables/ServerSideProjectDataTable.tsx:138-174 | Query on 'projects'. A non-empty search gives the literal OR text over name, description, status; then one ilike per non-empty filter, the sort order and the page window |
| ServerSideProjectTable.FetchProjectsReply | src/components/tables/ServerSideProjectDataTable.tsx:138-192 | fetchProjects sends that query and responds with Respond of the reply |
| ServerSideProjectTable.ReplaceFirstSpec | src/components/tables/ServerSideProjectDataTable.tsx:89 | A one-character string pattern replaces only the first occurrence; no occurrence leaves the text unchanged |
| ServerSideProjectTable.StatusLabel | src/components/tables/ServerSideProjectDataTable.tsx:89 | A missing status shows nothing. Otherwise the label has the status's length, and its first '_' is a space with everything else kept |
| ServerSideProjectTable.OnlyFirstUnderscore | src/components/tables/ServerSideProjectDataTable.tsx:89 | 'on_hold' shows 'on hold', 'a_b_c' shows 'a b_c', 'active' is unchanged |
| ServerSideProjectTable.ClientCell | src/components/tables/ServerSideProjectDataTable.tsx:34 | The client's company, or 'N/A' when there is no client or the company is falsy |
| JsValues.OrFallback | src/components/tables/ServerSideClientDataTable.tsx:53 | The value, or the fallback text when it is falsy, so a non-empty fallback leaves no cell empty. The tables use 'N/A' for a phone or employment type, 'Unnamed User' for a profile name (ProfileDataTable.tsx:40) and 'No description' for a project (ServerSideProjectDataTable.tsx:44) |
| TableView.ExportFilename | src/components/ui/server-side-data-table.tsx:111 | The derived file name contains no whitespace. An absent or empty title gives 'data-export'. The name is never longer than the title |
| TableView.ReplaceSpaceRuns | src/components/ui/server-side-data-table.tsx:111 | `replace(/\s+/g, '-')` leaves no whitespace and never lengthens the text |
| TableView.RunGivesOneHyphen | src/components/ui/server-side-data-table.tsx:111 | A whitespace run of any length becomes a single hyphen |
| TableView.TwoWordFilename | src/components/ui/server-side-data-table.tsx:111 | Two words around a whitespace run give both words lower-cased, joined by one '-' |
| TableView.Dispatch | src/components/ui/server-side-data-table.tsx:113-123 | csv goes to the CSV export, excel to the spreadsheet export (both with the derived name); pdf goes to the PDF export with the name and the title |
| TableView.CsvNamedAfterTitle | src/components/ui/server-side-data-table.tsx:111-115 | The CSV download is the derived name + '.csv', and 'data-export.csv' without a title |
| TableView.View.HandleExport | src/components/ui/server-side-data-table.tsx:107-129 | exportLoading is false afterwards. A failed fetch exports nothing; a successful one exports the visible columns of every matching row in the chosen format |
| TableView.View.HandlePrint | src/components/ui/server-side-data-table.tsx:131-141 | exportLoading is false afterwards. A failed fetch or an unopened window prints nothing. Otherwise the document is PrintData of the visible columns' headers and the String(v \|\| '') cells of every fetched row, under the title |
| TableView.View.BeginExport | src/components/ui/server-side-data-table.tsx:108 | exportLoading is true while the fetch is awaited |
| TableView.View.FinishExport | src/components/ui/server-side-data-table.tsx:110-128 | After the await: dispatch on success, nothing on failure, and exportLoading off either way |
| TableView.View.FinishPrint | src/components/ui/server-side-data-table.tsx:134-140 | After the await: print on success, nothing on failure, and exportLoading off either way |
| TableView.View.ToggleColumnSearch | src/components/ui/server-side-data-table.tsx:342 | showColumnSearch is negated |
| TableView.HasFiltersIffQueryFiltered | src/components/ui/server-side-data-table.tsx:144 | hasFilters (a global filter, or some column filter with a value) holds iff the query sent for the state has a filter clause |
| TableView.AnyFilterValueIsFilter | src/components/ui/server-side-data-table.tsx:144 | `columnFilters.some(f => f.value)` holds iff some filter has a non-empty value |
| TableView.ResultBadge | src/components/ui/server-side-data-table.tsx:360 | The badge is the count's digits, then " result", then an 's' iff the count is not 1 |
| TableView.PageLabelNumber | src/components/ui/server-side-data-table.tsx:510-511 | The label's number after "Page " reads back as pageIndex + 1, and the label ends with the page count |
| TableView.LastPageIndex | src/components/ui/server-side-data-table.tsx:544 | The last-page button asks for pageCount - 1 |
| TableView.LastPageHoldsLastRow | src/components/ui/server-side-data-table.tsx:544 | For a positive page size and at least one row, the window of the page the last-page button asks for contains the last row |
| Dashboard.GetDateRange | src/components/Dashboard.tsx:30-64 | Computing with the mutable `now` as the code does yields RangeFor |
| Dashboard.RangeForCases | src/components/Dashboard.tsx:35-61 | today: today alone. current_week and default: a Sunday start, end = start + 6, today inside. last_week: start = today - weekday - 7 (a Sunday) and end = start - 1. current_month and last_month: their Date(...) bounds |
| Dashboard.CurrentWeek | src/components/Dashboard.tsx:40-42 | A Sunday start, end six days later, holding today |
| Dashboard.LastWeekIsEmpty | src/components/Dashboard.tsx:44-48 | The last-week range ends before it starts. Its start is the intended one and its end is the intended end minus 7 |
| Dashboard.NothingWithinEmpty | src/components/Dashboard.tsx:97-98 | A range that ends before it starts holds no record, so the `.gte`/`.lte` date filter passes none |
| Dashboard.LastWeekShowsNothing | src/components/Dashboard.tsx:97-108 | With the last-week selector (lines 44-48) and replies dated inside the range, the page shows 0 pending hours, 0 revenue and empty hours, project and revenue series, whatever was recorded last week |
| Dashboard.LastWeek | src/components/Dashboard.tsx:44-48 | The intended last week: seven days from a Sunday, ending the day before this week begins |
| Dashboard.IntendedRangeFor | src/components/Dashboard.tsx:30-64 | The range with the last week as intended, seven days long; every other selector as written |
| Dashboard.CurrentMonthRange | src/components/Dashboard.tsx:50-52 | The current month's range holds today and spans exactly the month's days |
| Dashboard.LastMonthEndsBeforeThisMonth | src/components/Dashboard.tsx:54-56 | The last month's range ends the day before the current month starts |
| Dashboard.LastMonthLength | src/components/Dashboard.tsx:54-56 | After January the range spans exactly the previous month |
| Dashboard.LastMonthInJanuary | src/components/Dashboard.tsx:54-56 | In January the range is December of the year before, 31 days |
| Calendar.MonthSpan | src/components/Dashboard.tsx:51 | `new Date(y, m + 1, 0)` is the last day of month m: from day 1 the month spans its length |
| Calendar.YearLength | src/components/Dashboard.tsx:50-56 | A year has 366 days when it is a leap year and 365 otherwise |
| Calendar.MonthBeforeJanuary | src/components/Dashboard.tsx:55 | Month -1 is December of the year before |
| Calendar.DateWithinMonth | src/components/Dashboard.tsx:50-52 | A valid date lies between day 1 and the last day of its month |
| Calendar.BackToSunday | src/components/Dashboard.tsx:41 | Going back getDay() days lands on a Sunday |
| Calendar.WeekdayShift | src/components/Dashboard.tsx:45 | Moving by whole weeks keeps the weekday |
| Calendar.NewYear2024IsMonday | src/components/Dashboard.tsx:31 | The day numbering agrees with the calendar: 1 January 2024 was a Monday |
| Dashboard.ComputeStats | src/components/Dashboard.tsx:133-142 | Profile and bank-account counts are the list lengths, or 0 when missing. active + completed is at most the number of projects. With non-negative hours, 0 <= pendingHours <= totalHours |
| Dashboard.ProjectCountsBounded | src/components/Dashboard.tsx:134-135 | The active and completed counts together are at most the number of projects |
| Dashboard.PendingAtMostTotal | src/components/Dashboard.tsx:138-139 | With non-negative hours the pending hours are between 0 and the total hours |
| Dashboard.LengthOrZero | src/components/Dashboard.tsx:133 | `list?.length \|\| 0`: the length, or 0 for a missing list |
| Dashboard.HoursChart | src/components/Dashboard.tsx:145-154 | The find-or-push reduction, then the sort by date |
| Dashboard.HoursChartSpec | src/components/Dashboard.tsx:145-154 | One bucket per distinct date, strictly ascending. Each bucket holds its date's summed hours, and the buckets add up to totalHours |
| Dashboard.ProjectChart | src/components/Dashboard.tsx:157-166 | The find-or-push reduction over the project name or 'Unknown' |
| Dashboard.ProjectChartSpec | src/components/Dashboard.tsx:157-166 | One bucket per distinct project label, 'Unknown' without a name. Buckets are in order of first appearance, hold their label's summed hours, and add up to totalHours |
| Dashboard.RevenueChart | src/components/Dashboard.tsx:169-178 | The find-or-push reduction over the deposits, then the sort by date |
| Dashboard.RevenueChartSpec | src/components/Dashboard.tsx:169-178 | One bucket per distinct date, strictly ascending. Each bucket holds its date's summed amounts, and the buckets add up to totalRevenue |
| Grouping.Accumulate | src/components/Dashboard.tsx:145-153 | The loop with an inner find (add to an existing bucket, else push) yields GroupTotals |
| Grouping.GroupTotalsSpec | src/components/Dashboard.tsx:145-166 | Bucket keys are distinct and are exactly the item keys. Each total is its key's sum, and the totals add up to the amounts |
| Grouping.GroupOrder | src/components/Dashboard.tsx:157-166 | Buckets appear in the order of their keys' first appearance |
| Grouping.SortedGroupSpec | src/components/Dashboard.tsx:145-154 | The sorted buckets are strictly ascending. A key has a bucket iff it has an item; totals are per-key sums, and the sum is preserved |
| Grouping.SortByKeySorted | src/components/Dashboard.tsx:154 | The sort orders buckets by ascending key |
| Grouping.SortByKeyPermutes | src/components/Dashboard.tsx:154 | The sort is a permutation of the buckets |
| Dashboard.Describe | src/components/Dashboard.tsx:182-187 | The description is "<name> logged ", then String(total_hours), then "h for <project>". The fallbacks are 'Unknown User' and 'Unknown Project' |
| Dashboard.NameOr | src/components/Dashboard.tsx:182-183 | A present non-empty name, else the fallback ('Unknown User', 'Unknown Project', and 'Unknown' in the project chart at line 158) |
| Dashboard.Newest5 | src/components/Dashboard.tsx:127-128 | At most five records, the first ones of the newest-first list |
| Dashboard.Activities | src/components/Dashboard.tsx:181-191 | One 'hours' activity per recent record, with its description and status |
| Dashboard.Load | src/components/Dashboard.tsx:133-205 | What a fully successful fetch shows; at most five activities |
| Dashboard.DashboardPage.constructor | src/components/Dashboard.tsx:10-24 | Zero stats, no activities or series, loading true, range 'current_week' |
| Dashboard.DashboardPage.SetDateRange | src/components/Dashboard.tsx:268 | The selector sets the range |
| Dashboard.DashboardPage.FetchDashboardData | src/components/Dashboard.tsx:66-212 | Any failed query leaves the figures, series and activities unchanged. Otherwise they become Load of the replies over the selected range. Loading is false afterwards |
| ClientManagement.ClientManagementPage.constructor | src/components/ClientManagement.tsx:15-30 | Zero counts, dialog closed, nobody edited, blank form with status 'active' |
| ClientManagement.CountClients | src/components/ClientManagement.tsx:52-54 | totalClients is the number of clients, activeClients the number with status 'active', totalProjects the number of projects (0 when missing). activeClients <= totalClients |
| ClientManagement.ClientManagementPage.FetchClientStats | src/components/ClientManagement.tsx:36-69 | Both queries succeeding replace the counts. Otherwise the counts are kept and the error toast is shown |
| ClientManagement.ClientManagementPage.AddClient | src/components/ClientManagement.tsx:144-149 | Nobody edited, blank form with status 'active', dialog open |
| ClientManagement.ClientManagementPage.SetDialogOpen | src/components/ClientManagement.tsx:144 | The dialog's open state follows onOpenChange |
| ClientManagement.EditForm | src/components/ClientManagement.tsx:108-114 | Name, email, company and status are copied; a null phone becomes "" |
| ClientManagement.ClientManagementPage.HandleEdit | src/components/ClientManagement.tsx:106-116 | The client is being edited, its form is loaded and the dialog opens |
| ClientManagement.SubmitRequest | src/components/ClientManagement.tsx:74-90 | When editing, an update by the edited client's id; otherwise an insert; both carry the form |
| ClientManagement.ClientManagementPage.HandleSubmit | src/components/ClientManagement.tsx:71-104 | On success the dialog closes, nobody is edited, the form is blank and the counts are refetched. The matching success toast is shown, followed by the statistics error toast when the refetch fails. On failure the dialog, edited client, form and counts are unchanged and the error toast is shown |
| ClientManagement.ClientManagementPage.HandleDelete | src/components/ClientManagement.tsx:118-138 | A declined confirmation does nothing. Otherwise the delete is sent. Success shows its toast and refetches the counts; a failed refetch keeps them and adds the statistics error toast. A failed delete keeps the counts and shows the delete error toast |
| FloatingNavigation.VisibleMenuItems | src/components/FloatingNavigation.tsx:112-114 | An item is shown iff its permission is null or granted. The shown items keep menu order (a subsequence) |
| FloatingNavigation.PersonalDashboardAlwaysVisible | src/components/FloatingNavigation.tsx:38-43 | 'personal-dashboard' has no permission and is always shown |
| FloatingNavigation.PayrollAndSalaryTogether | src/components/FloatingNavigation.tsx:75-86 | 'payroll' and 'salary' share 'payroll_view': both shown or neither |
| FloatingNavigation.MenuIdsDistinct | src/components/FloatingNavigation.tsx:31-110 | The thirteen menu ids are pairwise distinct |
| FloatingNavigation.AtMostOneActive | src/components/FloatingNavigation.tsx:137 | At most one shown item is marked active |
| FloatingNavigation.Navigation.constructor | src/components/FloatingNavigation.tsx:29 | The menu starts closed |
| FloatingNavigation.Navigation.HandleTabChange | src/components/FloatingNavigation.tsx:116-119 | The chosen id is passed on and the menu closes |
| FloatingNavigation.Navigation.Toggle | src/components/FloatingNavigation.tsx:161 | The floating button flips isOpen |
| FloatingNavigation.Navigation.CloseOverlay | src/components/FloatingNavigation.tsx:127 | An overlay click closes the menu |
| ProfileTable.RoleLabel | src/components/tables/ProfileDataTable.tsx:23-32 | admin, employee, accountant, operation and sales_manager map to Administrator, Employee, Accountant, Operations and Sales Manager. Any other role is returned unchanged |
| ProfileTable.RoleLabelIsCaseSensitive | src/components/tables/ProfileDataTable.tsx:31 | The lookup is exact: 'Admin' and 'ADMIN' are returned as they are |
| ProfileTable.RoleLabelIdempotent | src/components/tables/ProfileDataTable.tsx:24-31 | No label is a key, so labelling twice equals labelling once |
| ProfileTable.StatusCell | src/components/tables/ProfileDataTable.tsx:87-88 | 'Active' iff is_active is truthy, otherwise 'Inactive' |

## Left out

- **Network and React:**
  - Supabase select, insert, update and delete calls are function parameters that return a reply.
  - React rendering and effects are not modelled; the state classes stand for the held state.
  - `useEffect` reloads are not modelled, so a handler and the reload it triggers are separate calls.
- **Library internals:**
  - @tanstack/react-table internals are not modelled. This includes clamping in `setPageIndex`, `previousPage`/`nextPage`, `getCanPreviousPage` and the sorted and paginated row models.
  - The column-visibility rule is taken as "shown unless the entry is false".
- DataTable.DataTableHook: `getVisibleData` of the client-side hook (src/hooks/useDataTable.tsx:118-131) reads react-table's row model, which is not modelled. Its server-side counterpart is modelled as ServerSideTable.Controller.VisibleData.
- **Export and DOM side effects:** the XLSX and jsPDF libraries, Blob, object URLs, link clicks, `window.open`, `window.print` and the toast UI are not modelled. The spreadsheet matrix, the PDF table description and the document text are modelled.
- DataExport.PrintDocument: the document is modelled without the indentation whitespace of the template literal. The whitespace changes nothing a browser shows.
- ServerQuery.OrFilterConditions: the split back into one condition per column holds only for a search term without ','. The code pastes the term into the `.or` text unescaped, so a ',' splits a condition in two (ServerQuery.CommaInTermSplitsCondition). How the service's PostgREST parser treats the extra piece, and its double-quote escaping of reserved characters, are not modelled.
- ServerSideTable.Controller.LoadData: overlapping loads are not modelled. The code has no staleness guard, so the last settled fetch wins, and that is concurrency.
- **Strings:**
  - `toLowerCase` is modelled on ASCII letters only; Unicode case mapping is not modelled.
  - `\s` is modelled as the ASCII and common Unicode space characters listed in JsValues.IsSpace.
- **Numbers and dates:**
  - Hours, amounts and counts are integers; floating-point sums and `toFixed` are not modelled.
  - Dates are day numbers, so `toISOString` time-zone shifts are not modelled.
  - `toLocaleDateString`/`toLocaleString` formatting is not modelled, including the activity time and the revenue text.
  - The 'today' end at 23:59:59 is the same day number.
- Dashboard.Newest5: the service honouring `.order('created_at', desc).limit(5)` is assumed: the reply is taken as a newest-first list, and the model keeps its first five.
- Dashboard.HoursChart: the sort compares `new Date(date).getTime()`. With dates as day numbers this is the comparison of the keys.
- DataTable.ApplyFilters: `Object.entries` order is modelled as insertion order. JavaScript lists integer-like keys first, but the filtered result does not depend on the order because the filters commute.
- ProfileTable.RoleLabel: the record lookup is modelled on the five own keys. Inherited `Object.prototype` names such as 'toString' are not modelled, though the code would return a function for them.
- ProfileDataTable's hourly-rate cell (`toFixed(2)`) and its created-at cell (locale date) are not modelled.
- ClientManagement.ClientManagementPage.HandleSubmit: the stats refresh is not awaited in the code (HandleDelete likewise); the model runs it to completion in the same call, so its error toast, if any, is listed right after the success toast.
- **Column-declaration modules:** the client-side column declarations of the other tables (working hours, notifications, payroll, roster, transactions, projects, clients) hold only cell renderers and badge colours. They are not part of this model.

## Findings

The model's operations follow the code as written. Each row pairs a lemma that exhibits the
discrepancy with a corrected definition whose intended property is proved.

| source | as written | input that shows it | evidently intended | confidence | as-written member | corrected member |
|---|---|---|---|---|---|---|
| src/components/Dashboard.tsx:44-48 | The end of last week is computed from the `now` already moved to last week's Sunday, so it is that Sunday minus one day, before the start | Any date. For Wednesday 3 January 2024 the range runs from Sunday 24 December 2023 to Saturday 23 December 2023, so the page shows no hours and no revenue for last week (Dashboard.LastWeekShowsNothing) | The seven days from last week's Sunday to the Saturday before this week | high; not executed | Dashboard.LastWeekIsEmpty | Dashboard.IntendedRangeFor |
| src/hooks/useDataExport.tsx:21 | A cell is wrapped in quotes verbatim, so an embedded '"' is not doubled | The cell `a"b` is written `"a"b"`, which reads as the field `a` followed by stray text | Quotes doubled as section 2 of RFC 4180 requires, so every row reads back | high; not executed | DataExport.QuotedRowIsAmbiguous | DataExport.Rfc4180RowRoundTrip |
| src/hooks/useServerSideDataTable.tsx:170 | The toggle negates the stored entry, and a missing entry counts as false. The first toggle of a column shown by default therefore writes true and the column stays shown | Empty visibility record; uncheck any column in the column menu (src/components/ui/server-side-data-table.tsx:290-291) | The column's shown/hidden state is flipped | medium; not executed | ColumnVisibility.FirstToggleKeepsColumnVisible | ColumnVisibility.ToggledVisibility |
