/**
 * The dashboard page: the date range picked by its selector, the summary figures and chart
 * series it derives from the fetched records, the recent-activity lines, and the page state
 * the fetch fills in.
 */
module Dashboard {
  import opened Wrappers
  import opened Seqs
  import opened JsValues
  import opened Calendar
  import opened Grouping

  /** First and last day of a range, inclusive, as day numbers. */
  datatype DateRange = DateRange(start: int, end: int)

  /**
   * `getDateRange`. `now` is a mutable date: `setDate(getDate() + k)` moves it by `k` days, and
   * the week branches read `getDay()` again after the first move.
   */
  method GetDateRange(dateRange: string, today: CivilDate) returns (r: DateRange)
    requires ValidDate(today)
    ensures r == RangeFor(dateRange, today)
  {
    var now := DayOf(today);
    if dateRange == "today" {
      r := DateRange(now, now);
    } else if dateRange == "current_week" {
      r := WeekSteps(now);
    } else if dateRange == "last_week" {
      r := LastWeekSteps(now);
    } else if dateRange == "current_month" {
      r := DateRange(MakeDay(today.year, today.month, 1), MakeDay(today.year, today.month + 1, 0));
    } else if dateRange == "last_month" {
      r := DateRange(MakeDay(today.year, today.month - 1, 1), MakeDay(today.year, today.month, 0));
    } else {
      r := WeekSteps(now);
    }
  }

  /** The week branches: back to Sunday, then from there six days on. */
  method WeekSteps(today: int) returns (r: DateRange)
    ensures r == CurrentWeek(today)
  {
    var now := today;
    now := now - Weekday(now);
    var start := now;
    BackToSunday(today);
    now := now - Weekday(now) + 6;
    r := DateRange(start, now);
  }

  /** The last-week branch: back to last week's Sunday, then the end is taken from there. */
  method LastWeekSteps(today: int) returns (r: DateRange)
    ensures r == DateRange(today - Weekday(today) - 7, today - Weekday(today) - 8)
  {
    var now := today;
    now := now - Weekday(now) - 7;
    var lastWeekStart := now;
    BackToSunday(today);
    WeekdayShift(today - Weekday(today), -1);
    now := now - Weekday(now) - 1;
    r := DateRange(lastWeekStart, now);
  }

  /** The range `getDateRange` yields for each selector, as a value. */
  function RangeFor(dateRange: string, today: CivilDate): DateRange
  {
    var t := DayOf(today);
    if dateRange == "today" then DateRange(t, t)
    else if dateRange == "last_week" then DateRange(t - Weekday(t) - 7, t - Weekday(t) - 8)
    else if dateRange == "current_month" then
      DateRange(MakeDay(today.year, today.month, 1), MakeDay(today.year, today.month + 1, 0))
    else if dateRange == "last_month" then
      DateRange(MakeDay(today.year, today.month - 1, 1), MakeDay(today.year, today.month, 0))
    else CurrentWeek(t)
  }

  /**
   * What each selector yields: today alone; the week of today from Sunday (also for
   * `current_week` and any unknown selector); the month of today; the month before; and, for
   * `last_week`, a range that starts on the Sunday a week before this week's Sunday and ends
   * the day before it starts.
   */
  lemma RangeForCases(dateRange: string, today: CivilDate)
    ensures var t := DayOf(today); var r := RangeFor(dateRange, today);
      && (dateRange == "today" ==> r == DateRange(t, t))
      && (dateRange == "last_week" ==>
            r.start == t - Weekday(t) - 7 && Weekday(r.start) == 0 && r.end == r.start - 1)
      && (dateRange == "current_month" ==>
            r == DateRange(MakeDay(today.year, today.month, 1), MakeDay(today.year, today.month + 1, 0)))
      && (dateRange == "last_month" ==>
            r == DateRange(MakeDay(today.year, today.month - 1, 1), MakeDay(today.year, today.month, 0)))
      && (dateRange !in {"today", "last_week", "current_month", "last_month"} ==>
            Weekday(r.start) == 0 && r.end == r.start + 6 && r.start <= t <= r.end)
  {
    var t := DayOf(today);
    BackToSunday(t);
    WeekdayShift(t - Weekday(t), -1);
  }

  /** The week of day `t`, Sunday to Saturday. */
  function CurrentWeek(t: int): (r: DateRange)
    ensures Weekday(r.start) == 0 && r.end == r.start + 6
    ensures r.start <= t <= r.end
  {
    BackToSunday(t);
    DateRange(t - Weekday(t), t - Weekday(t) + 6)
  }

  /**
   * As written, the last-week range ends the day before it starts, so no day lies in it,
   * while the intended last week is seven days long and ends where this week begins.
   */
  lemma LastWeekIsEmpty(today: CivilDate)
    requires ValidDate(today)
    ensures var r := RangeFor("last_week", today);
      && r.end < r.start
      && r.start == LastWeek(DayOf(today)).start
      && r.end == LastWeek(DayOf(today)).end - 7
  {
  }

  /** The intended last week: the seven days, Sunday to Saturday, before the current week. */
  function LastWeek(t: int): (r: DateRange)
    ensures Weekday(r.start) == 0 && r.end == r.start + 6
    ensures r.end + 1 == CurrentWeek(t).start
  {
    BackToSunday(t);
    WeekdayShift(t - Weekday(t), -1);
    DateRange(t - Weekday(t) - 7, t - Weekday(t) - 1)
  }

  /** `getDateRange` with the last week computed as intended. */
  function IntendedRangeFor(dateRange: string, today: CivilDate): (r: DateRange)
    ensures dateRange == "last_week" ==> r == LastWeek(DayOf(today)) && r.end - r.start + 1 == 7
    ensures dateRange != "last_week" ==> r == RangeFor(dateRange, today)
  {
    if dateRange == "last_week" then LastWeek(DayOf(today)) else RangeFor(dateRange, today)
  }

  /** The current month's range holds today and exactly the days of the month. */
  lemma CurrentMonthRange(today: CivilDate)
    requires ValidDate(today)
    ensures var r := DateRange(MakeDay(today.year, today.month, 1), MakeDay(today.year, today.month + 1, 0));
      && r.start <= DayOf(today) <= r.end
      && r.end - r.start + 1 == DaysInMonth(today.year, today.month)
  {
    DateWithinMonth(today);
    MonthSpan(today.year, today.month);
  }

  /** The last month's range ends the day before the current month starts. */
  lemma LastMonthEndsBeforeThisMonth(today: CivilDate)
    requires ValidDate(today)
    ensures MakeDay(today.year, today.month, 0) + 1 == MakeDay(today.year, today.month, 1)
  {
  }

  /** After January the last month's range spans exactly the previous month of the same year. */
  lemma LastMonthLength(today: CivilDate)
    requires ValidDate(today) && today.month > 0
    ensures MakeDay(today.year, today.month, 0) - MakeDay(today.year, today.month - 1, 1) + 1
            == DaysInMonth(today.year, today.month - 1)
  {
    MakeDayInYear(today.year, today.month, 0);
    MakeDayInYear(today.year, today.month - 1, 1);
    DaysBeforeNextMonth(today.year, today.month - 1);
  }

  /** In January the last month's range is the 31 days of December of the year before. */
  lemma LastMonthInJanuary(today: CivilDate)
    requires ValidDate(today) && today.month == 0
    ensures MakeDay(today.year, -1, 1) == MakeDay(today.year - 1, 11, 1)
    ensures MakeDay(today.year, 0, 0) - MakeDay(today.year, -1, 1) + 1 == 31
  {
    MonthBeforeJanuary(today.year, 1);
    MakeDayInYear(today.year, 0, 0);
    MakeDayInYear(today.year - 1, 11, 1);
    YearLength(today.year - 1);
  }

  /** A project as the dashboard reads it. */
  datatype Project = Project(status: string)

  /** A working-hours record with its joined profile name and project name, when present. */
  datatype WorkingHours = WorkingHours(totalHours: int, status: string, date: int,
                                       profileName: Option<string>, projectName: Option<string>)

  /** A deposit. */
  datatype Transaction = Transaction(amount: int, date: int)

  datatype Stats = Stats(totalProfiles: int, activeProjects: int, pendingHours: int,
                         totalRevenue: int, bankAccounts: int, completedProjects: int)

  /** One line of the recent-activity list; its locale-formatted time is not modelled. */
  datatype Activity = Activity(kind: string, description: string, status: string)

  /** `list?.length || 0` */
  function LengthOrZero<T>(list: Option<seq<T>>): (r: nat)
    ensures list.None? ==> r == 0
    ensures list.Some? ==> r == |list.value|
  {
    if list.Some? then |list.value| else 0
  }

  function CountStatus(projects: seq<Project>, status: string): (r: nat)
    ensures r <= |projects|
  {
    |Filter(projects, (p: Project) => p.status == status)|
  }

  function Hours(hours: seq<WorkingHours>): (r: seq<int>)
    ensures |r| == |hours| && forall i :: 0 <= i < |hours| ==> r[i] == hours[i].totalHours
  {
    seq(|hours|, i requires 0 <= i < |hours| => hours[i].totalHours)
  }

  function Amounts(ts: seq<Transaction>): (r: seq<int>)
    ensures |r| == |ts| && forall i :: 0 <= i < |ts| ==> r[i] == ts[i].amount
  {
    seq(|ts|, i requires 0 <= i < |ts| => ts[i].amount)
  }

  predicate IsPending(wh: WorkingHours)
  {
    wh.status == "pending"
  }

  /** The summary figures. */
  function ComputeStats(profiles: Option<seq<int>>, projects: Option<seq<Project>>,
                        workingHours: Option<seq<WorkingHours>>, transactions: Option<seq<Transaction>>,
                        bankAccounts: Option<seq<int>>): (r: Stats)
    ensures r.totalProfiles == LengthOrZero(profiles) && r.bankAccounts == LengthOrZero(bankAccounts)
    ensures r.activeProjects + r.completedProjects <= |projects.GetOr([])|
    ensures var hs := workingHours.GetOr([]);
      (forall i :: 0 <= i < |hs| ==> hs[i].totalHours >= 0) ==> 0 <= r.pendingHours <= Sum(Hours(hs))
  {
    var ps := projects.GetOr([]);
    var hs := workingHours.GetOr([]);
    ProjectCountsBounded(ps);
    PendingBounded(hs);
    Stats(LengthOrZero(profiles),
          CountStatus(ps, "active"),
          Sum(Hours(Filter(hs, IsPending))),
          Sum(Amounts(transactions.GetOr([]))),
          LengthOrZero(bankAccounts),
          CountStatus(ps, "completed"))
  }

  /** Active and completed are exclusive statuses: together they count at most every project. */
  lemma ProjectCountsBounded(projects: seq<Project>)
    ensures CountStatus(projects, "active") + CountStatus(projects, "completed") <= |projects|
  {
    FilterDisjointCounts(projects, (p: Project) => p.status == "active", (p: Project) => p.status == "completed");
  }

  /** With no negative hours the pending hours are at most all hours. */
  lemma {:induction false} PendingAtMostTotal(hours: seq<WorkingHours>)
    requires forall i :: 0 <= i < |hours| ==> hours[i].totalHours >= 0
    ensures 0 <= Sum(Hours(Filter(hours, IsPending))) <= Sum(Hours(hours))
  {
    if hours != [] {
      PendingAtMostTotal(hours[1..]);
      assert Hours(hours) == [hours[0].totalHours] + Hours(hours[1..]);
      if IsPending(hours[0]) {
        assert Filter(hours, IsPending) == [hours[0]] + Filter(hours[1..], IsPending);
        assert Hours(Filter(hours, IsPending)) == [hours[0].totalHours] + Hours(Filter(hours[1..], IsPending));
      }
    }
  }

  lemma PendingBounded(hours: seq<WorkingHours>)
    ensures (forall i :: 0 <= i < |hours| ==> hours[i].totalHours >= 0) ==>
      0 <= Sum(Hours(Filter(hours, IsPending))) <= Sum(Hours(hours))
  {
    if forall i :: 0 <= i < |hours| ==> hours[i].totalHours >= 0 {
      PendingAtMostTotal(hours);
    }
  }

  /** `name || fallback` for a joined name that may be missing. */
  function NameOr(name: Option<string>, fallback: string): (r: string)
    ensures name.Some? && name.value != "" ==> r == name.value
    ensures name.None? || name.value == "" ==> r == fallback
  {
    if name.Some? && name.value != "" then name.value else fallback
  }

  function HoursByDate(hours: seq<WorkingHours>): (r: seq<Item<int>>)
    ensures |r| == |hours| && forall i :: 0 <= i < |hours| ==> r[i] == Item(hours[i].date, hours[i].totalHours)
  {
    seq(|hours|, i requires 0 <= i < |hours| => Item(hours[i].date, hours[i].totalHours))
  }

  function HoursByProject(hours: seq<WorkingHours>): (r: seq<Item<string>>)
    ensures |r| == |hours|
    ensures forall i :: 0 <= i < |hours| ==> r[i] == Item(NameOr(hours[i].projectName, "Unknown"), hours[i].totalHours)
  {
    seq(|hours|, i requires 0 <= i < |hours| => Item(NameOr(hours[i].projectName, "Unknown"), hours[i].totalHours))
  }

  function RevenueByDate(ts: seq<Transaction>): (r: seq<Item<int>>)
    ensures |r| == |ts| && forall i :: 0 <= i < |ts| ==> r[i] == Item(ts[i].date, ts[i].amount)
  {
    seq(|ts|, i requires 0 <= i < |ts| => Item(ts[i].date, ts[i].amount))
  }

  /** The hours series: hours per date, by date. */
  method HoursChart(hours: seq<WorkingHours>) returns (chart: seq<Bucket<int>>)
    ensures chart == SortByKey(GroupTotals(HoursByDate(hours)))
  {
    var acc := Accumulate(HoursByDate(hours));
    chart := SortByKey(acc);
  }

  /** The project series: hours per project name (or 'Unknown'), in order of first appearance. */
  method ProjectChart(hours: seq<WorkingHours>) returns (chart: seq<Bucket<string>>)
    ensures chart == GroupTotals(HoursByProject(hours))
  {
    chart := Accumulate(HoursByProject(hours));
  }

  /** The revenue series: deposits per date, by date. */
  method RevenueChart(ts: seq<Transaction>) returns (chart: seq<Bucket<int>>)
    ensures chart == SortByKey(GroupTotals(RevenueByDate(ts)))
  {
    var acc := Accumulate(RevenueByDate(ts));
    chart := SortByKey(acc);
  }

  /**
   * The hours series holds one bucket per distinct date among the records, strictly
   * ascending, each with that date's summed hours, and its totals add up to the total hours.
   */
  lemma HoursChartSpec(hours: seq<WorkingHours>)
    ensures var c := SortByKey(GroupTotals(HoursByDate(hours)));
      && (forall i, j :: 0 <= i < j < |c| ==> c[i].key < c[j].key)
      && (forall d :: HasBucket(c, d) <==> exists i :: 0 <= i < |hours| && hours[i].date == d)
      && (forall i :: 0 <= i < |c| ==> c[i].total == KeySum(HoursByDate(hours), c[i].key))
      && Sum(Totals(c)) == Sum(Hours(hours))
  {
    var items := HoursByDate(hours);
    SortedGroupSpec(items);
    assert Grouping.Amounts(items) == Hours(hours);
    forall d ensures HasItem(items, d) <==> exists i :: 0 <= i < |hours| && hours[i].date == d {
      if HasItem(items, d) {
        var i :| 0 <= i < |items| && items[i].key == d;
        assert hours[i].date == d;
      }
      if exists i :: 0 <= i < |hours| && hours[i].date == d {
        var i :| 0 <= i < |hours| && hours[i].date == d;
        assert items[i].key == d;
      }
    }
  }

  /**
   * The revenue series holds one bucket per distinct date among the deposits, strictly
   * ascending, each with that date's summed amounts, and it adds up to the total revenue.
   */
  lemma RevenueChartSpec(ts: seq<Transaction>)
    ensures var c := SortByKey(GroupTotals(RevenueByDate(ts)));
      && (forall i, j :: 0 <= i < j < |c| ==> c[i].key < c[j].key)
      && (forall d :: HasBucket(c, d) <==> exists i :: 0 <= i < |ts| && ts[i].date == d)
      && (forall i :: 0 <= i < |c| ==> c[i].total == KeySum(RevenueByDate(ts), c[i].key))
      && Sum(Totals(c)) == Sum(Amounts(ts))
  {
    var items := RevenueByDate(ts);
    SortedGroupSpec(items);
    assert Grouping.Amounts(items) == Amounts(ts);
    forall d ensures HasItem(items, d) <==> exists i :: 0 <= i < |ts| && ts[i].date == d {
      if HasItem(items, d) {
        var i :| 0 <= i < |items| && items[i].key == d;
        assert ts[i].date == d;
      }
      if exists i :: 0 <= i < |ts| && ts[i].date == d {
        var i :| 0 <= i < |ts| && ts[i].date == d;
        assert items[i].key == d;
      }
    }
  }

  /**
   * The project series has one bucket per distinct project label ('Unknown' for records
   * without a project name), in order of first appearance, each with its label's summed
   * hours, and it adds up to the total hours.
   */
  lemma ProjectChartSpec(hours: seq<WorkingHours>)
    ensures var c := GroupTotals(HoursByProject(hours));
      && DistinctKeys(c)
      && (forall name :: HasBucket(c, name) <==>
            exists i :: 0 <= i < |hours| && NameOr(hours[i].projectName, "Unknown") == name)
      && (forall i :: 0 <= i < |c| ==> c[i].total == KeySum(HoursByProject(hours), c[i].key))
      && Sum(Totals(c)) == Sum(Hours(hours))
      && (forall i, j :: 0 <= i < j < |c| ==>
            && HasItem(HoursByProject(hours), c[i].key) && HasItem(HoursByProject(hours), c[j].key)
            && FirstItem(HoursByProject(hours), c[i].key) < FirstItem(HoursByProject(hours), c[j].key))
  {
    var items := HoursByProject(hours);
    var c := GroupTotals(items);
    GroupTotalsSpec(items);
    assert Grouping.Amounts(items) == Hours(hours);
    forall i | 0 <= i < |c| ensures c[i].total == KeySum(items, c[i].key) {
      BucketTotalOfMember(c, i);
    }
    forall name ensures HasItem(items, name) <==>
        exists i :: 0 <= i < |hours| && NameOr(hours[i].projectName, "Unknown") == name {
      if HasItem(items, name) {
        var i :| 0 <= i < |items| && items[i].key == name;
        assert NameOr(hours[i].projectName, "Unknown") == name;
      }
      if exists i :: 0 <= i < |hours| && NameOr(hours[i].projectName, "Unknown") == name {
        var i :| 0 <= i < |hours| && NameOr(hours[i].projectName, "Unknown") == name;
        assert items[i].key == name;
      }
    }
    forall i, j | 0 <= i < j < |c|
      ensures HasItem(items, c[i].key) && HasItem(items, c[j].key)
      ensures FirstItem(items, c[i].key) < FirstItem(items, c[j].key)
    {
      GroupOrder(items, i, j);
    }
  }

  /** The activity text for one record, with 'Unknown User' and 'Unknown Project' fallbacks. */
  function Describe(wh: WorkingHours): (r: string)
    ensures var user := NameOr(wh.profileName, "Unknown User");
      var project := NameOr(wh.projectName, "Unknown Project");
      && StartsWith(r, user + " logged ")
      && |r| >= |"h for " + project|
      && r[|r| - |"h for " + project|..] == "h for " + project
      && |user + " logged "| <= |r| - |"h for " + project|
      && r[|user + " logged "|..|r| - |"h for " + project|] == IntToString(wh.totalHours)
  {
    var user := NameOr(wh.profileName, "Unknown User");
    var project := NameOr(wh.projectName, "Unknown Project");
    var r := user + " logged " + IntToString(wh.totalHours) + "h for " + project;
    assert r == (user + " logged ") + IntToString(wh.totalHours) + ("h for " + project);
    r
  }

  /** The five newest records, as the query's `limit(5)` returns them from a newest-first list. */
  function Newest5(newestFirst: seq<WorkingHours>): (r: seq<WorkingHours>)
    ensures |r| <= 5 && |r| <= |newestFirst| && r == newestFirst[..|r|]
    ensures |newestFirst| >= 5 ==> |r| == 5
  {
    if |newestFirst| <= 5 then newestFirst else newestFirst[..5]
  }

  function Activities(recent: seq<WorkingHours>): (r: seq<Activity>)
    ensures |r| == |recent|
    ensures forall i :: 0 <= i < |recent| ==>
      r[i] == Activity("hours", Describe(recent[i]), recent[i].status)
  {
    seq(|recent|, i requires 0 <= i < |recent| => Activity("hours", Describe(recent[i]), recent[i].status))
  }

  /** The service behind the dashboard's six queries; the range-bound ones take the range. */
  datatype Database = Database(
    activeProfiles: Reply<int>,
    projects: Reply<Project>,
    hoursBetween: DateRange -> Reply<WorkingHours>,
    depositsBetween: DateRange -> Reply<Transaction>,
    bankAccounts: Reply<int>,
    hoursNewestFirst: Reply<WorkingHours>)

  /** Everything one successful fetch puts on the page. */
  datatype Snapshot = Snapshot(stats: Stats, recentActivities: seq<Activity>, chartData: seq<Bucket<int>>,
                               projectData: seq<Bucket<string>>, hoursData: seq<Bucket<int>>)

  /** Some query failed, which throws before anything is set. */
  predicate AnyFailed(db: Database, range: DateRange)
  {
    || db.activeProfiles.Failed? || db.projects.Failed? || db.hoursBetween(range).Failed?
    || db.depositsBetween(range).Failed? || db.bankAccounts.Failed? || db.hoursNewestFirst.Failed?
  }

  /** What the page shows after the queries over `range` all succeed. */
  function Load(db: Database, range: DateRange): (r: Snapshot)
    requires !AnyFailed(db, range)
    ensures |r.recentActivities| <= 5
  {
    var hours := db.hoursBetween(range).rows.GetOr([]);
    var deposits := db.depositsBetween(range).rows.GetOr([]);
    Snapshot(ComputeStats(db.activeProfiles.rows, db.projects.rows, db.hoursBetween(range).rows,
                          db.depositsBetween(range).rows, db.bankAccounts.rows),
             Activities(Newest5(db.hoursNewestFirst.rows.GetOr([]))),
             SortByKey(GroupTotals(RevenueByDate(deposits))),
             GroupTotals(HoursByProject(hours)),
             SortByKey(GroupTotals(HoursByDate(hours))))
  }

  /** The range-bound queries, `.gte('date', start).lte('date', end)`, return only records dated inside the range. */
  predicate RepliesWithin(db: Database, range: DateRange)
  {
    && (db.hoursBetween(range).Rows? ==>
          forall wh | wh in db.hoursBetween(range).rows.GetOr([]) :: range.start <= wh.date <= range.end)
    && (db.depositsBetween(range).Rows? ==>
          forall t | t in db.depositsBetween(range).rows.GetOr([]) :: range.start <= t.date <= range.end)
  }

  lemma HeadIsMember<T>(records: seq<T>)
    requires records != []
    ensures records[0] in records
  {
  }

  /** A range that ends before it starts holds no record. */
  lemma NothingWithinEmpty<T>(records: seq<T>, date: T -> int, range: DateRange)
    requires range.end < range.start
    requires forall x | x in records :: range.start <= date(x) <= range.end
    ensures records == []
  {
    if records != [] {
      HeadIsMember(records);
      assert false;
    }
  }

  /**
   * With the last-week selector, the page shows no pending hours, no revenue and empty hours,
   * project and revenue series, whatever was recorded last week.
   */
  lemma LastWeekShowsNothing(db: Database, today: CivilDate)
    requires ValidDate(today)
    requires !AnyFailed(db, RangeFor("last_week", today))
    requires RepliesWithin(db, RangeFor("last_week", today))
    ensures var shown := Load(db, RangeFor("last_week", today));
      && shown.stats.pendingHours == 0 && shown.stats.totalRevenue == 0
      && shown.hoursData == [] && shown.projectData == [] && shown.chartData == []
  {
    var range := RangeFor("last_week", today);
    LastWeekIsEmpty(today);
    NothingWithinEmpty(db.hoursBetween(range).rows.GetOr([]), (wh: WorkingHours) => wh.date, range);
    NothingWithinEmpty(db.depositsBetween(range).rows.GetOr([]), (t: Transaction) => t.date, range);
    assert Filter([], IsPending) == [];
    assert Hours([]) == [] && Amounts([]) == [];
    assert HoursByDate([]) == [] && HoursByProject([]) == [] && RevenueByDate([]) == [];
  }

  /** The page's state. */
  class DashboardPage {
    var stats: Stats
    var recentActivities: seq<Activity>
    var loading: bool
    var dateRange: string
    var chartData: seq<Bucket<int>>
    var projectData: seq<Bucket<string>>
    var hoursData: seq<Bucket<int>>

    constructor ()
      ensures stats == Stats(0, 0, 0, 0, 0, 0) && recentActivities == []
      ensures loading && dateRange == "current_week"
      ensures chartData == [] && projectData == [] && hoursData == []
    {
      stats := Stats(0, 0, 0, 0, 0, 0);
      recentActivities := [];
      loading := true;
      dateRange := "current_week";
      chartData := [];
      projectData := [];
      hoursData := [];
    }

    function Shown(): Snapshot
      reads this
    {
      Snapshot(stats, recentActivities, chartData, projectData, hoursData)
    }

    method SetDateRange(value: string)
      modifies this`dateRange
      ensures dateRange == value
    {
      dateRange := value;
    }

    /**
     * `fetchDashboardData`: the queries in turn, the first failure abandoning the rest with the
     * page as it was; otherwise the figures, series and activities are replaced. Loading is off
     * afterwards either way.
     */
    method FetchDashboardData(today: CivilDate, db: Database)
      requires ValidDate(today)
      modifies this`stats, this`recentActivities, this`loading, this`chartData, this`projectData, this`hoursData
      ensures !loading
      ensures AnyFailed(db, RangeFor(dateRange, today)) ==> Shown() == old(Shown())
      ensures !AnyFailed(db, RangeFor(dateRange, today)) ==> Shown() == Load(db, RangeFor(dateRange, today))
    {
      var range := GetDateRange(dateRange, today);
      var profiles := db.activeProfiles;
      if profiles.Failed? { loading := false; return; }
      var projects := db.projects;
      if projects.Failed? { loading := false; return; }
      var workingHours := db.hoursBetween(range);
      if workingHours.Failed? { loading := false; return; }
      var transactions := db.depositsBetween(range);
      if transactions.Failed? { loading := false; return; }
      var bankAccounts := db.bankAccounts;
      if bankAccounts.Failed? { loading := false; return; }
      var recentHours := db.hoursNewestFirst;
      if recentHours.Failed? { loading := false; return; }
      var recent := Newest5(recentHours.rows.GetOr([]));

      var hours := workingHours.rows.GetOr([]);
      var hoursChartData := HoursChart(hours);
      var projectChartData := ProjectChart(hours);
      var revenueChartData := RevenueChart(transactions.rows.GetOr([]));
      stats := ComputeStats(profiles.rows, projects.rows, workingHours.rows, transactions.rows, bankAccounts.rows);
      recentActivities := Activities(recent);
      chartData := revenueChartData;
      projectData := projectChartData;
      hoursData := hoursChartData;
      loading := false;
    }
  }
}
