/**
 * routes/reports.js: statistics, growth buckets, the recent-activity feed and the custom
 * report. Every handler runs after `Guards.RouteAuthenticate` and only reads collections.
 */
module Reports {
  import opened Wrappers
  import opened Text
  import opened Calendar
  import opened Http
  import opened Collections
  import opened UserModel
  import opened Employees

  // ----- GET /stats -----

  datatype StatsBody = StatsBody(totalEmployees: nat, activeEmployees: nat, inactiveEmployees: nat,
                                 totalUsers: nat, timestamp: Time)

  predicate IsActive(e: Employee) { e.status == "Active" }
  predicate IsNotActive(e: Employee) { !IsActive(e) }
  predicate IsInactive(e: Employee) { e.status == "Inactive" }

  /** The four counts; the `filter` query parameter is read but changes nothing. */
  function Stats(employees: seq<Employee>, users: seq<User>, now: Time): (r: Reply<StatsBody>)
    ensures r.Success? && r.status == 200 && r.value.timestamp == now
    ensures r.value.totalEmployees == |employees| && r.value.totalUsers == |users|
    ensures r.value.activeEmployees == |Filter(employees, IsActive)|
    ensures r.value.inactiveEmployees == |Filter(employees, IsInactive)|
  {
    Success(200, StatsBody(|employees|, Count(employees, IsActive), Count(employees, IsInactive), |users|, now))
  }

  /** No employee is both "Active" and "Inactive", so the two counts never exceed the total. */
  lemma StatsBounded(employees: seq<Employee>, users: seq<User>, now: Time)
    ensures Stats(employees, users, now).value.activeEmployees
            + Stats(employees, users, now).value.inactiveEmployees <= |employees|
  {
    CountDisjoint(employees, IsActive, IsInactive);
  }

  // ----- GET /growth -----

  /** `%Y-%m-%d` groups by calendar day, `%Y-%m` by calendar month. */
  datatype Granularity = ByDay | ByMonth

  /** The bucket `$dateToString` puts a creation time in, as a day or month number. */
  function BucketOf(g: Granularity, t: Time): int {
    match g
    case ByDay => DayIndex(t)
    case ByMonth => MonthIndex(t)
  }

  /** How far back a growth report looks: whole days, or calendar months. */
  datatype Lookback = Days(days: nat) | Months(months: nat)

  /** The `range` switch (default "30days"). */
  function GrowthLookback(range: Option<string>): (r: Lookback)
    ensures r == Days(7) <==> range == Some("7days")
    ensures r == Months(3) <==> range == Some("quarter")
    ensures r == Days(30) <==> range != Some("7days") && range != Some("quarter")
  {
    var name := range.GetOr("30days");
    if name == "7days" then Days(7)
    else if name == "quarter" then Months(3)
    else Days(30)
  }

  /** Day lookbacks bucket by day (`%Y-%m-%d`), month lookbacks by month (`%Y-%m`). */
  function GranularityOf(l: Lookback): (g: Granularity)
    ensures g == ByMonth <==> l.Months?
  {
    if l.Days? then ByDay else ByMonth
  }

  /** `setDate(getDate() - n)` or `setMonth(getMonth() - n)` on the current time. */
  function StartOf(l: Lookback, now: Time): Time {
    match l
    case Days(n) => DaysBefore(now, n)
    case Months(n) => MonthsBefore(now, n)
  }

  /** Where the window starts and how it is bucketed. */
  function GrowthWindow(range: Option<string>, now: Time): (Time, Granularity) {
    var l := GrowthLookback(range);
    (StartOf(l, now), GranularityOf(l))
  }

  /** An unknown or missing range behaves exactly like "30days". */
  lemma UnknownRangeIsThirtyDays(range: string, now: Time)
    requires range != "7days" && range != "30days" && range != "quarter"
    ensures GrowthWindow(Some(range), now) == GrowthWindow(Some("30days"), now)
    ensures GrowthWindow(None, now) == GrowthWindow(Some("30days"), now)
  {
  }

  /** "7days" and "30days" reach back that many whole days; only "quarter" buckets by month. */
  lemma DayRangesReachBack(range: Option<string>, now: Time)
    requires range != Some("quarter")
    ensures GrowthWindow(range, now).1 == ByDay
    ensures now - GrowthWindow(range, now).0 == (if range == Some("7days") then 7 else 30) * DAY_MS
  {
  }

  /** One `{ date, employees }` entry: a bucket and how many employees were created in it. */
  datatype GrowthPoint = GrowthPoint(bucket: int, employees: nat)

  ghost predicate Ascending(points: seq<GrowthPoint>) {
    forall i, j :: 0 <= i < j < |points| ==> points[i].bucket < points[j].bucket
  }

  ghost predicate HasBucket(points: seq<GrowthPoint>, k: int) {
    exists j :: 0 <= j < |points| && points[j].bucket == k
  }

  /** How often `k` occurs in `keys`. */
  function Occurrences(keys: seq<int>, k: int): (n: nat)
    ensures n <= |keys|
  {
    if keys == [] then 0 else (if keys[0] == k then 1 else 0) + Occurrences(keys[1..], k)
  }

  /** The count a tally records for bucket `x` (0 when it has no entry for `x`). */
  function CountOf(points: seq<GrowthPoint>, x: int): nat {
    if points == [] then 0 else if points[0].bucket == x then points[0].employees else CountOf(points[1..], x)
  }

  ghost predicate Positive(points: seq<GrowthPoint>) {
    forall j :: 0 <= j < |points| ==> points[j].employees >= 1
  }

  /** A bucket below every entry of an ascending tally has count 0. */
  lemma {:induction false} NotCounted(points: seq<GrowthPoint>, x: int)
    requires Ascending(points) && (points != [] ==> x < points[0].bucket)
    ensures CountOf(points, x) == 0
  {
    if points != [] {
      NotCounted(points[1..], x);
    }
  }

  /** Counts one more `k` in an ascending tally. */
  function AddKey(points: seq<GrowthPoint>, k: int): seq<GrowthPoint> {
    if points == [] then [GrowthPoint(k, 1)]
    else if points[0].bucket == k then [GrowthPoint(k, points[0].employees + 1)] + points[1..]
    else if k < points[0].bucket then [GrowthPoint(k, 1)] + points
    else [points[0]] + AddKey(points[1..], k)
  }

  /** Adding a key keeps a tally ascending with positive counts, and adds no bucket below `k` or the old first one. */
  lemma {:induction false} AddKeyAscending(points: seq<GrowthPoint>, k: int)
    requires Ascending(points) && Positive(points)
    ensures var r := AddKey(points, k);
            Ascending(r) && Positive(r) &&
            forall j :: 0 <= j < |r| ==> r[j].bucket == k || (|points| > 0 && r[j].bucket >= points[0].bucket)
  {
    if points != [] && k > points[0].bucket {
      AddKeyAscending(points[1..], k);
      var rest := AddKey(points[1..], k);
      assert forall j :: 0 <= j < |rest| ==> points[0].bucket < rest[j].bucket;
    }
  }

  /** Adding `k` raises the count of bucket `k` by one and leaves every other count alone. */
  lemma {:induction false} AddKeyCounts(points: seq<GrowthPoint>, k: int, x: int)
    requires Ascending(points)
    ensures CountOf(AddKey(points, k), x) == CountOf(points, x) + (if x == k then 1 else 0)
  {
    if points != [] {
      var r := AddKey(points, k);
      if points[0].bucket == k {
        assert r[1..] == points[1..];
      } else if k < points[0].bucket {
        NotCounted(points, k);
        assert r[1..] == points;
      } else {
        AddKeyCounts(points[1..], k, x);
        assert r[1..] == AddKey(points[1..], k);
      }
    }
  }

  /** The `$group` and `$sort: { _id: 1 }` stages over the bucket keys. */
  function Tally(keys: seq<int>): (r: seq<GrowthPoint>)
    ensures Ascending(r) && Positive(r)
  {
    if keys == [] then []
    else
      AddKeyAscending(Tally(keys[1..]), keys[0]);
      AddKey(Tally(keys[1..]), keys[0])
  }

  /** A tally records for each bucket exactly how often it occurs among the keys. */
  lemma {:induction false} TallyCounts(keys: seq<int>, x: int)
    ensures CountOf(Tally(keys), x) == Occurrences(keys, x)
  {
    if keys != [] {
      TallyCounts(keys[1..], x);
      AddKeyCounts(Tally(keys[1..]), keys[0], x);
    }
  }

  /** In an ascending tally each entry's count is the count recorded for its bucket. */
  lemma {:induction false} EntryIsCountOf(points: seq<GrowthPoint>, j: nat)
    requires Ascending(points) && j < |points|
    ensures CountOf(points, points[j].bucket) == points[j].employees
  {
    if j > 0 {
      EntryIsCountOf(points[1..], j - 1);
    }
  }

  /** A bucket with a non-zero count has an entry. */
  lemma {:induction false} CountedIsListed(points: seq<GrowthPoint>, x: int)
    requires CountOf(points, x) > 0
    ensures HasBucket(points, x)
  {
    if points[0].bucket != x {
      CountedIsListed(points[1..], x);
      var j :| 0 <= j < |points[1..]| && points[1..][j].bucket == x;
      assert points[j + 1].bucket == x;
    }
  }

  /** The bucket of every employee created at or after `start`, in collection order. */
  function BucketKeys(employees: seq<Employee>, start: Time, g: Granularity): (keys: seq<int>)
    ensures |keys| <= |employees|
  {
    if employees == [] then []
    else (if employees[0].createdAt >= start then [BucketOf(g, employees[0].createdAt)] else [])
         + BucketKeys(employees[1..], start, g)
  }

  /** Employees counted in bucket `b`: created at or after `start` and falling in `b`. */
  lemma {:induction false} OccurrencesCount(employees: seq<Employee>, start: Time, g: Granularity, b: int,
                                            p: Employee -> bool)
    requires forall e :: p(e) == (e.createdAt >= start && BucketOf(g, e.createdAt) == b)
    ensures Occurrences(BucketKeys(employees, start, g), b) == Count(employees, p)
  {
    if employees != [] {
      var head := if employees[0].createdAt >= start then [BucketOf(g, employees[0].createdAt)] else [];
      var tail := BucketKeys(employees[1..], start, g);
      OccurrencesCount(employees[1..], start, g, b, p);
      OccurrencesAppend(head, tail, b);
    }
  }

  lemma {:induction false} OccurrencesAppend(a: seq<int>, c: seq<int>, k: int)
    ensures Occurrences(a + c, k) == Occurrences(a, k) + Occurrences(c, k)
  {
    if a != [] {
      assert a + c == [a[0]] + (a[1..] + c);
      OccurrencesAppend(a[1..], c, k);
    } else {
      assert a + c == c;
    }
  }

  /** An employee created in the window contributes its bucket's key. */
  lemma {:induction false} KeyListed(employees: seq<Employee>, start: Time, g: Granularity, i: nat)
    requires i < |employees| && employees[i].createdAt >= start
    ensures Occurrences(BucketKeys(employees, start, g), BucketOf(g, employees[i].createdAt)) >= 1
  {
    var k := BucketOf(g, employees[i].createdAt);
    var head := if employees[0].createdAt >= start then [BucketOf(g, employees[0].createdAt)] else [];
    OccurrencesAppend(head, BucketKeys(employees[1..], start, g), k);
    if i > 0 {
      KeyListed(employees[1..], start, g, i - 1);
    }
  }

  /** `GET /growth`: one entry per bucket that received an employee, ascending by bucket. */
  function Growth(employees: seq<Employee>, range: Option<string>, now: Time): (r: Reply<seq<GrowthPoint>>)
    ensures r.Success? && r.status == 200
    ensures Ascending(r.value)
    ensures forall j :: 0 <= j < |r.value| ==> r.value[j].employees >= 1
  {
    var (start, g) := GrowthWindow(range, now);
    Success(200, Tally(BucketKeys(employees, start, g)))
  }

  /**
   * Each entry counts exactly the employees created since the window start that fall in its
   * bucket.
   */
  lemma GrowthCounts(employees: seq<Employee>, range: Option<string>, now: Time, j: nat)
    requires j < |Growth(employees, range, now).value|
    ensures var (start, g) := GrowthWindow(range, now);
            var point := Growth(employees, range, now).value[j];
            point.employees == Count(employees, (e: Employee) => e.createdAt >= start && BucketOf(g, e.createdAt) == point.bucket)
  {
    var (start, g) := GrowthWindow(range, now);
    var points := Growth(employees, range, now).value;
    EntryIsCountOf(points, j);
    TallyCounts(BucketKeys(employees, start, g), points[j].bucket);
    OccurrencesCount(employees, start, g, points[j].bucket,
                     (e: Employee) => e.createdAt >= start && BucketOf(g, e.createdAt) == points[j].bucket);
  }

  /** Every employee created since the window start is counted in some entry. */
  lemma GrowthComplete(employees: seq<Employee>, range: Option<string>, now: Time, i: nat)
    requires i < |employees| && employees[i].createdAt >= GrowthWindow(range, now).0
    ensures HasBucket(Growth(employees, range, now).value, BucketOf(GrowthWindow(range, now).1, employees[i].createdAt))
  {
    var (start, g) := GrowthWindow(range, now);
    KeyListed(employees, start, g, i);
    TallyCounts(BucketKeys(employees, start, g), BucketOf(g, employees[i].createdAt));
    CountedIsListed(Growth(employees, range, now).value, BucketOf(g, employees[i].createdAt));
  }

  // ----- GET /activity -----

  /** One feed entry. `name` is absent when the employee has none. */
  datatype FeedEntry = FeedEntry(user: string, name: Option<string>, action: string, timestamp: Time)

  const FEED_USER: string := "System/Admin"
  const FEED_ACTION: string := "New Employee Added: "
  const DEFAULT_FEED_LIMIT: nat := 10

  /** A template literal shows a missing name as "undefined". */
  function Interpolated(s: Option<string>): string {
    s.GetOr("undefined")
  }

  function EntryOf(e: Employee): (f: FeedEntry)
    ensures f.user == FEED_USER && f.name == e.name && f.timestamp == e.createdAt
    ensures StartsWith(f.action, FEED_ACTION) && f.action[|FEED_ACTION|..] == Interpolated(e.name)
  {
    FeedEntry(FEED_USER, e.name, FEED_ACTION + Interpolated(e.name), e.createdAt)
  }

  function TimestampOf(f: FeedEntry): int { f.timestamp }
  function EmployeeCreatedAt(e: Employee): int { e.createdAt }

  /**
   * The feed: the newest `limit` employees (`limit(0)` fetches all of them), mapped to entries,
   * sorted newest first again and cut to `slice(0, limit)`.
   */
  function RecentActivity(employees: seq<Employee>, limit: Option<nat>): (r: Reply<seq<FeedEntry>>)
    ensures r.Success? && r.status == 200
    ensures var n := limit.GetOr(DEFAULT_FEED_LIMIT);
            |r.value| == (if n < |employees| then n else |employees|)
    ensures NewestFirst(r.value, TimestampOf)
    ensures forall i :: 0 <= i < |r.value| ==>
              r.value[i] == EntryOf(SortNewestFirst(employees, EmployeeCreatedAt)[i])
  {
    var n := limit.GetOr(DEFAULT_FEED_LIMIT);
    var ordered := SortNewestFirst(employees, EmployeeCreatedAt);
    var fetched := Window(ordered, 0, n);
    var entries := Map(fetched, EntryOf);
    WindowNewestFirst(ordered, 0, n, EmployeeCreatedAt);
    assert NewestFirst(entries, TimestampOf) by {
      forall i, j | 0 <= i < j < |entries| ensures TimestampOf(entries[i]) >= TimestampOf(entries[j]) {
        assert entries[i].timestamp == fetched[i].createdAt && entries[j].timestamp == fetched[j].createdAt;
      }
    }
    SortKeepsSorted(entries, TimestampOf);
    Success(200, Take(SortNewestFirst(entries, TimestampOf), n))
  }

  /** Every feed entry is attributed to "System/Admin" and names the new employee. */
  lemma FeedEntriesAttributed(employees: seq<Employee>, limit: Option<nat>, i: nat)
    requires i < |RecentActivity(employees, limit).value|
    ensures var f := RecentActivity(employees, limit).value[i];
            f.user == FEED_USER && f.action == FEED_ACTION + Interpolated(f.name)
  {
  }

  /** `limit=0` fetches every employee but then slices to nothing. */
  lemma ZeroLimitFeedIsEmpty(employees: seq<Employee>)
    ensures RecentActivity(employees, Some(0)).value == []
  {
  }

  // ----- POST /custom -----

  /** The request body; the dates arrive already parsed to times (midnight UTC for a bare date). */
  datatype CustomBody = CustomBody(status: Option<string>, dateFrom: Option<Time>, dateTo: Option<Time>)

  datatype Summary = Summary(total: nat, active: nat, inactive: int)

  datatype CustomReport = CustomReport(summary: Summary, results: seq<Employee>, filters: CustomBody)

  /** The status filter applies only to a non-empty status other than "All". */
  predicate FiltersStatus(b: CustomBody) {
    Truthy(b.status) && b.status.value != "All"
  }

  /** The query object: status, `createdAt >= dateFrom` and `createdAt < dateTo + 1 day`, together. */
  predicate Selects(b: CustomBody, e: Employee) {
    (FiltersStatus(b) ==> e.status == b.status.value) &&
    (b.dateFrom.Some? ==> e.createdAt >= b.dateFrom.value) &&
    (b.dateTo.Some? ==> e.createdAt < b.dateTo.value + DAY_MS)
  }

  /** `select('-qrCode -__v')`. */
  function WithoutQrCode(e: Employee): (v: Employee)
    ensures v.qrCode.None? && v == e.(qrCode := None)
    ensures v.status == e.status && v.createdAt == e.createdAt
  {
    e.(qrCode := None)
  }

  /**
   * `total`, `active` (status exactly "Active") and `inactive = total - active`: every other
   * status, "Inactive" or not, counts as inactive.
   */
  function Summarize(results: seq<Employee>): (s: Summary)
    ensures s.total == |results| && s.active == |Filter(results, IsActive)|
    ensures s.inactive == s.total - s.active
    ensures s.inactive == |Filter(results, IsNotActive)|
  {
    var total := |results|;
    var active := Count(results, IsActive);
    CountComplement(results, IsActive, IsNotActive);
    Summary(total, active, total - active)
  }

  /** `Employee.find(query)`: the employees the query selects, in collection order. */
  function Selected(employees: seq<Employee>, b: CustomBody): (r: seq<Employee>)
    ensures |r| <= |employees| && multiset(r) <= multiset(employees)
    ensures forall i :: 0 <= i < |r| ==> Selects(b, r[i])
    ensures forall i :: 0 <= i < |employees| && Selects(b, employees[i]) ==> employees[i] in r
  {
    Filter(employees, e => Selects(b, e))
  }

  /** `select('-qrCode -__v')` over an ordered list: same order, no QR codes. */
  function Stripped(ordered: seq<Employee>): (r: seq<Employee>)
    requires NewestFirst(ordered, EmployeeCreatedAt)
    ensures |r| == |ordered| && NewestFirst(r, EmployeeCreatedAt)
    ensures forall i :: 0 <= i < |r| ==> r[i] == WithoutQrCode(ordered[i])
  {
    var r := Map(ordered, WithoutQrCode);
    assert NewestFirst(r, EmployeeCreatedAt) by {
      forall i, j | 0 <= i < j < |r| ensures r[i].createdAt >= r[j].createdAt {
        assert r[i].createdAt == ordered[i].createdAt && r[j].createdAt == ordered[j].createdAt;
      }
    }
    r
  }

  /** `.select('-qrCode -__v').sort({ createdAt: -1 })` over the selected employees. */
  function Results(selected: seq<Employee>, b: CustomBody): (r: seq<Employee>)
    requires forall i :: 0 <= i < |selected| ==> Selects(b, selected[i])
    ensures |r| == |selected| && NewestFirst(r, EmployeeCreatedAt)
    ensures forall i :: 0 <= i < |r| ==> r[i].qrCode.None? && Selects(b, r[i])
    ensures forall i :: 0 <= i < |selected| ==> WithoutQrCode(selected[i]) in r
    ensures multiset(r) == multiset(Map(selected, WithoutQrCode))
  {
    var ordered := SortNewestFirst(selected, EmployeeCreatedAt);
    var r := Stripped(ordered);
    assert r == Map(ordered, WithoutQrCode);
    MapPermutation(ordered, selected, WithoutQrCode);
    forall i | 0 <= i < |r| ensures Selects(b, r[i]) {
      StrippedSelected(selected, ordered, b, i);
    }
    forall i | 0 <= i < |selected| ensures WithoutQrCode(selected[i]) in r {
      assert selected[i] in multiset(ordered);
      var k :| 0 <= k < |ordered| && ordered[k] == selected[i];
      assert r[k] == WithoutQrCode(selected[i]);
    }
    r
  }

  /** A reordering of selected employees, stripped of QR codes, still meets the query. */
  lemma StrippedSelected(selected: seq<Employee>, ordered: seq<Employee>, b: CustomBody, i: nat)
    requires forall i :: 0 <= i < |selected| ==> Selects(b, selected[i])
    requires multiset(ordered) == multiset(selected) && i < |ordered|
    ensures Selects(b, WithoutQrCode(ordered[i]))
  {
    assert ordered[i] in multiset(selected);
    var k :| 0 <= k < |selected| && selected[k] == ordered[i];
    assert Selects(b, selected[k]);
  }

  /** `POST /custom`: the selected employees newest first without QR codes, their summary, the body echoed. */
  function Custom(employees: seq<Employee>, b: CustomBody): (r: Reply<CustomReport>)
    ensures r.Success? && r.status == 200 && r.value.filters == b
    ensures NewestFirst(r.value.results, EmployeeCreatedAt)
    ensures forall i :: 0 <= i < |r.value.results| ==>
              r.value.results[i].qrCode.None? && Selects(b, r.value.results[i])
    ensures forall i :: 0 <= i < |employees| && Selects(b, employees[i]) ==>
              WithoutQrCode(employees[i]) in r.value.results
    ensures multiset(r.value.results) == multiset(Map(Selected(employees, b), WithoutQrCode))
    ensures r.value.summary.total == |r.value.results| <= |employees|
    ensures r.value.summary.active == |Filter(r.value.results, IsActive)|
    ensures r.value.summary.inactive == r.value.summary.total - r.value.summary.active
  {
    var selected := Selected(employees, b);
    var results := Results(selected, b);
    forall i | 0 <= i < |employees| && Selects(b, employees[i])
      ensures WithoutQrCode(employees[i]) in results
    {
      var k :| 0 <= k < |selected| && selected[k] == employees[i];
    }
    Success(200, CustomReport(Summarize(results), results, b))
  }

  /**
   * For a bare `dateTo` date (midnight UTC) every employee created on that day passes the upper
   * bound, and none created from the next midnight on does.
   */
  lemma DateToCoversWholeDay(b: CustomBody, e: Employee)
    requires b.dateTo.Some? && b.dateTo.value % DAY_MS == 0
    ensures DayIndex(e.createdAt) <= DayIndex(b.dateTo.value) ==> e.createdAt < b.dateTo.value + DAY_MS
    ensures DayIndex(e.createdAt) > DayIndex(b.dateTo.value) ==> !Selects(b, e)
  {
    var d := b.dateTo.value;
    var q := d / DAY_MS;
    assert d == q * DAY_MS;
    var c := e.createdAt / DAY_MS;
    assert e.createdAt < (c + 1) * DAY_MS;
    if c <= q {
      MulAtLeast(q - c + 1, DAY_MS);
    } else {
      MulAtLeast(c - q, DAY_MS);
      assert e.createdAt >= c * DAY_MS;
    }
  }

  /** "All" or a missing status filters nothing by status. */
  lemma AllStatusesKept(employees: seq<Employee>, b: CustomBody, i: nat)
    requires b.status == Some("All") || b.status == None || b.status == Some("")
    requires b.dateFrom.None? && b.dateTo.None? && i < |employees|
    ensures WithoutQrCode(employees[i]) in Custom(employees, b).value.results
  {
  }
}
