/**
 * routes/activity.js: the filtered, paginated activity log (`GET /`). The handler runs after
 * `Guards.RouteAuthenticate`. The Activity schema is models/Activity.js.
 */
module ActivityLog {
  import opened Wrappers
  import opened Text
  import opened Calendar
  import opened Services
  import opened Http
  import opened Collections
  import opened UserModel

  /** A stored activity: who did what, to which target, when. */
  datatype Activity = Activity(id: Id, user: Id, action: string, target: Option<string>,
                               targetId: Option<Id>, createdAt: Time)

  /** The query string; absent values default to page 1 and limit 10. */
  datatype LogQuery = LogQuery(page: Option<int>, limit: Option<nat>, search: Option<string>,
                               action: Option<string>, dateRange: Option<string>)

  datatype LogPage = LogPage(logs: seq<Activity>, totalPages: Option<nat>)

  function ActivityCreatedAt(a: Activity): Time { a.createdAt }

  /** The user lookup behind `search`: a case-insensitive match on first or last name. */
  predicate NameMatches(search: string, u: User) {
    ContainsIgnoringCase(u.firstName, search) || ContainsIgnoringCase(u.lastName, search)
  }

  /** `User.find({ $or: [firstName, lastName] })`. */
  function NameMatching(users: seq<User>, search: string): (r: seq<User>)
    ensures forall i :: 0 <= i < |r| ==> NameMatches(search, r[i]) && r[i] in users
    ensures forall i :: 0 <= i < |users| && NameMatches(search, users[i]) ==> users[i] in r
  {
    var r := Filter(users, u => NameMatches(search, u));
    assert forall i :: 0 <= i < |r| ==> r[i] in multiset(users);
    r
  }

  /** The ids of the users whose first or last name matches `search`. */
  function MatchingUserIds(users: seq<User>, search: string): (ids: seq<Id>)
    ensures |ids| == |NameMatching(users, search)|
    ensures forall k :: 0 <= k < |ids| ==> ids[k] == NameMatching(users, search)[k].id
  {
    Map(NameMatching(users, search), IdOf)
  }

  /** The `dateRange` presets: a lower bound for the two known presets, none otherwise. */
  function Since(dateRange: Option<string>, now: Time): (r: Option<Time>)
    ensures dateRange == Some("Last 7 Days") ==> r == Some(DaysBefore(now, 7))
    ensures dateRange == Some("Last 30 Days") ==> r == Some(DaysBefore(now, 30))
    ensures dateRange != Some("Last 7 Days") && dateRange != Some("Last 30 Days") ==> r.None?
  {
    if dateRange == Some("Last 7 Days") then Some(DaysBefore(now, 7))
    else if dateRange == Some("Last 30 Days") then Some(DaysBefore(now, 30))
    else None
  }

  /** The query object: every filter that was given, together. */
  predicate Selects(q: LogQuery, userIds: seq<Id>, since: Option<Time>, a: Activity) {
    (Truthy(q.search) ==> a.user in userIds) &&
    (Truthy(q.action) ==> a.action == q.action.value) &&
    (since.Some? ==> a.createdAt >= since.value)
  }

  /** `Activity.find(query)`. */
  function Selected(activities: seq<Activity>, q: LogQuery, userIds: seq<Id>, since: Option<Time>): (r: seq<Activity>)
    ensures |r| <= |activities|
    ensures forall i :: 0 <= i < |r| ==> Selects(q, userIds, since, r[i])
    ensures forall i :: 0 <= i < |activities| && Selects(q, userIds, since, activities[i]) ==> activities[i] in r
  {
    Filter(activities, a => Selects(q, userIds, since, a))
  }

  /** The activities the query of `q` selects at time `now`. */
  function Matching(activities: seq<Activity>, users: seq<User>, q: LogQuery, now: Time): seq<Activity> {
    Selected(activities, q, MatchingUserIds(users, q.search.GetOr("")), Since(q.dateRange, now))
  }

  /**
   * `GET /`: the selected logs newest first, `(page - 1) * limit` skipped, at most `limit`
   * (0: all), with `totalPages = ceil(count / limit)` over the same query.
   */
  function ListLogs(activities: seq<Activity>, users: seq<User>, q: LogQuery, now: Time): (r: Reply<LogPage>)
    ensures var limit := q.limit.GetOr(10);
            var skip := Skip(q.page.GetOr(1), limit);
            var matching := Matching(activities, users, q, now);
            && (skip < 0 <==> r.Failure?)
            && (r.Failure? ==> r == Failure(500, ErrorKey, "Failed to fetch activity logs"))
            && (r.Success? ==>
                  && r.status == 200
                  && (limit > 0 ==> |r.value.logs| <= limit)
                  && NewestFirst(r.value.logs, ActivityCreatedAt)
                  && r.value.logs == Window(SortNewestFirst(matching, ActivityCreatedAt), skip, limit)
                  && r.value.totalPages == TotalPages(|matching|, limit))
  {
    var limit := q.limit.GetOr(10);
    var skip := Skip(q.page.GetOr(1), limit);
    if skip < 0 then Failure(500, ErrorKey, "Failed to fetch activity logs")
    else
      var matching := Matching(activities, users, q, now);
      var ordered := SortNewestFirst(matching, ActivityCreatedAt);
      WindowNewestFirst(ordered, skip, limit, ActivityCreatedAt);
      Success(200, LogPage(Window(ordered, skip, limit), TotalPages(|matching|, limit)))
  }

  /** Every activity the query selects satisfies every filter that was given. */
  lemma MatchingMeetsFilters(activities: seq<Activity>, users: seq<User>, q: LogQuery, now: Time, a: Activity)
    requires a in Matching(activities, users, q, now)
    ensures Truthy(q.search) ==> exists j :: 0 <= j < |users| && users[j].id == a.user && NameMatches(q.search.value, users[j])
    ensures Truthy(q.action) ==> a.action == q.action.value
    ensures q.dateRange == Some("Last 7 Days") ==> a.createdAt >= DaysBefore(now, 7)
    ensures q.dateRange == Some("Last 30 Days") ==> a.createdAt >= DaysBefore(now, 30)
  {
    var m := Matching(activities, users, q, now);
    var k :| 0 <= k < |m| && m[k] == a;
    if Truthy(q.search) {
      var ids := MatchingUserIds(users, q.search.value);
      var named := NameMatching(users, q.search.value);
      var n :| 0 <= n < |ids| && ids[n] == a.user;
      var j :| 0 <= j < |users| && users[j] == named[n];
      assert users[j].id == a.user;
    }
  }

  /** Conversely, an activity meeting every filter that was given is selected. */
  lemma FiltersSelect(activities: seq<Activity>, users: seq<User>, q: LogQuery, now: Time, k: nat)
    requires k < |activities|
    requires Truthy(q.search) ==>
               exists j :: 0 <= j < |users| && users[j].id == activities[k].user && NameMatches(q.search.value, users[j])
    requires Truthy(q.action) ==> activities[k].action == q.action.value
    requires Since(q.dateRange, now).Some? ==> activities[k].createdAt >= Since(q.dateRange, now).value
    ensures activities[k] in Matching(activities, users, q, now)
  {
    var ids := MatchingUserIds(users, q.search.GetOr(""));
    if Truthy(q.search) {
      var named := NameMatching(users, q.search.value);
      var j :| 0 <= j < |users| && users[j].id == activities[k].user && NameMatches(q.search.value, users[j]);
      var n :| 0 <= n < |named| && named[n] == users[j];
      assert ids[n] == activities[k].user;
    }
    assert Selects(q, ids, Since(q.dateRange, now), activities[k]);
  }

  /** Every listed log satisfies every filter that was given. */
  lemma ListedLogsMatch(activities: seq<Activity>, users: seq<User>, q: LogQuery, now: Time, i: nat)
    requires ListLogs(activities, users, q, now).Success? && i < |ListLogs(activities, users, q, now).value.logs|
    ensures ListLogs(activities, users, q, now).value.logs[i] in Matching(activities, users, q, now)
  {
    var limit := q.limit.GetOr(10);
    var skip := Skip(q.page.GetOr(1), limit);
    var matching := Matching(activities, users, q, now);
    var ordered := SortNewestFirst(matching, ActivityCreatedAt);
    WindowWithin(ordered, skip, limit, i);
    assert ListLogs(activities, users, q, now).value.logs[i] in multiset(ordered);
  }

  /** A search that matches no user's name returns no logs at all, on any page. */
  lemma NoMatchingUserNoLogs(activities: seq<Activity>, users: seq<User>, q: LogQuery, now: Time)
    requires Truthy(q.search)
    requires forall j :: 0 <= j < |users| ==> !NameMatches(q.search.value, users[j])
    ensures Matching(activities, users, q, now) == []
  {
    var search := q.search.value;
    FilterNone(users, u => NameMatches(search, u));
    var ids := MatchingUserIds(users, search);
    FilterNone(activities, a => Selects(q, ids, Since(q.dateRange, now), a));
  }

  /** "All Time", any other preset and a missing `dateRange` impose no date bound. */
  lemma OtherPresetsUnbounded(dateRange: Option<string>, now: Time)
    requires dateRange != Some("Last 7 Days") && dateRange != Some("Last 30 Days")
    ensures Since(dateRange, now).None?
  {
  }
}
