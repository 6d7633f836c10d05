/** Loops over days: the longest run of consecutive days, and the scheduler's expected occurrence. */
module CalendarLoops {
  import opened Common
  import opened Sorting
  import opened Tallies

  // ---- consecutive days ----

  /** All `n` days from `start` on are in the set. */
  ghost predicate Consecutive(days: set<int>, start: int, n: nat) {
    forall d :: start <= d < start + n ==> d in days
  }

  /** `sorted(days)` */
  method SortedDays(days: set<int>) returns (sorted: seq<int>)
    ensures Ordered(Less, sorted) && forall d :: d in sorted <==> d in days
  {
    sorted := [];
    var left := days;
    while left != {}
      invariant left <= days && Ordered(Less, sorted) && forall d :: d in sorted <==> d in days - left
      decreases |left|
    {
      var d := Pick(left);
      InsertIsOrdered(Less, d, sorted);
      InsertMembers(Less, d, sorted);
      sorted := Insert(Less, d, sorted);
      left := left - {d};
    }
  }

  /** Every run that ends on or before `last` is at most `longest` long. */
  ghost predicate Bounded(days: set<int>, last: int, longest: nat) {
    forall start, n: nat :: Consecutive(days, start, n) && start + n - 1 <= last ==> n <= longest
  }

  /** The run that ends on `last` is exactly `current` long. */
  ghost predicate RunEnds(days: set<int>, last: int, current: nat) {
    Consecutive(days, last - current + 1, current) && last - current !in days
  }

  lemma NextDay(days: set<int>, previous: int, day: int, current: nat, longest: nat)
    requires previous < day && day in days && forall d :: previous < d < day ==> d !in days
    requires RunEnds(days, previous, current) && previous in days && Bounded(days, previous, longest)
      && current <= longest
    ensures var next := if day - previous == 1 then current + 1 else 1;
      RunEnds(days, day, next) && Bounded(days, day, if next > longest then next else longest)
  {
    var next := if day - previous == 1 then current + 1 else 1;
    assert RunEnds(days, day, next);
    assert day - next !in days;
    forall start, n: nat | Consecutive(days, start, n) && start + n - 1 <= day
      ensures n <= if next > longest then next else longest
    {
      assert n > 0 ==> start + n - 1 in days;
      assert start + n - 1 <= previous || n == 0 || start + n - 1 == day;
      assert n > 0 && start + n - 1 == day ==> start > day - next;
    }
  }

  lemma FirstDay(days: set<int>, day: int)
    requires day in days && forall d :: d < day ==> d !in days
    ensures RunEnds(days, day, 1) && Bounded(days, day, 1)
  {
    forall start, n: nat | Consecutive(days, start, n) && start + n - 1 <= day ensures n <= 1 {
      assert n > 0 ==> start in days;
    }
  }

  /** The largest number of consecutive days that all lie in the set. */
  ghost predicate IsLongest(days: set<int>, longest: nat) {
    && (exists start :: Consecutive(days, start, longest))
    && forall start, n: nat :: Consecutive(days, start, n) ==> n <= longest
  }

  /** `_longest_run` */
  method LongestRun(days: set<int>) returns (longest: nat)
    ensures IsLongest(days, longest)
  {
    var sorted := SortedDays(days);
    longest := 0;
    var current: nat := 0;
    ghost var best := 0;
    assert Consecutive(days, 0, 0);
    for i := 0 to |sorted|
      invariant Consecutive(days, best, longest) && current <= longest
      invariant i > 0 ==> RunEnds(days, sorted[i - 1], current) && Bounded(days, sorted[i - 1], longest)
    {
      var day := sorted[i];
      assert day in sorted;
      if i > 0 {
        assert sorted[i - 1] in sorted;
        NextDay(days, sorted[i - 1], day, current, longest);
      } else {
        FirstDay(days, day);
      }
      current := if i > 0 && day - sorted[i - 1] == 1 then current + 1 else 1;
      if current > longest {
        longest, best := current, day - current + 1;
      }
    }
    forall start, n: nat | Consecutive(days, start, n) ensures n <= longest {
      if n > 0 {
        assert start + n - 1 in days;
        assert start + n - 1 in sorted;
      }
    }
  }

  lemma ShorterRun(days: set<int>, start: int, n: nat, m: nat)
    requires Consecutive(days, start, n) && m <= n
    ensures Consecutive(days, start, m)
  {
  }

  /** Coverage of a week is a window of seven days in the set, and more days can only add to it: if every
    * route's own days cover a week, so do the days of all reports.
    */
  lemma WeekCoverage(days: set<int>, longest: nat, routeDays: set<int>, routeLongest: nat)
    requires IsLongest(days, longest) && IsLongest(routeDays, routeLongest) && routeDays <= days
    ensures longest >= 7 <==> exists start :: Consecutive(days, start, 7)
    ensures routeLongest <= longest
    ensures routeLongest >= 7 ==> longest >= 7
  {
    if longest >= 7 {
      var start :| Consecutive(days, start, longest);
      ShorterRun(days, start, longest, 7);
    }
    var start :| Consecutive(routeDays, start, routeLongest);
    assert Consecutive(days, start, routeLongest);
  }

  // ---- the coverage of hosted reports ----

  /** A report on disk: its UTC day, its origin, whether its schema is one of the two oldest, which know fewer
    * routes, and whether it passes every check that looks at no other report.
    */
  datatype HostedReport = HostedReport(day: int, origin: string, legacy: bool, passes: bool)

  const LEGACY_ROUTES: seq<string> := ["health", "summary", "forward_status", "forecasts_page"]
  const ROUTES: seq<string> := LEGACY_ROUTES + ["forward_performance"]

  function Expected(legacy: seq<string>, routes: seq<string>, r: HostedReport): seq<string> {
    if r.legacy then legacy else routes
  }

  function AllDays(reports: seq<HostedReport>): set<int> {
    set r | r in reports :: r.day
  }

  /** The days of the reports that look at the route. */
  function DaysOf(legacy: seq<string>, routes: seq<string>, reports: seq<HostedReport>, route: string): set<int> {
    set r | r in reports && route in Expected(legacy, routes, r) :: r.day
  }

  /** Every report is sound, and there is one for each day. */
  ghost predicate Daily(reports: seq<HostedReport>) {
    && (forall i :: 0 <= i < |reports| ==> reports[i].passes)
    && forall i, j :: 0 <= i < j < |reports| ==> reports[i].day != reports[j].day
  }

  ghost predicate SameOrigin(reports: seq<HostedReport>) {
    reports != [] && forall i :: 0 <= i < |reports| ==> reports[i].origin == reports[0].origin
  }

  ghost predicate Accumulated(legacy: seq<string>, routes: seq<string>, reports: seq<HostedReport>,
                              days: set<int>, routeDays: map<string, set<int>>)
  {
    && days == AllDays(reports) && (forall route :: route in routeDays <==> route in routes)
    && forall route :: route in routeDays ==> routeDays[route] == DaysOf(legacy, routes, reports, route)
  }

  /** The inner loop: the day is added to each of the report's routes. */
  method AddDay(expected: seq<string>, day: int, before: map<string, set<int>>) returns (after: map<string, set<int>>)
    requires forall route :: route in expected ==> route in before
    ensures after.Keys == before.Keys
    ensures forall route :: route in after ==>
      after[route] == if route in expected then before[route] + {day} else before[route]
  {
    after := before;
    for i := 0 to |expected|
      invariant after.Keys == before.Keys
      invariant forall route :: route in after ==>
        after[route] == if route in expected[..i] then before[route] + {day} else before[route]
    {
      assert expected[..i + 1] == expected[..i] + [expected[i]] && expected[i] in expected;
      after := after[expected[i] := after[expected[i]] + {day}];
    }
    assert expected[..|expected|] == expected;
  }

  lemma OneMoreReport(legacy: seq<string>, routes: seq<string>, reports: seq<HostedReport>, r: HostedReport)
    ensures AllDays(reports + [r]) == AllDays(reports) + {r.day}
    ensures Origins(reports + [r]) == Origins(reports) + {r.origin}
    ensures forall route ::
      var own := if route in Expected(legacy, routes, r) then {r.day} else {};
      DaysOf(legacy, routes, reports + [r], route) == DaysOf(legacy, routes, reports, route) + own
  {
    assert r in reports + [r];
    assert forall q :: q in reports + [r] <==> q in reports || q == r;
  }

  function Origins(reports: seq<HostedReport>): set<string> {
    set r | r in reports :: r.origin
  }

  lemma DailySnoc(reports: seq<HostedReport>, k: nat)
    requires k < |reports|
    ensures Daily(reports[..k + 1]) <==>
      Daily(reports[..k]) && reports[k].passes && reports[k].day !in AllDays(reports[..k])
    ensures Daily(reports) ==> Daily(reports[..k + 1])
  {
    var before, all := reports[..k], reports[..k + 1];
    assert all == before + [reports[k]];
    if Daily(all) {
      forall i | 0 <= i < k ensures before[i] == all[i] && before[i].day != all[k].day {
      }
    }
  }

  lemma AccumulatedStep(legacy: seq<string>, routes: seq<string>, reports: seq<HostedReport>, k: nat,
                        days: set<int>, before: map<string, set<int>>, after: map<string, set<int>>)
    requires k < |reports| && Accumulated(legacy, routes, reports[..k], days, before) && after.Keys == before.Keys
    requires forall route :: route in after ==>
      var own := if route in Expected(legacy, routes, reports[k]) then {reports[k].day} else {};
      after[route] == before[route] + own
    ensures Accumulated(legacy, routes, reports[..k + 1], days + {reports[k].day}, after)
  {
    assert reports[..k + 1] == reports[..k] + [reports[k]];
    OneMoreReport(legacy, routes, reports[..k], reports[k]);
  }

  /** The accumulation loop of `summarize`, for any route lists: it ends normally exactly for sound reports of
    * different days, and then has collected the days of all reports and of each route.
    */
  method Accumulate(legacy: seq<string>, routes: seq<string>, reports: seq<HostedReport>)
      returns (ok: bool, days: set<int>, routeDays: map<string, set<int>>, origins: set<string>)
    requires forall route :: route in legacy ==> route in routes
    ensures ok <==> Daily(reports)
    ensures ok ==> Accumulated(legacy, routes, reports, days, routeDays) && origins == Origins(reports)
  {
    ok, days, origins := true, {}, {};
    routeDays := map route | route in routes :: {};
    for k := 0 to |reports|
      invariant Accumulated(legacy, routes, reports[..k], days, routeDays) && Daily(reports[..k])
      invariant origins == Origins(reports[..k])
    {
      var r := reports[k];
      DailySnoc(reports, k);
      if r.day in days { return false, days, routeDays, origins; }
      ghost var collected := days;
      days := days + {r.day};
      assert reports[..k + 1] == reports[..k] + [r];
      OneMoreReport(legacy, routes, reports[..k], r);
      origins := origins + {r.origin};
      if !r.passes { return false, days, routeDays, origins; }
      var after := AddDay(Expected(legacy, routes, r), r.day, routeDays);
      AccumulatedStep(legacy, routes, reports, k, collected, routeDays, after);
      routeDays := after;
    }
    assert reports[..|reports|] == reports;
  }

  /** `longest` is the longest run of days with a report, and so on for each route. */
  datatype Coverage = Coverage(longest: nat, week: bool, byRoute: map<string, nat>, allRoutes: bool)

  /** Seven consecutive days have a report that looks at the route. */
  ghost predicate WeekOf(legacy: seq<string>, routes: seq<string>, reports: seq<HostedReport>, route: string) {
    exists start :: Consecutive(DaysOf(legacy, routes, reports, route), start, 7)
  }

  ghost predicate Covers(legacy: seq<string>, routes: seq<string>, reports: seq<HostedReport>, c: Coverage) {
    && IsLongest(AllDays(reports), c.longest) && (forall route :: route in c.byRoute <==> route in routes)
    && (forall route :: route in c.byRoute ==> IsLongest(DaysOf(legacy, routes, reports, route), c.byRoute[route]))
    && (c.week <==> exists start :: Consecutive(AllDays(reports), start, 7))
    && (c.allRoutes <==> forall route :: route in routes ==> WeekOf(legacy, routes, reports, route))
  }

  lemma WindowOfSeven(days: set<int>, longest: nat)
    requires IsLongest(days, longest)
    ensures longest >= 7 <==> exists start :: Consecutive(days, start, 7)
  {
    WeekCoverage(days, longest, days, longest);
  }

  lemma OneOrigin(reports: seq<HostedReport>)
    ensures |Origins(reports)| == 1 <==> SameOrigin(reports)
  {
    var origins := Origins(reports);
    if reports == [] {
      assert origins == {};
    } else {
      var first := reports[0].origin;
      assert reports[0] in reports && first in origins;
      if SameOrigin(reports) {
        assert origins == {first};
      } else {
        var i :| 0 <= i < |reports| && reports[i].origin != first;
        assert reports[i] in reports && {first, reports[i].origin} <= origins;
        SubsetSize({first, reports[i].origin}, origins);
      }
    }
  }

  lemma RouteDaysAreDays(legacy: seq<string>, routes: seq<string>, reports: seq<HostedReport>, route: string)
    ensures DaysOf(legacy, routes, reports, route) <= AllDays(reports)
  {
  }

  /** The coverage part of `summarize`, for any route lists. */
  method SummarizeCoverageWith(legacy: seq<string>, routes: seq<string>, reports: seq<HostedReport>)
      returns (r: Option<Coverage>)
    requires forall route :: route in legacy ==> route in routes
    ensures r.Some? <==> Daily(reports) && SameOrigin(reports)
    ensures r.Some? ==> Covers(legacy, routes, reports, r.value)
    ensures r.Some? ==> forall route :: route in r.value.byRoute ==> r.value.byRoute[route] <= r.value.longest
    ensures r.Some? && r.value.allRoutes && routes != [] ==> r.value.week
  {
    if reports == [] { return None; }
    var ok, days, routeDays, origins := Accumulate(legacy, routes, reports);
    OneOrigin(reports);
    if !ok || |origins| != 1 { return None; }
    var longest := LongestRun(days);
    WindowOfSeven(days, longest);
    var byRoute: map<string, nat> := map[];
    var all := true;
    for i := 0 to |routes|
      invariant forall route :: route in byRoute <==> route in routes[..i]
      invariant forall route :: route in byRoute ==>
        IsLongest(DaysOf(legacy, routes, reports, route), byRoute[route]) && byRoute[route] <= longest
      invariant all <==> forall route :: route in routes[..i] ==> WeekOf(legacy, routes, reports, route)
      invariant all && i > 0 ==> longest >= 7
    {
      var route := routes[i];
      assert routes[..i + 1] == routes[..i] + [route] && route in routes;
      var own := LongestRun(routeDays[route]);
      RouteDaysAreDays(legacy, routes, reports, route);
      WeekCoverage(days, longest, routeDays[route], own);
      WindowOfSeven(routeDays[route], own);
      byRoute, all := byRoute[route := own], all && own >= 7;
    }
    assert routes[..|routes|] == routes;
    return Some(Coverage(longest, longest >= 7, byRoute, all));
  }

  /** The coverage part of `summarize`: it refuses exactly reports that cannot be pooled. A week is covered
    * when seven consecutive days have a report; no route has a longer run than the whole, and when every
    * route is covered, so is the whole.
    */
  method SummarizeCoverage(reports: seq<HostedReport>) returns (r: Option<Coverage>)
    ensures r.Some? <==> Daily(reports) && SameOrigin(reports)
    ensures r.Some? ==> Covers(LEGACY_ROUTES, ROUTES, reports, r.value)
    ensures r.Some? ==> forall route :: route in r.value.byRoute ==> r.value.byRoute[route] <= r.value.longest
    ensures r.Some? && r.value.allRoutes ==> r.value.week
  {
    r := SummarizeCoverageWith(LEGACY_ROUTES, ROUTES, reports);
  }

  // ---- the expected occurrence ----

  const DAY: int := 86_400_000_000
  const AT: int := 26_220_000_000      // 07:17

  /** Instants in microseconds from a Monday midnight; the schedule runs on the days 1 to 5 of each week. */
  predicate IsOccurrence(t: int) {
    t % DAY == AT && 1 <= (t / DAY) % 7 <= 5
  }

  ghost predicate IsLatest(c: int, t: int) {
    IsOccurrence(c) && c <= t && forall o :: IsOccurrence(o) && o <= t ==> o <= c
  }

  predicate Runs(day: int) {
    1 <= day % 7 <= 5
  }

  lemma OccurrenceDay(o: int)
    requires IsOccurrence(o)
    ensures o == o / DAY * DAY + AT && Runs(o / DAY)
  {
  }

  /** Two days of a week are off, so three in a row never are. */
  lemma NotThreeInARow(day: int)
    ensures Runs(day) || Runs(day + 1) || Runs(day + 2)
    ensures !Runs(day) && !Runs(day + 1) ==> Runs(day + 2)
  {
  }

  /** No day after `day` holds an occurrence up to the instant. */
  ghost predicate NoneAfter(day: int, t: int) {
    forall e :: day < e <= t / DAY ==> !(e * DAY + AT <= t && Runs(e))
  }

  lemma SearchEnds(t: int)
    requires NoneAfter(t / DAY - 3, t)
    ensures Runs(t / DAY - 3)
  {
    var today := t / DAY;
    assert today * DAY <= t;
    assert !Runs(today - 1) && !Runs(today - 2);
    NotThreeInARow(today - 3);
  }

  /** A search that went three days back had found the instant's own day too late. */
  lemma NotAtTheBound(day: int, t: int)
    requires day == t / DAY - 3 && NoneAfter(day, t)
    ensures t < t / DAY * DAY + AT
  {
    var today := t / DAY;
    assert today * DAY <= t;
    assert !Runs(today - 1) && !Runs(today - 2);
    NotThreeInARow(today - 2);
  }

  lemma FoundIsLatest(day: int, t: int, o: int)
    requires NoneAfter(day, t) && IsOccurrence(o) && o <= t
    ensures o <= day * DAY + AT
  {
    OccurrenceDay(o);
    assert o / DAY <= t / DAY;
  }

  lemma DayOccurs(day: int)
    requires Runs(day)
    ensures IsOccurrence(day * DAY + AT)
  {
    assert (day * DAY + AT) / DAY == day && (day * DAY + AT) % DAY == AT;
  }

  /** `expected_schedule_at`: the search ends within three days at the latest occurrence. */
  method ExpectedScheduleAt(t: int) returns (c: int)
    ensures IsLatest(c, t) && 0 <= t - c < 3 * DAY
  {
    ghost var day := t / DAY;
    c := t / DAY * DAY + AT;
    while c > t || !Runs(c / DAY)
      invariant c == day * DAY + AT && c / DAY == day && t / DAY - 3 <= day <= t / DAY && NoneAfter(day, t)
      decreases day - (t / DAY - 4)
    {
      if day == t / DAY - 3 { SearchEnds(t); }
      day, c := day - 1, c - DAY;
    }
    DayOccurs(day);
    if day == t / DAY - 3 { NotAtTheBound(day, t); }
    forall o | IsOccurrence(o) && o <= t ensures o <= c {
      FoundIsLatest(day, t, o);
    }
  }

  /** The latest occurrence is unique, monotone in the instant, and its own latest occurrence. */
  lemma LatestIsMonotone(c: int, t: int, d: int, u: int)
    requires IsLatest(c, t) && IsLatest(d, u) && t <= u
    ensures c <= d && (t == u ==> c == d) && IsLatest(c, c)
  {
    assert IsOccurrence(c) && c <= u;
  }

  // ---- the lateness report ----

  /** A run as redacted; `flawed` covers every reason but a missing id or a missing creation time. */
  datatype RunRecord = RunRecord(id: Option<int>, created: Option<int>, flawed: bool)

  predicate Sound(r: RunRecord) {
    !r.flawed && r.id.Some? && r.created.Some?
  }

  ghost predicate InScope(r: RunRecord, cutoff: int) {
    Sound(r) && r.created.value >= cutoff
  }

  /** The i-th run is in scope, and no earlier run in scope has its identifier. */
  ghost predicate FirstAppearance(runs: seq<RunRecord>, cutoff: int, i: nat)
    requires i < |runs|
  {
    InScope(runs[i], cutoff) && forall j :: 0 <= j < i && InScope(runs[j], cutoff) ==> runs[j].id != runs[i].id
  }

  predicate IsEarly(r: RunRecord, cutoff: int) {
    Sound(r) && r.created.value < cutoff
  }

  /** The first `n` runs that are first appearances, in order. */
  ghost function FirstAppearances(runs: seq<RunRecord>, cutoff: int, n: nat): seq<RunRecord>
    requires n <= |runs|
  {
    if n == 0 then []
    else FirstAppearances(runs, cutoff, n - 1) + (if FirstAppearance(runs, cutoff, n - 1) then [runs[n - 1]] else [])
  }

  /** Those among the first `n` that are neither early nor first appearances, in order. */
  ghost function Refused(runs: seq<RunRecord>, cutoff: int, n: nat): seq<RunRecord>
    requires n <= |runs|
  {
    if n == 0 then []
    else
      var kept := FirstAppearance(runs, cutoff, n - 1) || IsEarly(runs[n - 1], cutoff);
      Refused(runs, cutoff, n - 1) + (if kept then [] else [runs[n - 1]])
  }

  /** How many of the first `n` runs are sound and before the window. */
  function EarlyRuns(runs: seq<RunRecord>, cutoff: int, n: nat): nat
    requires n <= |runs|
  {
    if n == 0 then 0 else EarlyRuns(runs, cutoff, n - 1) + (if IsEarly(runs[n - 1], cutoff) then 1 else 0)
  }

  ghost predicate Listed(included: seq<RunRecord>, id: int) {
    exists q :: q in included && q.id == Some(id)
  }

  lemma {:induction false} NothingIsLost(runs: seq<RunRecord>, cutoff: int, n: nat)
    requires n <= |runs|
    ensures |FirstAppearances(runs, cutoff, n)| + EarlyRuns(runs, cutoff, n) + |Refused(runs, cutoff, n)| == n
  {
    if n > 0 {
      NothingIsLost(runs, cutoff, n - 1);
    }
  }

  lemma {:induction false} FirstAppearancesMeaning(runs: seq<RunRecord>, cutoff: int, n: nat)
    requires n <= |runs|
    ensures forall r :: r in FirstAppearances(runs, cutoff, n) <==>
      exists i :: 0 <= i < n && runs[i] == r && FirstAppearance(runs, cutoff, i)
  {
    if n > 0 {
      FirstAppearancesMeaning(runs, cutoff, n - 1);
    }
  }

  /** Every identifier in scope has its first appearance. */
  lemma {:induction false} AllAreListed(runs: seq<RunRecord>, cutoff: int, n: nat, j: nat)
    requires j < n <= |runs| && InScope(runs[j], cutoff)
    ensures Listed(FirstAppearances(runs, cutoff, n), runs[j].id.value)
    decreases j
  {
    FirstAppearancesMeaning(runs, cutoff, n);
    if FirstAppearance(runs, cutoff, j) {
      assert runs[j] in FirstAppearances(runs, cutoff, n);
    } else {
      var i :| 0 <= i < j && InScope(runs[i], cutoff) && runs[i].id == runs[j].id;
      AllAreListed(runs, cutoff, n, i);
    }
  }

  ghost predicate DistinctIds(runs: seq<RunRecord>) {
    forall i, j :: 0 <= i < j < |runs| ==> runs[i].id != runs[j].id
  }

  lemma DistinctSnoc(runs: seq<RunRecord>, r: RunRecord)
    requires DistinctIds(runs) && forall q :: q in runs ==> q.id != r.id
    ensures DistinctIds(runs + [r])
  {
    assert forall i :: 0 <= i < |runs| ==> runs[i] in runs;
  }

  lemma NewIdentifier(runs: seq<RunRecord>, cutoff: int, n: nat)
    requires n < |runs| && FirstAppearance(runs, cutoff, n)
    ensures forall q :: q in FirstAppearances(runs, cutoff, n) ==> q.id != runs[n].id
  {
    FirstAppearancesMeaning(runs, cutoff, n);
    forall q | q in FirstAppearances(runs, cutoff, n) ensures q.id != runs[n].id {
      var j :| 0 <= j < n && runs[j] == q && FirstAppearance(runs, cutoff, j);
      assert InScope(runs[j], cutoff);
    }
  }

  lemma {:induction false} ListedOnce(runs: seq<RunRecord>, cutoff: int, n: nat)
    requires n <= |runs|
    ensures DistinctIds(FirstAppearances(runs, cutoff, n))
  {
    if n > 0 {
      ListedOnce(runs, cutoff, n - 1);
      var before := FirstAppearances(runs, cutoff, n - 1);
      if FirstAppearance(runs, cutoff, n - 1) {
        NewIdentifier(runs, cutoff, n - 1);
        DistinctSnoc(before, runs[n - 1]);
      } else {
        assert FirstAppearances(runs, cutoff, n) == before;
      }
    }
  }

  /** A run is a first appearance exactly when it is in scope and its identifier is not listed yet. */
  lemma FirstIsUnlisted(runs: seq<RunRecord>, cutoff: int, i: nat)
    requires i < |runs|
    ensures FirstAppearance(runs, cutoff, i) <==>
      InScope(runs[i], cutoff) && !Listed(FirstAppearances(runs, cutoff, i), runs[i].id.value)
  {
    FirstAppearancesMeaning(runs, cutoff, i);
    var before := FirstAppearances(runs, cutoff, i);
    if InScope(runs[i], cutoff) && Listed(before, runs[i].id.value) {
      var q :| q in before && q.id == runs[i].id;
      var j :| 0 <= j < i && runs[j] == q && FirstAppearance(runs, cutoff, j);
      assert InScope(runs[j], cutoff) && runs[j].id == runs[i].id;
    }
    if InScope(runs[i], cutoff) && !FirstAppearance(runs, cutoff, i) {
      var j :| 0 <= j < i && InScope(runs[j], cutoff) && runs[j].id == runs[i].id;
      AllAreListed(runs, cutoff, i, j);
    }
  }

  lemma {:induction false} RefusedMeaning(runs: seq<RunRecord>, cutoff: int, n: nat)
    requires n <= |runs|
    ensures forall r :: r in Refused(runs, cutoff, n) <==>
      exists i :: 0 <= i < n && runs[i] == r && !IsEarly(r, cutoff) && !FirstAppearance(runs, cutoff, i)
  {
    if n > 0 {
      RefusedMeaning(runs, cutoff, n - 1);
    }
  }

  lemma ListedSnoc(included: seq<RunRecord>, r: RunRecord)
    requires r.id.Some?
    ensures forall id :: Listed(included + [r], id) <==> id == r.id.value || Listed(included, id)
  {
    assert r in included + [r];
    forall id | Listed(included, id) ensures Listed(included + [r], id) {
      var q :| q in included && q.id == Some(id);
      assert q in included + [r];
    }
  }

  /** None of the runs is lost and no identifier is counted twice: each is before the window, or listed at its
    * first appearance, or refused for a flaw or for an identifier that is listed already.
    */
  ghost predicate Partitioned(runs: seq<RunRecord>, cutoff: int, included: seq<RunRecord>, outside: nat,
                              invalid: seq<RunRecord>)
  {
    && |runs| == |included| + outside + |invalid|
    && (forall r :: r in included ==> r in runs && InScope(r, cutoff))
    && DistinctIds(included)
    && (forall r :: r in runs && InScope(r, cutoff) ==> Listed(included, r.id.value))
    && (forall r :: r in runs && !Sound(r) ==> r in invalid)
    && (forall r :: r in invalid ==>
          r in runs && (!Sound(r) || (InScope(r, cutoff) && Listed(included, r.id.value))))
  }

  lemma PartitionMeaning(runs: seq<RunRecord>, cutoff: int)
    ensures Partitioned(runs, cutoff, FirstAppearances(runs, cutoff, |runs|), EarlyRuns(runs, cutoff, |runs|),
                        Refused(runs, cutoff, |runs|))
  {
    NothingIsLost(runs, cutoff, |runs|);
    FirstAppearancesMeaning(runs, cutoff, |runs|);
    ListedOnce(runs, cutoff, |runs|);
    RefusedMeaning(runs, cutoff, |runs|);
    forall r | r in runs && InScope(r, cutoff) ensures Listed(FirstAppearances(runs, cutoff, |runs|), r.id.value) {
      var j :| 0 <= j < |runs| && runs[j] == r;
      AllAreListed(runs, cutoff, |runs|, j);
    }
  }

  /** `build_lateness_report`'s partition of the returned runs: the first appearances of sound runs inside the
    * window in order, the number of sound runs before it, and all others in order.
    */
  method PartitionRuns(runs: seq<RunRecord>, cutoff: int)
      returns (included: seq<RunRecord>, outside: nat, invalid: seq<RunRecord>)
    ensures included == FirstAppearances(runs, cutoff, |runs|)
    ensures outside == EarlyRuns(runs, cutoff, |runs|)
    ensures invalid == Refused(runs, cutoff, |runs|)
    ensures Partitioned(runs, cutoff, included, outside, invalid)
  {
    included, outside, invalid := [], 0, [];
    var seen: set<int> := {};
    for i := 0 to |runs|
      invariant included == FirstAppearances(runs, cutoff, i) && outside == EarlyRuns(runs, cutoff, i)
      invariant invalid == Refused(runs, cutoff, i)
      invariant forall id :: id in seen <==> Listed(included, id)
    {
      var r := runs[i];
      FirstIsUnlisted(runs, cutoff, i);
      if Sound(r) && r.created.value < cutoff {
        outside := outside + 1;
      } else if !Sound(r) || r.id.value in seen {
        invalid := invalid + [r];
      } else {
        ListedSnoc(included, r);
        included, seen := included + [r], seen + {r.id.value};
      }
    }
    PartitionMeaning(runs, cutoff);
  }
}
