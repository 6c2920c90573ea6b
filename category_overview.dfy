/**
 * The category overview (techsubs/bucket_populator/category_overview.py):
 * three one-pass reducers over the points of a 24-hour gauge query, and
 * the overview document that gathers one record per sub-Reddit of a
 * category.
 */
module CategoryOverview {
  import opened Common
  import opened DateTimes
  import opened Rfc3339
  import opened Metrics
  import opened MetricDefines
  import opened Sorting
  import opened Subreddits

  // ---------------------------------------------------------------------
  // Peak: `_query_and_return_active_account_stats`

  /** The running peak, starting from 0 and raised by every larger value. */
  function Peak(ps: seq<Point>): int {
    if ps == [] then 0
    else
      var p := Peak(ps[..|ps| - 1]);
      if ps[|ps| - 1].value > p then ps[|ps| - 1].value else p
  }

  /** The peak is the maximum of 0 and every value. */
  lemma {:induction false} PeakIsMax(ps: seq<Point>)
    ensures Peak(ps) >= 0
    ensures forall i :: 0 <= i < |ps| ==> ps[i].value <= Peak(ps)
    ensures Peak(ps) == 0 || exists i :: 0 <= i < |ps| && ps[i].value == Peak(ps)
  {
    if ps != [] {
      var init := ps[..|ps| - 1];
      PeakIsMax(init);
      if Peak(ps) != 0 && Peak(ps) != ps[|ps| - 1].value {
        var i :| 0 <= i < |init| && init[i].value == Peak(init);
        assert ps[i].value == Peak(ps);
      }
    }
  }

  /** The peak does not depend on the order of the stream. */
  lemma PeakPermutation(a: seq<Point>, b: seq<Point>)
    requires multiset(a) == multiset(b)
    ensures Peak(a) == Peak(b)
  {
    PeakIsMax(a);
    PeakIsMax(b);
    PeakBelow(a, b, Peak(b));
    PeakBelow(b, a, Peak(a));
  }

  /** A bound of at least 0 on every value of `b` bounds the peak of any permutation `a` of `b`. */
  lemma PeakBelow(a: seq<Point>, b: seq<Point>, bound: int)
    requires multiset(a) == multiset(b)
    requires bound >= 0 && forall j :: 0 <= j < |b| ==> b[j].value <= bound
    ensures Peak(a) <= bound
  {
    PeakIsMax(a);
    if Peak(a) != 0 {
      var i :| 0 <= i < |a| && a[i].value == Peak(a);
      assert a[i] in multiset(b);
      var j :| 0 <= j < |b| && b[j] == a[i];
    }
  }

  /** `_query_and_return_active_account_stats` on a query result: the peak, or the query's exception. */
  function PeakOf(s: Stream): Result<int> {
    if s.failure.Some? then Err(s.failure.value) else Ok(Peak(s.points))
  }

  // ---------------------------------------------------------------------
  // Oldest and youngest: `_query_and_return_subscriber_stats`

  /** The position the loop keeps as `oldest_point`: replaced only by a strictly older point. */
  function OldestIndex(ps: seq<Point>): (o: nat)
    requires |ps| > 0
    ensures o < |ps|
  {
    if |ps| == 1 then 0
    else
      var j := OldestIndex(ps[..|ps| - 1]);
      if Before(ps[|ps| - 1].time, ps[j].time) then |ps| - 1 else j
  }

  /** The position the loop keeps as `youngest_point`: replaced only by a strictly younger point. */
  function YoungestIndex(ps: seq<Point>): (y: nat)
    requires |ps| > 0
    ensures y < |ps|
  {
    if |ps| == 1 then 0
    else
      var j := YoungestIndex(ps[..|ps| - 1]);
      if Before(ps[j].time, ps[|ps| - 1].time) then |ps| - 1 else j
  }

  /**
   * The oldest point is chosen by time, not position: no point is older,
   * and every earlier point is strictly younger, so among equally old
   * points the first one seen wins.
   */
  lemma {:induction false} OldestIndexIsFirstOldest(ps: seq<Point>)
    requires |ps| > 0
    ensures forall i :: 0 <= i < |ps| ==> !Before(ps[i].time, ps[OldestIndex(ps)].time)
    ensures forall i :: 0 <= i < OldestIndex(ps) ==> Before(ps[OldestIndex(ps)].time, ps[i].time)
  {
    if |ps| == 1 {
      BeforeIrreflexive(ps[0].time);
    } else {
      var n := |ps| - 1;
      var init := ps[..n];
      OldestIndexIsFirstOldest(init);
      var j := OldestIndex(init);
      var last := ps[n].time;
      if Before(last, ps[j].time) {
        forall i | 0 <= i < |ps|
          ensures !Before(ps[i].time, last)
        {
          if i == n {
            BeforeIrreflexive(last);
          } else if Before(ps[i].time, last) {
            BeforeTransitive(ps[i].time, last, ps[j].time);
            assert false;
          }
        }
        forall i | 0 <= i < n
          ensures Before(last, ps[i].time)
        {
          assert !Before(init[i].time, init[j].time);
          BeforeTotal(ps[i].time, ps[j].time);
          if Before(ps[j].time, ps[i].time) {
            BeforeTransitive(last, ps[j].time, ps[i].time);
          }
        }
      } else {
        assert forall i :: 0 <= i < n ==> ps[i] == init[i];
      }
    }
  }

  /** The mirror image for the youngest point. */
  lemma {:induction false} YoungestIndexIsFirstYoungest(ps: seq<Point>)
    requires |ps| > 0
    ensures forall i :: 0 <= i < |ps| ==> !Before(ps[YoungestIndex(ps)].time, ps[i].time)
    ensures forall i :: 0 <= i < YoungestIndex(ps) ==> Before(ps[i].time, ps[YoungestIndex(ps)].time)
  {
    if |ps| == 1 {
      BeforeIrreflexive(ps[0].time);
    } else {
      var n := |ps| - 1;
      var init := ps[..n];
      YoungestIndexIsFirstYoungest(init);
      var j := YoungestIndex(init);
      var last := ps[n].time;
      if Before(ps[j].time, last) {
        forall i | 0 <= i < |ps|
          ensures !Before(last, ps[i].time)
        {
          if i == n {
            BeforeIrreflexive(last);
          } else if Before(last, ps[i].time) {
            BeforeTransitive(ps[j].time, last, ps[i].time);
            assert false;
          }
        }
        forall i | 0 <= i < n
          ensures Before(ps[i].time, last)
        {
          assert !Before(init[j].time, init[i].time);
          BeforeTotal(ps[i].time, ps[j].time);
          if Before(ps[i].time, ps[j].time) {
            BeforeTransitive(ps[i].time, ps[j].time, last);
          }
        }
      } else {
        assert forall i :: 0 <= i < n ==> ps[i] == init[i];
      }
    }
  }

  datatype SubscriberStats = SubscriberStats(currentTotal: int, growth: int)

  /**
   * `_query_and_return_subscriber_stats` on a query result: the youngest
   * value and its growth over the oldest; the query's exception first; and
   * a TypeError on an empty stream, where `youngest_point` stays None.
   */
  function SubscriberStatsOf(s: Stream): (r: Result<SubscriberStats>)
    ensures r.Ok? <==> s.failure.None? && |s.points| > 0
    ensures s.failure.Some? ==> r == Err(s.failure.value)
    ensures s.failure.None? && s.points == [] ==> r == Err(NoneValue)
  {
    if s.failure.Some? then Err(s.failure.value)
    else if s.points == [] then Err(NoneValue)
    else
      var youngest := s.points[YoungestIndex(s.points)];
      var oldest := s.points[OldestIndex(s.points)];
      Ok(SubscriberStats(youngest.value, youngest.value - oldest.value))
  }

  /** A single point is both oldest and youngest: the growth is 0. */
  lemma SingletonGrowth(p: Point)
    ensures SubscriberStatsOf(Stream([p], None)) == Ok(SubscriberStats(p.value, 0))
  {
    assert [p][0] == p;
  }

  /**
   * When no two points share a time, the stats do not depend on the order
   * of the stream: the oldest and the youngest are found by time alone.
   */
  lemma SubscriberStatsPermutation(a: seq<Point>, b: seq<Point>)
    requires multiset(a) == multiset(b)
    requires forall i, j :: 0 <= i < j < |a| ==> a[i].time != a[j].time
    ensures SubscriberStatsOf(Stream(a, None)) == SubscriberStatsOf(Stream(b, None))
  {
    if a != [] {
      assert |b| > 0 by {
        assert |multiset(b)| == |multiset(a)|;
      }
      OldestIndexIsFirstOldest(a);
      OldestIndexIsFirstOldest(b);
      YoungestIndexIsFirstYoungest(a);
      YoungestIndexIsFirstYoungest(b);
      SamePoint(a, b, OldestIndex(a), OldestIndex(b), false);
      SamePoint(a, b, YoungestIndex(a), YoungestIndex(b), true);
    }
  }

  /**
   * The extreme point of `a` at `ia` and that of its permutation `b` at
   * `ib` (the oldest, or the youngest when `youngest`) are the same point
   * when the times of `a` are distinct.
   */
  lemma SamePoint(a: seq<Point>, b: seq<Point>, ia: nat, ib: nat, youngest: bool)
    requires multiset(a) == multiset(b)
    requires forall i, j :: 0 <= i < j < |a| ==> a[i].time != a[j].time
    requires ia < |a| && ib < |b|
    requires !youngest ==> forall i :: 0 <= i < |a| ==> !Before(a[i].time, a[ia].time)
    requires !youngest ==> forall i :: 0 <= i < |b| ==> !Before(b[i].time, b[ib].time)
    requires youngest ==> forall i :: 0 <= i < |a| ==> !Before(a[ia].time, a[i].time)
    requires youngest ==> forall i :: 0 <= i < |b| ==> !Before(b[ib].time, b[i].time)
    ensures a[ia] == b[ib]
  {
    assert a[ia] in multiset(b);
    var jb :| 0 <= jb < |b| && b[jb] == a[ia];
    assert b[ib] in multiset(a);
    var ja :| 0 <= ja < |a| && a[ja] == b[ib];
    BeforeTotal(a[ia].time, a[ja].time);
    assert a[ia].time == a[ja].time;
    assert ja == ia;
  }

  // ---------------------------------------------------------------------
  // Sum: `_query_and_return_post_stats`

  function Sum(ps: seq<Point>): int {
    if ps == [] then 0 else Sum(ps[..|ps| - 1]) + ps[|ps| - 1].value
  }

  lemma {:induction false} SumAppend(a: seq<Point>, b: seq<Point>)
    ensures Sum(a + b) == Sum(a) + Sum(b)
    decreases |b|
  {
    if b == [] {
      assert a + b == a;
    } else {
      assert (a + b)[..|a + b| - 1] == a + b[..|b| - 1];
      SumAppend(a, b[..|b| - 1]);
    }
  }

  /** The total does not depend on the order of the stream. */
  lemma {:induction false} SumPermutation(a: seq<Point>, b: seq<Point>)
    requires multiset(a) == multiset(b)
    ensures Sum(a) == Sum(b)
    decreases |a|
  {
    if a != [] {
      var n := |a| - 1;
      var x := a[n];
      assert a == a[..n] + [x];
      assert x in multiset(b) by {
        assert x in multiset(a);
      }
      var j :| 0 <= j < |b| && b[j] == x;
      var rest := b[..j] + b[j + 1..];
      assert b == b[..j] + [x] + b[j + 1..];
      assert multiset(a[..n]) == multiset(rest) by {
        assert multiset(a) == multiset(a[..n]) + multiset{x};
        assert multiset(b) == multiset(b[..j]) + multiset{x} + multiset(b[j + 1..]);
        assert multiset(rest) == multiset(b[..j]) + multiset(b[j + 1..]);
        assert multiset(a[..n]) == multiset(a) - multiset{x};
        assert multiset(rest) == multiset(b) - multiset{x};
      }
      SumPermutation(a[..n], rest);
      SumAppend(b[..j], [x]);
      SumAppend(b[..j] + [x], b[j + 1..]);
      SumAppend(b[..j], b[j + 1..]);
      assert [x][..0] == [];
    }
  }

  /** `_query_and_return_post_stats` on a query result: the total, or the query's exception. */
  function PostTotalOf(s: Stream): Result<int> {
    if s.failure.Some? then Err(s.failure.value) else Ok(Sum(s.points))
  }
  // ---------------------------------------------------------------------
  // Queries

  /**
   * The monitoring backend: the pages it returns to the listing of one
   * metric filtered to one sub-Reddit. Every listing ends: some page
   * carries no next token or fails.
   */
  type Backend = (MetricDefinition, string) -> seq<Page>

  ghost predicate Terminates(backend: Backend) {
    forall m, slug :: Ends(Outcomes(m, backend(m, slug)))
  }

  /** The listing request of one window query: page size 100, production points of `slug` only. */
  function WindowTemplate(m: MetricDefinition, slug: string, startTime: DateTime, endTime: DateTime,
                          projectId: string): ListRequest
    requires Valid(startTime) && Valid(endTime)
  {
    var vars := GetMetricVars(m, projectId);
    ListRequest(vars.projectResource, FilterString(vars.metricType, "prod", [("subreddit", slug)]), 100,
                FormatRfc3339(startTime), FormatRfc3339(endTime), None)
  }

  /** The requests one query issues: the template, with each page's token passed on to the next. */
  function QueryRequests(template: ListRequest, m: MetricDefinition, pages: seq<Page>): (qs: seq<ListRequest>)
    requires Ends(Outcomes(m, pages))
    ensures |qs| == PagesRequested(Outcomes(m, pages))
    ensures forall i :: 0 <= i < |qs| ==> qs[i] == RequestFor(template, pages, i)
  {
    seq(PagesRequested(Outcomes(m, pages)), i requires 0 <= i < PagesRequested(Outcomes(m, pages)) =>
      RequestFor(template, pages, i))
  }

  /** `query_gauge(start_time, end_time, metric_label_filters={"subreddit": slug})`, as the overview calls it. */
  method QueryWindow(m: MetricDefinition, startTime: DateTime, endTime: DateTime, slug: string,
                     pages: seq<Page>, projectId: string)
    returns (requests: seq<ListRequest>, results: Stream)
    requires Valid(startTime) && Valid(endTime)
    requires Ends(Outcomes(m, pages))
    ensures requests == QueryRequests(WindowTemplate(m, slug, startTime, endTime, projectId), m, pages)
    ensures results == StreamPages(Outcomes(m, pages))
  {
    requests, results := QueryGauge(m, startTime, endTime, "prod", [("subreddit", slug)], 100, projectId, pages);
  }

  /** The loop of `_query_and_return_active_account_stats`. */
  method PeakCount(ps: seq<Point>) returns (peakCount: int)
    ensures peakCount == Peak(ps)
  {
    peakCount := 0;
    var i := 0;
    while i < |ps|
      invariant 0 <= i <= |ps|
      invariant peakCount == Peak(ps[..i])
    {
      assert ps[..i + 1][..i] == ps[..i];
      var pval := ps[i].value;
      if pval > peakCount {
        peakCount := pval;
      }
      i := i + 1;
    }
    assert ps[..i] == ps;
  }

  /** The loop of `_query_and_return_subscriber_stats`: the points it keeps as oldest and youngest. */
  method OldestAndYoungest(ps: seq<Point>) returns (oldestPoint: Option<Point>, youngestPoint: Option<Point>)
    ensures oldestPoint.Some? <==> ps != []
    ensures youngestPoint.Some? <==> ps != []
    ensures ps != [] ==> oldestPoint.value == ps[OldestIndex(ps)] && youngestPoint.value == ps[YoungestIndex(ps)]
  {
    oldestPoint := None;
    youngestPoint := None;
    var i := 0;
    while i < |ps|
      invariant 0 <= i <= |ps|
      invariant i == 0 ==> oldestPoint.None? && youngestPoint.None?
      invariant i > 0 ==> oldestPoint == Some(ps[..i][OldestIndex(ps[..i])])
      invariant i > 0 ==> youngestPoint == Some(ps[..i][YoungestIndex(ps[..i])])
    {
      assert ps[..i + 1][..i] == ps[..i];
      var point := ps[i];
      if oldestPoint.None? || Before(point.time, oldestPoint.value.time) {
        oldestPoint := Some(point);
      }
      if youngestPoint.None? || Before(youngestPoint.value.time, point.time) {
        youngestPoint := Some(point);
      }
      i := i + 1;
    }
    assert ps[..i] == ps;
  }

  /** The loop of `_query_and_return_post_stats`. */
  method TotalNew(ps: seq<Point>) returns (totalNew: int)
    ensures totalNew == Sum(ps)
  {
    totalNew := 0;
    var i := 0;
    while i < |ps|
      invariant 0 <= i <= |ps|
      invariant totalNew == Sum(ps[..i])
    {
      assert ps[..i + 1][..i] == ps[..i];
      totalNew := totalNew + ps[i].value;
      i := i + 1;
    }
    assert ps[..i] == ps;
  }

  /** `_query_and_return_active_account_stats`: the peak of the 24-hour active-accounts points. */
  method QueryAndReturnActiveAccountStats(startTime: DateTime, endTime: DateTime, slug: string,
                                          pages: seq<Page>, projectId: string)
    returns (requests: seq<ListRequest>, r: Result<int>)
    requires Valid(startTime) && Valid(endTime)
    requires Ends(Outcomes(SUBREDDIT_ACCOUNTS_ACTIVE, pages))
    ensures requests == QueryRequests(WindowTemplate(SUBREDDIT_ACCOUNTS_ACTIVE, slug, startTime, endTime, projectId),
                                      SUBREDDIT_ACCOUNTS_ACTIVE, pages)
    ensures r == PeakOf(StreamPages(Outcomes(SUBREDDIT_ACCOUNTS_ACTIVE, pages)))
  {
    var results;
    requests, results := QueryWindow(SUBREDDIT_ACCOUNTS_ACTIVE, startTime, endTime, slug, pages, projectId);
    var peakCount := PeakCount(results.points);
    if results.failure.Some? {
      return requests, Err(results.failure.value);
    }
    r := Ok(peakCount);
  }

  /** The reduction of `_query_and_return_subscriber_stats` over a query result. */
  method SubscriberStatsFrom(results: Stream) returns (r: Result<SubscriberStats>)
    ensures r == SubscriberStatsOf(results)
  {
    var oldestPoint, youngestPoint := OldestAndYoungest(results.points);
    if results.failure.Some? {
      return Err(results.failure.value);
    }
    if youngestPoint.None? {
      return Err(NoneValue);
    }
    r := Ok(SubscriberStats(youngestPoint.value.value, youngestPoint.value.value - oldestPoint.value.value));
  }

  /** `_query_and_return_subscriber_stats`: the youngest value and its growth over the oldest. */
  method QueryAndReturnSubscriberStats(startTime: DateTime, endTime: DateTime, slug: string,
                                       pages: seq<Page>, projectId: string)
    returns (requests: seq<ListRequest>, r: Result<SubscriberStats>)
    requires Valid(startTime) && Valid(endTime)
    requires Ends(Outcomes(SUBREDDIT_SUBSCRIBERS, pages))
    ensures requests == QueryRequests(WindowTemplate(SUBREDDIT_SUBSCRIBERS, slug, startTime, endTime, projectId),
                                      SUBREDDIT_SUBSCRIBERS, pages)
    ensures r == SubscriberStatsOf(StreamPages(Outcomes(SUBREDDIT_SUBSCRIBERS, pages)))
  {
    var results;
    requests, results := QueryWindow(SUBREDDIT_SUBSCRIBERS, startTime, endTime, slug, pages, projectId);
    r := SubscriberStatsFrom(results);
  }

  /** `_query_and_return_post_stats`: the total of the 24-hour new-post points. */
  method QueryAndReturnPostStats(startTime: DateTime, endTime: DateTime, slug: string,
                                 pages: seq<Page>, projectId: string)
    returns (requests: seq<ListRequest>, r: Result<int>)
    requires Valid(startTime) && Valid(endTime)
    requires Ends(Outcomes(SUBREDDIT_NEW_POST_COUNT, pages))
    ensures requests == QueryRequests(WindowTemplate(SUBREDDIT_NEW_POST_COUNT, slug, startTime, endTime, projectId),
                                      SUBREDDIT_NEW_POST_COUNT, pages)
    ensures r == PostTotalOf(StreamPages(Outcomes(SUBREDDIT_NEW_POST_COUNT, pages)))
  {
    var results;
    requests, results := QueryWindow(SUBREDDIT_NEW_POST_COUNT, startTime, endTime, slug, pages, projectId);
    var totalNew := TotalNew(results.points);
    if results.failure.Some? {
      return requests, Err(results.failure.value);
    }
    r := Ok(totalNew);
  }
  // ---------------------------------------------------------------------
  // One record: `_query_and_return_subreddit_stats`

  /** A record of the overview document. */
  datatype Record = Record(subreddit: string, accountsActive: int, newSubscribers: int,
                           totalSubscribers: int, newPosts: int)

  /** What the backend yields to the window query of metric `m` for `slug`. */
  function Query(m: MetricDefinition, slug: string, backend: Backend): Stream
    requires Terminates(backend)
  {
    StreamPages(Outcomes(m, backend(m, slug)))
  }

  /**
   * The record from the three reductions, asked in order: the first that
   * failed is the record's error.
   */
  function Assemble(slug: string, subscribers: Result<SubscriberStats>, active: Result<int>, posts: Result<int>)
    : (r: Result<Record>)
    ensures r.Ok? <==> subscribers.Ok? && active.Ok? && posts.Ok?
    ensures r.Ok? ==> r.value == Record(slug, active.value, subscribers.value.growth,
                                        subscribers.value.currentTotal, posts.value)
    ensures subscribers.Err? ==> r == Err(subscribers.error)
    ensures subscribers.Ok? && active.Err? ==> r == Err(active.error)
    ensures subscribers.Ok? && active.Ok? && posts.Err? ==> r == Err(posts.error)
  {
    var subscriberStats :- subscribers;
    var peak :- active;
    var total :- posts;
    Ok(Record(slug, peak, subscriberStats.growth, subscriberStats.currentTotal, total))
  }

  /**
   * The record of one sub-Reddit, read at local time `now`: the 24-hour
   * window ending at `now` (OverflowError in the first day of year 1),
   * then subscriber, active-account and new-post stats, in that order.
   */
  function RecordOf(slug: string, now: Instant, backend: Backend): Result<Record>
    requires Terminates(backend)
  {
    if MinusHours(now, 24).Err? then Err(MinusHours(now, 24).error)
    else Assemble(slug, SubscriberStatsOf(Query(SUBREDDIT_SUBSCRIBERS, slug, backend)),
                  PeakOf(Query(SUBREDDIT_ACCOUNTS_ACTIVE, slug, backend)),
                  PostTotalOf(Query(SUBREDDIT_NEW_POST_COUNT, slug, backend)))
  }

  /** The three window templates of one record, in query order. */
  function WindowTemplates(slug: string, startTime: DateTime, endTime: DateTime, projectId: string): seq<ListRequest>
    requires Valid(startTime) && Valid(endTime)
  {
    [WindowTemplate(SUBREDDIT_SUBSCRIBERS, slug, startTime, endTime, projectId),
     WindowTemplate(SUBREDDIT_ACCOUNTS_ACTIVE, slug, startTime, endTime, projectId),
     WindowTemplate(SUBREDDIT_NEW_POST_COUNT, slug, startTime, endTime, projectId)]
  }

  /** The requests of the three queries, in order, up to the first whose reduction failed. */
  function Staged(subscriberQs: seq<ListRequest>, activeQs: seq<ListRequest>, postQs: seq<ListRequest>,
                  subscribers: Result<SubscriberStats>, active: Result<int>): seq<ListRequest>
  {
    if subscribers.Err? then subscriberQs
    else if active.Err? then subscriberQs + activeQs
    else subscriberQs + activeQs + postQs
  }

  /** Staging issues only requests of the three queries: those of query `k` are `templates[k]` with some page token. */
  lemma StagedShareTemplates(subscriberQs: seq<ListRequest>, activeQs: seq<ListRequest>, postQs: seq<ListRequest>,
                             subscribers: Result<SubscriberStats>, active: Result<int>, templates: seq<ListRequest>)
    requires |templates| == 3
    requires forall q :: q in subscriberQs ==> q.(pageToken := None) == templates[0]
    requires forall q :: q in activeQs ==> q.(pageToken := None) == templates[1]
    requires forall q :: q in postQs ==> q.(pageToken := None) == templates[2]
    ensures forall q :: q in Staged(subscriberQs, activeQs, postQs, subscribers, active) ==>
      q.(pageToken := None) in templates
  {
  }

  /** The listing requests one record issues, up to the first failure. */
  function RecordRequests(slug: string, now: Instant, backend: Backend, projectId: string): seq<ListRequest>
    requires Terminates(backend)
  {
    match MinusHours(now, 24)
    case Err(_) => []
    case Ok(start) =>
      var templates := WindowTemplates(slug, DateTimeOf(start), DateTimeOf(now), projectId);
      Staged(QueryRequests(templates[0], SUBREDDIT_SUBSCRIBERS, backend(SUBREDDIT_SUBSCRIBERS, slug)),
             QueryRequests(templates[1], SUBREDDIT_ACCOUNTS_ACTIVE, backend(SUBREDDIT_ACCOUNTS_ACTIVE, slug)),
             QueryRequests(templates[2], SUBREDDIT_NEW_POST_COUNT, backend(SUBREDDIT_NEW_POST_COUNT, slug)),
             SubscriberStatsOf(Query(SUBREDDIT_SUBSCRIBERS, slug, backend)),
             PeakOf(Query(SUBREDDIT_ACCOUNTS_ACTIVE, slug, backend)))
  }

  /** `_query_and_return_subreddit_stats(slug)`, with the clock reading `now`. */
  method QueryAndReturnSubredditStats(slug: string, now: Instant, backend: Backend, projectId: string)
    returns (requests: seq<ListRequest>, r: Result<Record>)
    requires Terminates(backend)
    ensures requests == RecordRequests(slug, now, backend, projectId)
    ensures r == RecordOf(slug, now, backend)
  {
    var start := MinusHours(now, 24);
    if start.Err? {
      return [], Err(start.error);
    }
    var endTime := DateTimeOf(now);
    var startTime := DateTimeOf(start.value);
    var subscriberQs, subscriberStats := QueryAndReturnSubscriberStats(
      startTime, endTime, slug, backend(SUBREDDIT_SUBSCRIBERS, slug), projectId);
    requests := subscriberQs;
    if subscriberStats.Err? {
      return requests, Err(subscriberStats.error);
    }
    var activeQs, activeAccountsStats := QueryAndReturnActiveAccountStats(
      startTime, endTime, slug, backend(SUBREDDIT_ACCOUNTS_ACTIVE, slug), projectId);
    requests := requests + activeQs;
    if activeAccountsStats.Err? {
      return requests, Err(activeAccountsStats.error);
    }
    var postQs, postStats := QueryAndReturnPostStats(
      startTime, endTime, slug, backend(SUBREDDIT_NEW_POST_COUNT, slug), projectId);
    requests := requests + postQs;
    if postStats.Err? {
      return requests, Err(postStats.error);
    }
    r := Ok(Record(slug, activeAccountsStats.value, subscriberStats.value.growth,
                   subscriberStats.value.currentTotal, postStats.value));
  }

  /** Before the first day of year 1 has passed, a record fails (OverflowError) without a request. */
  lemma RecordNeedsFullDay(slug: string, now: Instant, backend: Backend, projectId: string)
    requires Terminates(backend)
    ensures now < 24 * MICROS_PER_HOUR ==> RecordOf(slug, now, backend) == Err(DateOutOfRange)
    ensures now < 24 * MICROS_PER_HOUR ==> RecordRequests(slug, now, backend, projectId) == []
  {
  }

  /**
   * Every request of a record asks for the 24 hours ending at `now`, for
   * one of the three metrics, filtered to production points of `slug`.
   */
  lemma RecordWindow(slug: string, now: Instant, backend: Backend, projectId: string)
    requires Terminates(backend)
    ensures now >= 24 * MICROS_PER_HOUR ==>
      forall q :: q in RecordRequests(slug, now, backend, projectId) ==>
        q.(pageToken := None) in WindowTemplates(slug, DateTimeOf(now - 24 * MICROS_PER_HOUR), DateTimeOf(now), projectId)
  {
    if now >= 24 * MICROS_PER_HOUR {
      var endTime := DateTimeOf(now);
      var startTime := DateTimeOf(now - 24 * MICROS_PER_HOUR);
      var templates := WindowTemplates(slug, startTime, endTime, projectId);
      WindowTemplatesUnpaged(slug, startTime, endTime, projectId);
      QueryRequestsShareTemplate(templates[0], SUBREDDIT_SUBSCRIBERS, backend(SUBREDDIT_SUBSCRIBERS, slug));
      QueryRequestsShareTemplate(templates[1], SUBREDDIT_ACCOUNTS_ACTIVE, backend(SUBREDDIT_ACCOUNTS_ACTIVE, slug));
      QueryRequestsShareTemplate(templates[2], SUBREDDIT_NEW_POST_COUNT, backend(SUBREDDIT_NEW_POST_COUNT, slug));
      StagedShareTemplates(
        QueryRequests(templates[0], SUBREDDIT_SUBSCRIBERS, backend(SUBREDDIT_SUBSCRIBERS, slug)),
        QueryRequests(templates[1], SUBREDDIT_ACCOUNTS_ACTIVE, backend(SUBREDDIT_ACCOUNTS_ACTIVE, slug)),
        QueryRequests(templates[2], SUBREDDIT_NEW_POST_COUNT, backend(SUBREDDIT_NEW_POST_COUNT, slug)),
        SubscriberStatsOf(Query(SUBREDDIT_SUBSCRIBERS, slug, backend)),
        PeakOf(Query(SUBREDDIT_ACCOUNTS_ACTIVE, slug, backend)), templates);
    }
  }

  /** Every request of one query is its template with some page token. */
  lemma QueryRequestsShareTemplate(template: ListRequest, m: MetricDefinition, pages: seq<Page>)
    requires Ends(Outcomes(m, pages))
    requires template.pageToken.None?
    ensures forall q :: q in QueryRequests(template, m, pages) ==> q.(pageToken := None) == template
  {
  }

  lemma WindowTemplatesUnpaged(slug: string, startTime: DateTime, endTime: DateTime, projectId: string)
    requires Valid(startTime) && Valid(endTime)
    ensures forall k :: 0 <= k < 3 ==> WindowTemplates(slug, startTime, endTime, projectId)[k].pageToken.None?
  {
  }

  /**
   * A record names its sub-Reddit and carries the three reductions: the
   * peak active accounts (at least 0 and every point), the youngest
   * subscriber count and its growth over the oldest, and the new-post total.
   */
  lemma RecordFields(slug: string, now: Instant, backend: Backend)
    requires Terminates(backend) && RecordOf(slug, now, backend).Ok?
    ensures var r := RecordOf(slug, now, backend).value;
      var subscribers := Query(SUBREDDIT_SUBSCRIBERS, slug, backend).points;
      var active := Query(SUBREDDIT_ACCOUNTS_ACTIVE, slug, backend).points;
      && r.subreddit == slug
      && |subscribers| > 0
      && r.totalSubscribers == subscribers[YoungestIndex(subscribers)].value
      && r.newSubscribers == r.totalSubscribers - subscribers[OldestIndex(subscribers)].value
      && r.accountsActive >= 0
      && (forall i :: 0 <= i < |active| ==> active[i].value <= r.accountsActive)
      && r.newPosts == Sum(Query(SUBREDDIT_NEW_POST_COUNT, slug, backend).points)
  {
    PeakIsMax(Query(SUBREDDIT_ACCOUNTS_ACTIVE, slug, backend).points);
  }

  // ---------------------------------------------------------------------
  // The overview: `_generate_json`

  /** The overview document, before JSON encoding. */
  datatype Overview = Overview(generatedTime: string, records: seq<Record>,
                               queryRecordCount: nat, totalRecordCount: nat)

  /** Results gathered in order until the first failure, which is the whole result's. */
  function Gather<T>(rs: seq<Result<T>>): Result<seq<T>> {
    if rs == [] then Ok([])
    else
      var init :- Gather(rs[..|rs| - 1]);
      var x :- rs[|rs| - 1];
      Ok(init + [x])
  }

  /** The requests of the steps `Gather` runs: step `i` issues `qs[i]`, and the first failing step is the last. */
  function GatherRequests<T>(rs: seq<Result<T>>, qs: seq<seq<ListRequest>>): seq<ListRequest>
    requires |qs| == |rs|
  {
    if rs == [] then []
    else
      var n := |rs| - 1;
      var init := GatherRequests(rs[..n], qs[..n]);
      if Gather(rs[..n]).Err? then init else init + qs[n]
  }

  /** `Gather` succeeds exactly when every step does, and then yields every step's value in order. */
  lemma {:induction false} GatherOk<T>(rs: seq<Result<T>>)
    ensures Gather(rs).Ok? <==> forall i :: 0 <= i < |rs| ==> rs[i].Ok?
    ensures Gather(rs).Ok? ==>
      |Gather(rs).value| == |rs| && forall i :: 0 <= i < |rs| ==> Gather(rs).value[i] == rs[i].value
  {
    if rs != [] {
      var n := |rs| - 1;
      GatherOk(rs[..n]);
      assert forall i :: 0 <= i < n ==> rs[..n][i] == rs[i];
    }
  }

  /**
   * One more step: after successful steps `0..i`, step `i` decides; its
   * failure is final (the whole result and every request are fixed).
   */
  lemma GatherStep<T>(rs: seq<Result<T>>, qs: seq<seq<ListRequest>>, i: nat)
    requires |qs| == |rs| && i < |rs|
    ensures Gather(rs[..i + 1]) == (if Gather(rs[..i]).Err? then Gather(rs[..i])
                                     else if rs[i].Err? then Err(rs[i].error)
                                     else Ok(Gather(rs[..i]).value + [rs[i].value]))
    ensures GatherRequests(rs[..i + 1], qs[..i + 1])
         == (if Gather(rs[..i]).Err? then GatherRequests(rs[..i], qs[..i])
             else GatherRequests(rs[..i], qs[..i]) + qs[i])
  {
    assert rs[..i + 1][..i] == rs[..i];
    assert qs[..i + 1][..i] == qs[..i];
  }

  lemma {:induction false} GatherFailureFinal<T>(rs: seq<Result<T>>, qs: seq<seq<ListRequest>>, i: nat)
    requires |qs| == |rs| && i <= |rs|
    requires Gather(rs[..i]).Err?
    ensures Gather(rs) == Gather(rs[..i])
    ensures GatherRequests(rs, qs) == GatherRequests(rs[..i], qs[..i])
    decreases |rs| - i
  {
    if i == |rs| {
      assert rs[..i] == rs && qs[..i] == qs;
    } else {
      GatherStep(rs, qs, i);
      GatherFailureFinal(rs, qs, i + 1);
    }
  }

  /** Record `i` of `members`: its sub-Reddit, with the clock reading `clock(i)`. */
  function RecordResults(members: seq<Entry>, clock: nat -> Instant, backend: Backend)
    : (rs: seq<Result<Record>>)
    requires Terminates(backend)
    ensures |rs| == |members|
    ensures forall i :: 0 <= i < |members| ==> rs[i] == RecordOf(members[i].slug, clock(i), backend)
  {
    seq(|members|, i requires 0 <= i < |members| => RecordOf(members[i].slug, clock(i), backend))
  }

  /** The requests record `i` of `members` issues on its own. */
  function RecordRequestLists(members: seq<Entry>, clock: nat -> Instant, backend: Backend, projectId: string)
    : (qs: seq<seq<ListRequest>>)
    requires Terminates(backend)
    ensures |qs| == |members|
    ensures forall i :: 0 <= i < |members| ==> qs[i] == RecordRequests(members[i].slug, clock(i), backend, projectId)
  {
    seq(|members|, i requires 0 <= i < |members| => RecordRequests(members[i].slug, clock(i), backend, projectId))
  }

  /** The records of `members`, in order, up to the first failure. */
  function RecordsOf(members: seq<Entry>, clock: nat -> Instant, backend: Backend)
    : Result<seq<Record>>
    requires Terminates(backend)
  {
    Gather(RecordResults(members, clock, backend))
  }

  /** The requests the records of `members` issue, up to the first failure. */
  function RecordsRequests(members: seq<Entry>, clock: nat -> Instant, backend: Backend, projectId: string)
    : seq<ListRequest>
    requires Terminates(backend)
  {
    GatherRequests(RecordResults(members, clock, backend),
                    RecordRequestLists(members, clock, backend, projectId))
  }

  /**
   * `_generate_json(category)` before encoding: NotFoundError for an
   * unknown category; otherwise the generation time, one record per member
   * in catalog order, and both counts equal to the number of members.
   */
  function OverviewOf(category: string, catalog: CatalogState, generatedNow: Instant, clock: nat -> Instant,
                      backend: Backend): Result<Overview>
    requires forall k :: k in catalog.order ==> k in catalog.entries
    requires Terminates(backend)
  {
    if !IsValidSubredditCategory(category) then Err(NotFound)
    else
      var members := SubredditsInCategory(catalog, category);
      var records :- RecordsOf(members, clock, backend);
      Ok(Overview(IsoFormat(DateTimeOf(generatedNow)), records, |members|, |members|))
  }

  function OverviewRequests(category: string, catalog: CatalogState, clock: nat -> Instant,
                            backend: Backend, projectId: string): seq<ListRequest>
    requires forall k :: k in catalog.order ==> k in catalog.entries
    requires Terminates(backend)
  {
    if !IsValidSubredditCategory(category) then []
    else RecordsRequests(SubredditsInCategory(catalog, category), clock, backend, projectId)
  }

  /** The records loop of `_generate_json`: one record per member, in order, stopping at the first failure. */
  method GatherRecords(members: seq<Entry>, clock: nat -> Instant, backend: Backend, projectId: string)
    returns (requests: seq<ListRequest>, r: Result<seq<Record>>)
    requires Terminates(backend)
    ensures r == RecordsOf(members, clock, backend)
    ensures requests == RecordsRequests(members, clock, backend, projectId)
  {
    ghost var rs := RecordResults(members, clock, backend);
    ghost var qs := RecordRequestLists(members, clock, backend, projectId);
    var records: seq<Record> := [];
    requests := [];
    var i := 0;
    while i < |members|
      invariant 0 <= i <= |members|
      invariant Gather(rs[..i]) == Ok(records)
      invariant requests == GatherRequests(rs[..i], qs[..i])
    {
      var recordQs, record := QueryAndReturnSubredditStats(members[i].slug, clock(i), backend, projectId);
      GatherStep(rs, qs, i);
      requests := requests + recordQs;
      if record.Err? {
        GatherFailureFinal(rs, qs, i + 1);
        return requests, Err(record.error);
      }
      records := records + [record.value];
      i := i + 1;
    }
    assert rs[..i] == rs && qs[..i] == qs;
    r := Ok(records);
  }

  /** `_generate_json`: validate, stamp the generation time, then gather one record per member of the category. */
  method GenerateJson(category: string, catalog: CatalogState, generatedNow: Instant, clock: nat -> Instant,
                      backend: Backend, projectId: string)
    returns (requests: seq<ListRequest>, r: Result<Overview>)
    requires forall k :: k in catalog.order ==> k in catalog.entries
    requires Terminates(backend)
    ensures !IsValidSubredditCategory(category) ==> r == Err(NotFound) && requests == []
    ensures r == OverviewOf(category, catalog, generatedNow, clock, backend)
    ensures requests == OverviewRequests(category, catalog, clock, backend, projectId)
  {
    if !IsValidSubredditCategory(category) {
      return [], Err(NotFound);
    }
    var catSubreddits := SubredditsInCategory(catalog, category);
    var generatedTime := IsoFormat(DateTimeOf(generatedNow));
    var records;
    requests, records := GatherRecords(catSubreddits, clock, backend, projectId);
    if records.Err? {
      return requests, Err(records.error);
    }
    r := Ok(Overview(generatedTime, records.value, |catSubreddits|, |catSubreddits|));
  }

  /** A successful overview has one record per member, in member order. */
  lemma RecordsShape(members: seq<Entry>, clock: nat -> Instant, backend: Backend)
    requires Terminates(backend) && RecordsOf(members, clock, backend).Ok?
    ensures var records := RecordsOf(members, clock, backend).value;
      |records| == |members| && forall i :: 0 <= i < |members| ==> records[i].subreddit == members[i].slug
  {
    GatherOk(RecordResults(members, clock, backend));
    forall i | 0 <= i < |members| {
      RecordFields(members[i].slug, clock(i), backend);
    }
  }

  lemma OverviewShape(category: string, catalog: CatalogState, generatedNow: Instant, clock: nat -> Instant,
                      backend: Backend)
    requires forall k :: k in catalog.order ==> k in catalog.entries
    requires Terminates(backend)
    requires OverviewOf(category, catalog, generatedNow, clock, backend).Ok?
    ensures var o := OverviewOf(category, catalog, generatedNow, clock, backend).value;
      var members := SubredditsInCategory(catalog, category);
      && IsValidSubredditCategory(category)
      && o.queryRecordCount == o.totalRecordCount == |o.records| == |members|
      && (forall i :: 0 <= i < |members| ==> o.records[i].subreddit == members[i].slug)
      && o.generatedTime == IsoFormat(DateTimeOf(generatedNow))
  {
    RecordsShape(SubredditsInCategory(catalog, category), clock, backend);
  }

  /** The record's sort key: its sub-Reddit, lower-cased. */
  function RecordKey(r: Record): string {
    Lower(r.subreddit)
  }

  /**
   * Over the module's catalog, the records of a category's overview are
   * ordered by lower-cased sub-Reddit name, as the catalog is.
   */
  lemma CatalogOverviewSorted(category: string, generatedNow: Instant, clock: nat -> Instant, backend: Backend)
    requires Terminates(backend)
    ensures forall k :: k in CatalogContents().order ==> k in CatalogContents().entries
    ensures OverviewOf(category, CatalogContents(), generatedNow, clock, backend).Ok? ==>
      SortedBy(OverviewOf(category, CatalogContents(), generatedNow, clock, backend).value.records, RecordKey)
  {
    SubredditsInCategorySorted(category);
    if OverviewOf(category, CatalogContents(), generatedNow, clock, backend).Ok? {
      OverviewShape(category, CatalogContents(), generatedNow, clock, backend);
    }
  }
}
