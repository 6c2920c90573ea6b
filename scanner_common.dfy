/**
 * What the sub-Reddit collectors share (techsubs/sr_scanner/common.py and
 * the older techsubs/sr_scanner/scanner.py): the status check on fetched
 * pages, the metric labels, truncation to the clock hour, and sending a
 * gauge point to a backend that may reject it.
 */
module ScannerCommon {
  import opened Common
  import opened DateTimes
  import opened Metrics
  import opened MetricDefines

  /** A fetched page: the status code and the decoded body. */
  datatype HttpResponse<T> = HttpResponse(statusCode: int, content: T)

  /** `_send_get_request` / `send_reddit_api_request`: an AssertionError unless the status is 200. */
  function SendGetRequest<T>(response: HttpResponse<T>): (r: Result<T>)
    ensures r.Ok? <==> response.statusCode == 200
    ensures r.Ok? ==> r.value == response.content
    ensures r.Err? ==> r.error == Assertion(Non200Status(response.statusCode))
  {
    if response.statusCode == 200 then Ok(response.content)
    else Err(Assertion(Non200Status(response.statusCode)))
  }

  /**
   * The newest-posts listing of a sub-Reddit, at most 100 posts: the
   * sub-Reddit's name sits between the site prefix and the listing path.
   */
  function NewPostsUrl(name: string): (url: string)
    ensures |url| == 25 + |name| + 20
    ensures url[..25] == "https://www.reddit.com/r/"
    ensures url[25..25 + |name|] == name
    ensures url[25 + |name|..] == "/new/.json?limit=100"
  {
    "https://www.reddit.com/r/" + name + "/new/.json?limit=100"
  }

  /** Different sub-Reddits are asked for at different URLs. */
  lemma NewPostsUrlInjective(a: string, b: string)
    requires NewPostsUrl(a) == NewPostsUrl(b)
    ensures a == b
  {
    var u := NewPostsUrl(a);
    assert |a| == |b|;
    assert a == u[25..25 + |a|] == b;
  }

  // ---------------------------------------------------------------------
  // Clock hours

  /** `replace(minute=0, second=0, microsecond=0)`. */
  function HourFloor(t: Instant): (r: Instant)
    ensures r <= t < r + MICROS_PER_HOUR
    ensures r % MICROS_PER_HOUR == 0
  {
    ReplaceSubHour(t, 0, 0, 0)
  }

  /** `replace(minute=59, second=59, microsecond=999999)`. */
  function HourCeil(t: Instant): (r: Instant)
    ensures r - MICROS_PER_HOUR < t <= r
    ensures r % MICROS_PER_HOUR == MICROS_PER_HOUR - 1
  {
    ReplaceSubHour(t, 59, 59, 999_999)
  }

  /** The floor keeps the calendar hour of `t` and zeroes everything below it. */
  lemma HourFloorFields(t: Instant)
    ensures DateTimeOf(HourFloor(t)) == DateTimeOf(t).(minute := 0, second := 0, microsecond := 0)
  {
    ReplaceSubHourFields(t, 0, 0, 0);
  }

  /** The ceiling keeps the calendar hour of `t` and is its last microsecond, 59:59.999999. */
  lemma HourCeilFields(t: Instant)
    ensures DateTimeOf(HourCeil(t)) == DateTimeOf(t).(minute := 59, second := 59, microsecond := 999_999)
  {
    ReplaceSubHourFields(t, 59, 59, 999_999);
  }

  /** Two instants get the same floor exactly when they lie in the same clock hour. */
  lemma HourFloorSameHour(a: Instant, b: Instant)
    ensures HourFloor(a) == HourFloor(b) <==> a / MICROS_PER_HOUR == b / MICROS_PER_HOUR
  {
  }

  // ---------------------------------------------------------------------
  // Sending points

  /** The deployment a collector runs in, and whether the backend accepts a given write. */
  datatype Deployment = Deployment(isProduction: bool, projectId: string, accept: TimeSeriesWrite -> bool)

  /** The writes a collector attempted, in order, and how it ended. */
  datatype Run = Run(writes: seq<TimeSeriesWrite>, outcome: Result<()>)

  /** A collector that raised before attempting any write. */
  function Failed(e: Error): Run {
    Run([], Err(e))
  }

  /** `write_gauge(value, labels=..., time_override=at)`, then the backend's verdict on the write. */
  function SendGauge(m: MetricDefinition, value: int, labels: map<string, string>,
                     at: DateTime, dep: Deployment): (r: Run)
    requires Valid(at)
    ensures |r.writes| <= 1
    ensures r.outcome.Ok? ==> |r.writes| == 1 && dep.accept(r.writes[0])
    ensures |r.writes| == 1 ==> WriteGauge(m, value, Some(labels), Some(at), at, dep.isProduction, dep.projectId)
                                == Ok(r.writes[0])
  {
    match WriteGauge(m, value, Some(labels), Some(at), at, dep.isProduction, dep.projectId)
    case Err(e) => Failed(e)
    case Ok(w) => Run([w], if dep.accept(w) then Ok(()) else Err(BackendRejected))
  }

  /** A write of one of the defined gauges with `{'subreddit': name}` is always formed. */
  lemma SendDefinedGauge(m: MetricDefinition, value: int, name: string, at: DateTime, dep: Deployment)
    requires m in DEFINED_METRICS && Valid(at)
    ensures var r := SendGauge(m, value, SubredditLabels(name), at, dep);
      && |r.writes| == 1
      && r.writes[0].metricType == "custom.googleapis.com/" + m.name
      && r.writes[0].value == value
      && r.writes[0].startTime == r.writes[0].endTime == Rfc3339.FormatRfc3339(at)
      && r.writes[0].labels == map["environment" := if dep.isProduction then "prod" else "dev",
                                   "subreddit" := name]
      && (r.outcome.Ok? <==> dep.accept(r.writes[0]))
      && (r.outcome.Err? ==> r.outcome.error == BackendRejected)
  {
    SubredditLabelsValidate(m, name);
    DefinedMetricsAreIntGauges(m, value, dep.projectId);
    var labels := MergeLabels(dep.isProduction, Some(SubredditLabels(name)));
    assert labels == map["environment" := if dep.isProduction then "prod" else "dev", "subreddit" := name];
  }

  /** Running `first`, then `second` only if `first` raised nothing; there is no rollback. */
  function Then(first: Run, second: Run): (r: Run)
    ensures first.outcome.Err? ==> r == first
    ensures first.outcome.Ok? ==> r.writes == first.writes + second.writes && r.outcome == second.outcome
  {
    if first.outcome.Err? then first else Run(first.writes + second.writes, second.outcome)
  }
}
