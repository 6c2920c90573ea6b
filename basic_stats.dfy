/**
 * The basic collector (techsubs/sr_scanner/basic_stats.py): subscriber and
 * active-account counts from a sub-Reddit's about page, both written at
 * the start of the current local clock hour.
 */
module BasicStats {
  import opened Common
  import opened DateTimes
  import opened Rfc3339
  import opened PyValues
  import opened Metrics
  import opened MetricDefines
  import opened ScannerCommon

  /** `_calc_basic_subreddit_stats`: `(int(about['subscribers']), int(about['accounts_active']))`. */
  function CalcBasicSubredditStats(about: map<string, Scalar>): (r: Result<(int, int)>)
    ensures r.Ok? <==> && "subscribers" in about && "accounts_active" in about
                       && PyInt(about["subscribers"]).Ok? && PyInt(about["accounts_active"]).Ok?
    ensures r.Ok? ==> r.value == (PyInt(about["subscribers"]).value, PyInt(about["accounts_active"]).value)
    ensures "subscribers" !in about ==> r == Err(MissingKey("subscribers"))
    ensures "subscribers" in about && PyInt(about["subscribers"]).Err? ==> r == Err(PyInt(about["subscribers"]).error)
    ensures "subscribers" in about && PyInt(about["subscribers"]).Ok? && "accounts_active" !in about
            ==> r == Err(MissingKey("accounts_active"))
    ensures (&& "subscribers" in about && PyInt(about["subscribers"]).Ok? && "accounts_active" in about
             && PyInt(about["accounts_active"]).Err?) ==> r == Err(PyInt(about["accounts_active"]).error)
  {
    var subscribers :- GetItem(about, "subscribers");
    var subCount :- PyInt(subscribers);
    var active :- GetItem(about, "accounts_active");
    var accountsActive :- PyInt(active);
    Ok((subCount, accountsActive))
  }

  /**
   * The two writes of the basic collector, both at `at` with `{'subreddit': name}`:
   * subscribers first, and active accounts only once the first was accepted.
   */
  function SendBasicStats(name: string, subCount: int, accountsActive: int,
                          at: DateTime, dep: Deployment): (r: Run)
    requires Valid(at)
    ensures 1 <= |r.writes| <= 2
    ensures r.writes[0].metricType == "custom.googleapis.com/" + SUBREDDIT_SUBSCRIBERS.name
    ensures r.writes[0].value == subCount
    ensures r.writes[0].startTime == r.writes[0].endTime == FormatRfc3339(at)
    ensures r.writes[0].labels == map["environment" := if dep.isProduction then "prod" else "dev",
                                      "subreddit" := name]
    ensures |r.writes| == 2 <==> dep.accept(r.writes[0])
    ensures |r.writes| == 1 ==> r.outcome == Err(BackendRejected)
    ensures |r.writes| == 2 ==> && r.writes[1].metricType == "custom.googleapis.com/" + SUBREDDIT_ACCOUNTS_ACTIVE.name
                                && r.writes[1].value == accountsActive
                                && r.writes[1].startTime == r.writes[1].endTime == FormatRfc3339(at)
                                && r.writes[1].labels == r.writes[0].labels
                                && (r.outcome.Ok? <==> dep.accept(r.writes[1]))
  {
    var labels := SubredditLabels(name);
    SendDefinedGauge(SUBREDDIT_SUBSCRIBERS, subCount, name, at, dep);
    SendDefinedGauge(SUBREDDIT_ACCOUNTS_ACTIVE, accountsActive, name, at, dep);
    Then(SendGauge(SUBREDDIT_SUBSCRIBERS, subCount, labels, at, dep),
         SendGauge(SUBREDDIT_ACCOUNTS_ACTIVE, accountsActive, labels, at, dep))
  }

  /**
   * `calc_and_send_basic_subreddit_stats`: fetch the about page, extract the
   * two counts, then write them at the floor of the local clock `localNow`.
   * Nothing is written when the fetch or the extraction raises.
   */
  function CalcAndSendBasicSubredditStats(name: string, about: HttpResponse<map<string, Scalar>>,
                                          localNow: Instant, dep: Deployment): (r: Run)
    ensures SendGetRequest(about).Err? ==> r == Failed(SendGetRequest(about).error)
    ensures SendGetRequest(about).Ok? && CalcBasicSubredditStats(about.content).Err?
            ==> r == Failed(CalcBasicSubredditStats(about.content).error)
    ensures SendGetRequest(about).Ok? && CalcBasicSubredditStats(about.content).Ok? ==>
      r == SendBasicStats(name, CalcBasicSubredditStats(about.content).value.0,
                          CalcBasicSubredditStats(about.content).value.1,
                          DateTimeOf(localNow).(minute := 0, second := 0, microsecond := 0), dep)
  {
    match SendGetRequest(about)
    case Err(e) => Failed(e)
    case Ok(data) =>
      match CalcBasicSubredditStats(data)
      case Err(e) => Failed(e)
      case Ok((subCount, accountsActive)) =>
        HourFloorFields(localNow);
        SendBasicStats(name, subCount, accountsActive, DateTimeOf(HourFloor(localNow)), dep)
  }

  /**
   * Two runs in the same clock hour over the same about page attempt the
   * very same writes: the hour floor is the only idempotency key.
   */
  lemma BasicStatsSameHour(name: string, about: HttpResponse<map<string, Scalar>>,
                           now1: Instant, now2: Instant, dep: Deployment)
    requires now1 / MICROS_PER_HOUR == now2 / MICROS_PER_HOUR
    ensures CalcAndSendBasicSubredditStats(name, about, now1, dep)
         == CalcAndSendBasicSubredditStats(name, about, now2, dep)
  {
    HourFloorSameHour(now1, now2);
  }
}
