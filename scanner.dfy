/**
 * A full scan of one sub-Reddit (techsubs/sr_scanner/scanner.py): the basic
 * collector, then the post collector. The collectors in that file are the
 * same code as in basic_stats.py and post_stats.py and are modelled once,
 * by `BasicStats` and `PostStats`.
 */
module Scanner {
  import opened Common
  import opened DateTimes
  import opened PyValues
  import opened Metrics
  import opened MetricDefines
  import opened ScannerCommon
  import opened BasicStats
  import opened PostStats

  /** `full_subreddit_scan`: basic stats, then post stats; an exception in the first skips the second. */
  method FullSubredditScan(name: string, about: HttpResponse<map<string, Scalar>>, localNow: Instant,
                           utcNow: Instant, listing: HttpResponse<seq<Post>>, dep: Deployment)
    returns (r: Run)
    ensures r == Then(CalcAndSendBasicSubredditStats(name, about, localNow, dep),
                      PostStatsRun(name, utcNow, listing, dep))
  {
    r := CalcAndSendBasicSubredditStats(name, about, localNow, dep);
    if r.outcome.Ok? {
      var posts := CalcAndSendSubredditPostStats(name, utcNow, listing, dep);
      r := Run(r.writes + posts.writes, posts.outcome);
    }
  }

  /**
   * When every fetch succeeds and the backend accepts every write, a scan
   * writes subscribers, active accounts and new posts, in that order, all
   * labelled with the sub-Reddit.
   */
  lemma FullScanWriteOrder(name: string, about: HttpResponse<map<string, Scalar>>, localNow: Instant,
                           utcNow: Instant, listing: HttpResponse<seq<Post>>, dep: Deployment)
    requires about.statusCode == 200 && CalcBasicSubredditStats(about.content).Ok?
    requires listing.statusCode == 200 && utcNow >= MICROS_PER_HOUR
    requires forall w :: dep.accept(w)
    ensures var r := Then(CalcAndSendBasicSubredditStats(name, about, localNow, dep),
                          PostStatsRun(name, utcNow, listing, dep));
      && |r.writes| == 3 && r.outcome.Ok?
      && r.writes[0].metricType == "custom.googleapis.com/" + SUBREDDIT_SUBSCRIBERS.name
      && r.writes[1].metricType == "custom.googleapis.com/" + SUBREDDIT_ACCOUNTS_ACTIVE.name
      && r.writes[2].metricType == "custom.googleapis.com/" + SUBREDDIT_NEW_POST_COUNT.name
      && forall i :: 0 <= i < 3 ==> "subreddit" in r.writes[i].labels && r.writes[i].labels["subreddit"] == name
  {
    BasicScanWrites(name, about, localNow, dep);
    PostStatsRunWrites(name, utcNow, listing, dep);
    ScanWritesConcat(CalcAndSendBasicSubredditStats(name, about, localNow, dep),
                     PostStatsRun(name, utcNow, listing, dep), name, dep);
  }

  /** The writes of the two collectors, concatenated when the first succeeded. */
  lemma ScanWritesConcat(basic: Run, posts: Run, name: string, dep: Deployment)
    requires |basic.writes| == 2 && basic.outcome.Ok?
    requires basic.writes[0].metricType == "custom.googleapis.com/" + SUBREDDIT_SUBSCRIBERS.name
    requires basic.writes[1].metricType == "custom.googleapis.com/" + SUBREDDIT_ACCOUNTS_ACTIVE.name
    requires basic.writes[0].labels == basic.writes[1].labels
             == map["environment" := if dep.isProduction then "prod" else "dev", "subreddit" := name]
    requires |posts.writes| == 1 && posts.outcome.Ok?
    requires posts.writes[0].metricType == "custom.googleapis.com/" + SUBREDDIT_NEW_POST_COUNT.name
    requires posts.writes[0].labels == map["environment" := if dep.isProduction then "prod" else "dev",
                                          "subreddit" := name]
    ensures var r := Then(basic, posts);
      && |r.writes| == 3 && r.outcome.Ok?
      && r.writes[0].metricType == "custom.googleapis.com/" + SUBREDDIT_SUBSCRIBERS.name
      && r.writes[1].metricType == "custom.googleapis.com/" + SUBREDDIT_ACCOUNTS_ACTIVE.name
      && r.writes[2].metricType == "custom.googleapis.com/" + SUBREDDIT_NEW_POST_COUNT.name
      && forall i :: 0 <= i < 3 ==> "subreddit" in r.writes[i].labels && r.writes[i].labels["subreddit"] == name
  {
    var writes := Then(basic, posts).writes;
    assert writes == basic.writes + posts.writes;
    assert writes[2] == posts.writes[0];
  }

  /** With the about page read and both writes accepted, the basic collector writes subscribers, then active accounts. */
  lemma BasicScanWrites(name: string, about: HttpResponse<map<string, Scalar>>, localNow: Instant, dep: Deployment)
    requires about.statusCode == 200 && CalcBasicSubredditStats(about.content).Ok?
    requires forall w :: dep.accept(w)
    ensures var r := CalcAndSendBasicSubredditStats(name, about, localNow, dep);
      && |r.writes| == 2 && r.outcome.Ok?
      && r.writes[0].metricType == "custom.googleapis.com/" + SUBREDDIT_SUBSCRIBERS.name
      && r.writes[1].metricType == "custom.googleapis.com/" + SUBREDDIT_ACCOUNTS_ACTIVE.name
      && r.writes[0].labels == r.writes[1].labels
         == map["environment" := if dep.isProduction then "prod" else "dev", "subreddit" := name]
  {
    var counts := CalcBasicSubredditStats(about.content).value;
    assert CalcAndSendBasicSubredditStats(name, about, localNow, dep)
        == SendBasicStats(name, counts.0, counts.1,
                          DateTimeOf(localNow).(minute := 0, second := 0, microsecond := 0), dep);
  }

  /**
   * Rerunning a scan within the same local and UTC clock hours, over the
   * same pages, attempts exactly the same writes at the same instants.
   */
  lemma FullScanRerunSameHour(name: string, about: HttpResponse<map<string, Scalar>>,
                              local1: Instant, local2: Instant, utc1: Instant, utc2: Instant,
                              listing: HttpResponse<seq<Post>>, dep: Deployment)
    requires local1 / MICROS_PER_HOUR == local2 / MICROS_PER_HOUR
    requires utc1 / MICROS_PER_HOUR == utc2 / MICROS_PER_HOUR
    ensures Then(CalcAndSendBasicSubredditStats(name, about, local1, dep), PostStatsRun(name, utc1, listing, dep))
         == Then(CalcAndSendBasicSubredditStats(name, about, local2, dep), PostStatsRun(name, utc2, listing, dep))
  {
    BasicStatsSameHour(name, about, local1, local2, dep);
    PostStatsSameHour(name, utc1, utc2, listing, dep);
  }
}
