/**
 * The post collector (techsubs/sr_scanner/post_stats.py): the number of
 * posts created during the UTC clock hour before the current one, written
 * at the start of that hour.
 */
module PostStats {
  import opened Common
  import opened DateTimes
  import opened Rfc3339
  import opened Metrics
  import opened MetricDefines
  import opened ScannerCommon

  /** A listed post, by its creation instant (`created_utc`). */
  datatype Post = Post(createdUtc: Instant)

  /**
   * The window of `calc_and_send_subreddit_post_stats`: one hour before
   * `utcNow`, truncated down to :00:00.000000 and up to :59:59.999999.
   * OverflowError when `utcNow` lies in the first hour of year 1.
   */
  function PostWindow(utcNow: Instant): (r: Result<(Instant, Instant)>)
    ensures r.Ok? <==> utcNow >= MICROS_PER_HOUR
    ensures r.Err? ==> r.error == DateOutOfRange
    ensures r.Ok? ==> && r.value.0 <= r.value.1
                      && r.value.1 - r.value.0 == MICROS_PER_HOUR - 1
                      && r.value.0 % MICROS_PER_HOUR == 0
                      && r.value.0 / MICROS_PER_HOUR == utcNow / MICROS_PER_HOUR - 1
                      && r.value.1 < HourFloor(utcNow)
  {
    var prevHour :- MinusHours(utcNow, 1);
    Ok((HourFloor(prevHour), HourCeil(prevHour)))
  }

  /** The window's bounds, as datetimes: the previous clock hour, from its first to its last microsecond. */
  lemma PostWindowFields(utcNow: Instant)
    requires utcNow >= MICROS_PER_HOUR
    ensures DateTimeOf(PostWindow(utcNow).value.0)
         == DateTimeOf(utcNow - MICROS_PER_HOUR).(minute := 0, second := 0, microsecond := 0)
    ensures DateTimeOf(PostWindow(utcNow).value.1)
         == DateTimeOf(utcNow - MICROS_PER_HOUR).(minute := 59, second := 59, microsecond := 999_999)
  {
    var prev: Instant := utcNow - MICROS_PER_HOUR;
    assert PostWindow(utcNow) == Ok((HourFloor(prev), HourCeil(prev)));
    HourFloorFields(prev);
    HourCeilFields(prev);
  }

  /** `start_time <= post_time <= end_time`, inclusive at both ends. */
  predicate InWindow(p: Post, lo: Instant, hi: Instant) {
    lo <= p.createdUtc <= hi
  }

  /** The number of posts whose creation lies in the window. */
  function CountInWindow(posts: seq<Post>, lo: Instant, hi: Instant): (n: nat)
    ensures n <= |posts|
  {
    if posts == [] then 0
    else CountInWindow(posts[..|posts| - 1], lo, hi) + (if InWindow(posts[|posts| - 1], lo, hi) then 1 else 0)
  }

  /** The count is the number of listing positions whose post falls in the window. */
  lemma {:induction false} CountInWindowIsIndexCount(posts: seq<Post>, lo: Instant, hi: Instant)
    ensures CountInWindow(posts, lo, hi) == |set i | 0 <= i < |posts| && InWindow(posts[i], lo, hi)|
  {
    if posts != [] {
      var n := |posts| - 1;
      var prefix := posts[..n];
      CountInWindowIsIndexCount(prefix, lo, hi);
      var before := set i | 0 <= i < n && InWindow(prefix[i], lo, hi);
      var all := set i | 0 <= i < |posts| && InWindow(posts[i], lo, hi);
      if InWindow(posts[n], lo, hi) {
        assert all == before + {n};
      } else {
        assert all == before;
      }
    }
  }

  /** Counting one post more or less. */
  lemma {:induction false} CountInWindowAppend(a: seq<Post>, b: seq<Post>, lo: Instant, hi: Instant)
    ensures CountInWindow(a + b, lo, hi) == CountInWindow(a, lo, hi) + CountInWindow(b, lo, hi)
    decreases |b|
  {
    if b == [] {
      assert a + b == a;
    } else {
      assert (a + b)[..|a + b| - 1] == a + b[..|b| - 1];
      CountInWindowAppend(a, b[..|b| - 1], lo, hi);
    }
  }

  /** The order of the listing does not matter: any permutation gives the same count. */
  lemma {:induction false} CountInWindowPermutation(a: seq<Post>, b: seq<Post>, lo: Instant, hi: Instant)
    requires multiset(a) == multiset(b)
    ensures CountInWindow(a, lo, hi) == CountInWindow(b, lo, hi)
    decreases |a|
  {
    if a != [] {
      var n := |a| - 1;
      var x := a[n];
      assert x in multiset(b) by {
        assert a == a[..n] + [x];
        assert x in multiset(a);
      }
      var j :| 0 <= j < |b| && b[j] == x;
      var rest := b[..j] + b[j + 1..];
      assert b == b[..j] + [x] + b[j + 1..];
      assert a == a[..n] + [x];
      assert multiset(a[..n]) == multiset(rest) by {
        assert multiset(a) == multiset(a[..n]) + multiset{x};
        assert multiset(b) == multiset(b[..j]) + multiset{x} + multiset(b[j + 1..]);
        assert multiset(rest) == multiset(b[..j]) + multiset(b[j + 1..]);
        assert multiset(a[..n]) == multiset(a) - multiset{x};
        assert multiset(rest) == multiset(b) - multiset{x};
      }
      CountInWindowPermutation(a[..n], rest, lo, hi);
      CountInWindowAppend(b[..j], [x], lo, hi);
      CountInWindowAppend(b[..j] + [x], b[j + 1..], lo, hi);
      CountInWindowAppend(b[..j], b[j + 1..], lo, hi);
      assert [x][..0] == [];
    }
  }

  /** Posts exactly at either bound are counted; a post a microsecond outside is not. */
  lemma CountInWindowInclusive(lo: Instant, hi: Instant)
    requires 0 < lo <= hi < MAX_INSTANT - 1
    ensures CountInWindow([Post(lo), Post(hi)], lo, hi) == 2
    ensures CountInWindow([Post(lo - 1), Post(hi + 1)], lo, hi) == 0
  {
    assert [Post(lo), Post(hi)][..1] == [Post(lo)];
    assert [Post(lo - 1), Post(hi + 1)][..1] == [Post(lo - 1)];
  }

  /**
   * `_calc_subreddit_post_stats`: fetch the newest posts of `name` (the
   * request's URL is returned, `listing` is its response), then count those
   * in the window.
   */
  method CalcSubredditPostStats(name: string, listing: HttpResponse<seq<Post>>, startTime: Instant, endTime: Instant)
    returns (url: string, r: Result<nat>)
    ensures url == NewPostsUrl(name)
    ensures SendGetRequest(listing).Err? ==> r == Err(SendGetRequest(listing).error)
    ensures SendGetRequest(listing).Ok? ==> r == Ok(CountInWindow(listing.content, startTime, endTime))
  {
    url := NewPostsUrl(name);
    var fetched := SendGetRequest(listing);
    if fetched.Err? {
      return url, Err(fetched.error);
    }
    var posts := fetched.value;
    var counter := 0;
    var i := 0;
    while i < |posts|
      invariant 0 <= i <= |posts|
      invariant counter == CountInWindow(posts[..i], startTime, endTime)
    {
      assert posts[..i + 1][..i] == posts[..i];
      if startTime <= posts[i].createdUtc <= endTime {
        counter := counter + 1;
      }
      i := i + 1;
    }
    assert posts[..i] == posts;
    r := Ok(counter);
  }

  /** What one post-collector run does, as a function of the clock, the listing and the backend. */
  function PostStatsRun(name: string, utcNow: Instant, listing: HttpResponse<seq<Post>>,
                        dep: Deployment): Run
  {
    match PostWindow(utcNow)
    case Err(e) => Failed(e)
    case Ok((hourFloor, hourCeil)) =>
      match SendGetRequest(listing)
      case Err(e) => Failed(e)
      case Ok(posts) =>
        SendGauge(SUBREDDIT_NEW_POST_COUNT, CountInWindow(posts, hourFloor, hourCeil),
                  SubredditLabels(name), DateTimeOf(hourFloor), dep)
  }

  /** `calc_and_send_subreddit_post_stats`. */
  method CalcAndSendSubredditPostStats(name: string, utcNow: Instant, listing: HttpResponse<seq<Post>>,
                                       dep: Deployment) returns (r: Run)
    ensures r == PostStatsRun(name, utcNow, listing, dep)
  {
    var window := PostWindow(utcNow);
    if window.Err? {
      return Failed(window.error);
    }
    var (hourFloor, hourCeil) := window.value;
    var _, newPosts := CalcSubredditPostStats(name, listing, hourFloor, hourCeil);
    if newPosts.Err? {
      return Failed(newPosts.error);
    }
    r := SendGauge(SUBREDDIT_NEW_POST_COUNT, newPosts.value, SubredditLabels(name), DateTimeOf(hourFloor), dep);
  }

  /**
   * A successful fetch yields exactly one write: the count of posts in the
   * previous hour, at that hour's floor, labelled with the sub-Reddit.
   */
  lemma PostStatsRunWrites(name: string, utcNow: Instant, listing: HttpResponse<seq<Post>>, dep: Deployment)
    requires utcNow >= MICROS_PER_HOUR && listing.statusCode == 200
    ensures var r := PostStatsRun(name, utcNow, listing, dep);
      var (lo, hi) := PostWindow(utcNow).value;
      && |r.writes| == 1
      && r.writes[0].metricType == "custom.googleapis.com/" + SUBREDDIT_NEW_POST_COUNT.name
      && r.writes[0].value == CountInWindow(listing.content, lo, hi)
      && r.writes[0].value <= |listing.content|
      && r.writes[0].startTime == r.writes[0].endTime == FormatRfc3339(DateTimeOf(lo))
      && r.writes[0].labels == map["environment" := if dep.isProduction then "prod" else "dev",
                                   "subreddit" := name]
      && (r.outcome.Ok? <==> dep.accept(r.writes[0]))
  {
    var (lo, hi) := PostWindow(utcNow).value;
    SendDefinedGauge(SUBREDDIT_NEW_POST_COUNT, CountInWindow(listing.content, lo, hi), name, DateTimeOf(lo), dep);
  }

  /**
   * Two runs in the same clock hour over the same listing attempt the same
   * write, at the same instant: a second run is refused by a backend that
   * rejects a repeated point.
   */
  lemma PostStatsSameHour(name: string, now1: Instant, now2: Instant,
                          listing: HttpResponse<seq<Post>>, dep: Deployment)
    requires now1 / MICROS_PER_HOUR == now2 / MICROS_PER_HOUR
    ensures PostStatsRun(name, now1, listing, dep) == PostStatsRun(name, now2, listing, dep)
  {
    if now1 >= MICROS_PER_HOUR {
      HourFloorSameHour(now1 - MICROS_PER_HOUR, now2 - MICROS_PER_HOUR);
      assert PostWindow(now1) == PostWindow(now2);
    }
  }
}
