# techsubreddits, modelled in Dafny

techsubreddits tracks activity on technology sub-Reddits. It has three parts:

- A scanner runs once an hour per sub-Reddit. It reads the sub-Reddit's
  about page and its newest-posts listing. It writes three gauge points to
  Google Cloud Monitoring: total subscribers, currently active accounts,
  and new posts in the previous hour.
- A bucket populator reads 24 hours of those gauges back for every
  sub-Reddit of a category. It reduces each metric to one number (the
  peak, growth and current total, a sum) and assembles an overview
  document.
- A hard-coded catalog files sub-Reddits under categories.

The model covers these modules:

| module | file | models |
|---|---|---|
| `Common` | common.dfy | `Option`, `Result`, and the exceptions the code raises |
| `Decimal` | decimal.dfy | zero-padded digits, `str(n)`, reading digits back |
| `DateTimes` | datetimes.dfy | naive `datetime`: instants as microseconds since 0001-01-01, the calendar record, `<`, `replace` below the hour, `- timedelta(hours=n)` |
| `Rfc3339` | rfc3339.dfy | `format_rfc3339` and `parse_rfc3339` |
| `PyValues` | pyvalues.dfy | decoded JSON scalars, `int(...)`, `d[key]` |
| `Metrics` | metrics.dfy | the `BaseMetric`/`GaugeMetric` layer: typed-value dispatch, cast, labels, metric names, descriptor, write body, `write_gauge`, the filter string and paging loop of `query_gauge` |
| `MetricDefines` | metric_defines.dfy | the three gauges |
| `ScannerCommon` | scanner_common.dfy | the status check, the newest-posts URL, hour floor and ceiling, sending one gauge point |
| `BasicStats` | basic_stats.dfy | subscriber and active-account collection |
| `PostStats` | post_stats.dfy | the post window and the inclusive count |
| `Scanner` | scanner.dfy | `full_subreddit_scan` |
| `Config` | config.dfy | `populate_flask_config` |
| `Sorting` | sorting.dfy | Python string order, ASCII `lower()`, stable `sorted(key=...)` |
| `Subreddits` | subreddits.dfy | CATEGORIES, CATALOG and its population, category validity, the category filter |
| `CategoryOverview` | category_overview.dfy | the three reducers, one record per sub-Reddit, `_generate_json` |

The model takes each piece of code in the form it has in the source:

- The loops are methods with loop invariants, each proved equal to a
  specification function:
  - the reducers' running `peak_count`, `oldest_point`/`youngest_point`
    and `total_new`;
  - the post `counter`;
  - the growing filter string;
  - the `while True` paging loop;
  - the record loop of `_generate_json`.
- `simple_add_to_category` and the final re-sort of CATALOG are methods
  of a `Catalog` class. The class holds the dictionary as a `map` and a
  key order.
- `populate_flask_config` is a method of a class holding `app.config`.
- Everything else is functions over datatypes.

External effects are inputs and outputs:

- The clocks are parameters. There are separate local and UTC instants,
  and one clock reading per overview record.
- A fetched page is a status code and a decoded body.
- The monitoring backend's responses are a sequence of pages per query.
- Whether the backend accepts a write is a predicate.
- The writes a collector attempts are returned as a list, with the
  collector's outcome.

Points on the code's behaviour that the model makes explicit:

- `format_rfc3339` is `isoformat("T") + "Z"`, and `isoformat` leaves
  out the fraction when the microsecond is zero. A point written at a
  whole second therefore renders as `2024-03-01T14:00:00Z`.
  `parse_rfc3339`'s pattern `%Y-%m-%dT%H:%M:%S.%fZ` needs a fraction,
  so it raises ValueError on that text.
- `format_rfc3339`'s docstring promises a default of `utcnow`, but the
  body dereferences the missing argument. The argument is therefore
  required.
- Nothing in the code handles a duplicate point. A backend that refuses
  a repeated write is modelled as a rejection, which ends that
  collector's run.

## Model

| member | source | states |
|---|---|---|
| Rfc3339.FormatRfc3339 | techsubs/metrics/common.py:16-22 | `isoformat("T") + "Z"`: 27 characters with a `.` at index 19 exactly when the microsecond is non-zero, otherwise 20; `T` after the date, `Z` last |
| Rfc3339.ParseRfc3339 | techsubs/metrics/common.py:30-31 | a successful parse yields a valid datetime from text of 22 to 27 characters with a `.` after the seconds |
| Rfc3339.ParseFormatRoundTrip | techsubs/metrics/common.py:16-31 | parsing a formatted datetime gives it back exactly when its microsecond is non-zero; with microsecond 0 it raises ValueError |
| Rfc3339.ReadFieldsOfIsoFormat | techsubs/metrics/common.py:16-31 | the `%Y-%m-%dT%H:%M:%S.%fZ` pattern reads the rendered fields back when there is a fraction, and does not match when there is none |
| Metrics.TypedValueKey | techsubs/metrics/common.py:59-68 | `int64Value` exactly for INT64; ValueError for any other value type |
| Metrics.CastValue | techsubs/metrics/common.py:70-82 | INT64 casts with `int(...)` (identity on integers, parsing on text); any other type raises ValueError |
| Metrics.StandardLabelValues | techsubs/metrics/common.py:84-91 | one label, `environment`, which is `prod` iff IS_PRODUCTION and `dev` otherwise |
| Metrics.MergeLabels | techsubs/metrics/common.py:123-126 | the keys are `environment` plus the passed ones; passed labels win on a clash; `None` passes nothing |
| Metrics.ValidateLabels | techsubs/metrics/common.py:165-172 | succeeds iff every extra-label key is among the passed keys (extra passed keys allowed, `None` is empty); the error carries exactly the missing keys |
| Metrics.GetMetricVars | techsubs/metrics/common.py:93-100 | type `custom.googleapis.com/<name>`, resource `projects/<id>`, descriptor name `<resource>/metricDescriptors/<type>` |
| Metrics.CreateMetric | techsubs/metrics/common.py:102-115 | descriptor labels are the standard definitions followed by the extra ones, keys `environment` first; type `custom.googleapis.com/<name>` and name `projects/<id>/metricDescriptors/<type>`, as `_get_metric_vars` gives them; the metric's kind, value type, display name and description; unit `items`; created under the project resource |
| Metrics.WriteValue | techsubs/metrics/common.py:121-156 | fails only for a non-INT64 type, with the ValueError `UnimplementedValueType`; otherwise one point with the merged labels, the metric's type, resource `global`, the given interval and the value under `int64Value` |
| Metrics.WriteGauge | techsubs/metrics/common.py:174-188 | fails iff validation fails (with its error) or, after validation, the type is not INT64 (with `UnimplementedValueType`); otherwise start == end == the formatted `time_override`, or the clock when none is given |
| Metrics.WriteGaugeIgnoresClock | techsubs/metrics/common.py:183-186 | with a `time_override` the result does not depend on the clock |
| Metrics.FilterClausesConcat | techsubs/metrics/common.py:198-201 | the filter clauses of split entries are the concatenated clauses |
| Metrics.SingleLabelFilter | techsubs/metrics/common.py:195-201 | a one-entry filter is `metric.type="T" AND metric.label.environment="E" AND metric.label.k="v"` |
| Metrics.BuildFilter | techsubs/metrics/common.py:195-201 | the `+=` loop yields the base filter followed by one ` AND metric.label.k="v"` clause per entry, in the order the entries are given (for a dict, the order of `.items()`) |
| Metrics.ConvertPoint | techsubs/metrics/common.py:219-225 | a point is yielded iff the type is INT64, `int64Value` is present, the start time parses and the value casts; it then has the parsed start as its time and the cast value as its value; otherwise the first failure in that order decides: ValueError for the type, KeyError for the key, ValueError for the time, the `int()` error |
| Metrics.Collect | techsubs/metrics/common.py:220-225 | points are yielded in series order up to the first that fails, and that failure ends the page |
| Metrics.OutcomeOf | techsubs/metrics/common.py:214-228 | a page continues the loop exactly when it did not fail and its next token is truthy |
| Metrics.PagesRequested | techsubs/metrics/common.py:203-228 | the loop asks for every page up to and including the first that ends it |
| Metrics.StreamPagesIsConcatenation | techsubs/metrics/common.py:203-228 | the query yields the concatenated points of the requested pages, in page order, and fails exactly as the last requested page did (after the earlier pages' points) |
| Metrics.ReadPage | techsubs/metrics/common.py:215-225 | a page holding other than one series raises AssertionError; otherwise its points are converted in order, stopping at the first failure |
| Metrics.ReadResponse | techsubs/metrics/common.py:213-227 | one response's stream, and whether another page is requested |
| Metrics.Paginate | techsubs/metrics/common.py:203-228 | the loop's requests are the template with the previous response's token (none first), one per requested page, and its result is the stream of the requested pages |
| Metrics.QueryGauge | techsubs/metrics/common.py:190-228 | every request carries the project resource, the built filter, the page size and the formatted interval; the result is the paged stream |
| MetricDefines.SubredditLabels | techsubs/sr_scanner/common.py:38-44 | exactly `{'subreddit': name}` |
| MetricDefines.DefinedMetricNamesDistinct | techsubs/metrics/metric_defines.py:9-39 | the three names, and so the three metric types, are pairwise distinct |
| MetricDefines.DefinedMetricsAreIntGauges | techsubs/metrics/metric_defines.py:8-50 | each is a GAUGE of type INT64: typed key `int64Value`, the cast is the identity on integers, descriptor label keys `['environment', 'subreddit']` |
| MetricDefines.SubredditLabelsValidate | techsubs/metrics/metric_defines.py:14-20 | `{'subreddit': name}` always passes validation; no labels fails with `{'subreddit'}` missing |
| PyValues.PyInt | techsubs/sr_scanner/basic_stats.py:40-41 | `int(v)` is the identity on integers and raises TypeError on None |
| PyValues.GetItem | techsubs/sr_scanner/basic_stats.py:40-41 | `d[key]` succeeds with the value iff the key is present, and raises KeyError otherwise |
| PyValues.IntOfStrOfInt | techsubs/metrics/common.py:80 | `int(str(n)) == n` for every integer |
| DateTimes.DateTimeOf | techsubs/sr_scanner/post_stats.py:30-32 | every instant has a valid calendar record |
| DateTimes.InstantOfDateTimeOf | techsubs/sr_scanner/post_stats.py:30-32 | the calendar record of an instant gives the instant back |
| DateTimes.DateTimeOfInstantOf | techsubs/sr_scanner/post_stats.py:30-32 | every valid calendar record is the record of an instant in range; with the row above, the two representations are one |
| DateTimes.BeforeTotal | techsubs/bucket_populator/category_overview.py:89-92 | datetime `<` is total: of two distinct datetimes one is before the other |
| DateTimes.BeforeTransitive | techsubs/bucket_populator/category_overview.py:89-92 | datetime `<` is transitive |
| DateTimes.BeforeIrreflexive | techsubs/bucket_populator/category_overview.py:89-92 | no datetime is before itself |
| DateTimes.ReplaceSubHourFields | techsubs/sr_scanner/post_stats.py:31-32 | `replace(minute, second, microsecond)` keeps the date and hour and sets exactly those three fields |
| DateTimes.MinusHours | techsubs/sr_scanner/post_stats.py:30 | `t - timedelta(hours=n)` is `n` hours earlier, and raises OverflowError exactly when that falls before year 1 |
| ScannerCommon.SendGetRequest | techsubs/sr_scanner/common.py:9-23 | the content is returned iff the status is exactly 200; otherwise AssertionError with the status |
| ScannerCommon.NewPostsUrl | techsubs/sr_scanner/post_stats.py:54 | the URL is `https://www.reddit.com/r/`, then the name, then `/new/.json?limit=100` |
| ScannerCommon.NewPostsUrlInjective | techsubs/sr_scanner/post_stats.py:54 | two sub-Reddits with the same listing URL are the same sub-Reddit |
| ScannerCommon.HourFloor | techsubs/sr_scanner/basic_stats.py:27 | floor <= t < floor + 1 h, on an hour boundary |
| ScannerCommon.HourCeil | techsubs/sr_scanner/post_stats.py:32 | ceil - 1 h < t <= ceil, on the hour's last microsecond |
| ScannerCommon.HourFloorFields | techsubs/sr_scanner/basic_stats.py:27 | the floor is `replace(minute=0, second=0, microsecond=0)` of the calendar record |
| ScannerCommon.HourCeilFields | techsubs/sr_scanner/post_stats.py:32 | the ceiling is `replace(minute=59, second=59, microsecond=999999)` of the calendar record |
| ScannerCommon.HourFloorSameHour | techsubs/sr_scanner/basic_stats.py:26-27 | two instants get the same floor iff they lie in the same clock hour |
| ScannerCommon.SendGauge | techsubs/metrics/common.py:174-188 | at most one write is attempted; success means one write the backend accepted; the write is what `write_gauge` with that `time_override` builds |
| ScannerCommon.SendDefinedGauge | techsubs/sr_scanner/basic_stats.py:28-31 | a defined gauge with `{'subreddit': name}` always forms its write, with start == end == the formatted instant and labels `{environment, subreddit}`; the run succeeds iff the backend accepts it |
| ScannerCommon.Then | techsubs/sr_scanner/scanner.py:63-64 | a failed first step ends the run with its writes; otherwise the writes are concatenated and the second step's outcome is the run's |
| BasicStats.CalcBasicSubredditStats | techsubs/sr_scanner/basic_stats.py:34-42 | `(int(subscribers), int(accounts_active))` in that order; each failure is stated in source order: KeyError for `subscribers`, its `int` error, KeyError for `accounts_active`, its `int` error |
| BasicStats.SendBasicStats | techsubs/sr_scanner/basic_stats.py:28-31 | the subscriber write comes first; the active-accounts write is attempted iff the first was accepted; both share the instant and labels; no rollback |
| BasicStats.CalcAndSendBasicSubredditStats | techsubs/sr_scanner/basic_stats.py:13-31 | a failed fetch or extraction writes nothing; otherwise the two counts are written at the hour floor of the local clock |
| BasicStats.BasicStatsSameHour | techsubs/sr_scanner/basic_stats.py:26-31 | two runs in the same clock hour attempt the same writes |
| PostStats.PostWindow | techsubs/sr_scanner/post_stats.py:30-32 | floor <= ceil, ceil - floor = 1 h - 1 µs, the floor is on the hour before now's hour, and the ceil lies before now's hour; OverflowError in the first hour of year 1 |
| PostStats.PostWindowFields | techsubs/sr_scanner/post_stats.py:30-32 | the bounds are the hour before now with :00:00.000000 and :59:59.999999 |
| PostStats.CountInWindow | techsubs/sr_scanner/post_stats.py:59-65 | the count is at most the number of listed posts |
| PostStats.CountInWindowIsIndexCount | techsubs/sr_scanner/post_stats.py:59-65 | the count is the number of listing positions whose post lies in the window |
| PostStats.CountInWindowAppend | techsubs/sr_scanner/post_stats.py:59-65 | counting splits over concatenation |
| PostStats.CountInWindowPermutation | techsubs/sr_scanner/post_stats.py:59-65 | the count does not depend on the order of the listing |
| PostStats.CountInWindowInclusive | techsubs/sr_scanner/post_stats.py:63 | posts at either bound count; posts a microsecond outside do not |
| PostStats.CalcSubredditPostStats | techsubs/sr_scanner/post_stats.py:41-65 | the listing is fetched from the sub-Reddit's `NewPostsUrl`; a failed fetch raises its error; otherwise the counter loop returns the window count |
| PostStats.CalcAndSendSubredditPostStats | techsubs/sr_scanner/post_stats.py:13-38 | the run is the window, the fetch and count, then one write at the window floor |
| PostStats.PostStatsRunWrites | techsubs/sr_scanner/post_stats.py:30-38 | after a good fetch, exactly one write: the window count (at most the listing size), at the floor, labelled `{environment, subreddit}`, succeeding iff accepted |
| PostStats.PostStatsSameHour | techsubs/sr_scanner/post_stats.py:21-38 | two runs in the same UTC hour attempt the same write at the same instant |
| Scanner.FullSubredditScan | techsubs/sr_scanner/scanner.py:48-64 | the basic collector, then the post collector for the same name, the second only if the first raised nothing |
| Scanner.FullScanWriteOrder | techsubs/sr_scanner/scanner.py:63-64 | with good fetches and an accepting backend, three writes: subscribers, active accounts, new posts, each labelled with the sub-Reddit |
| Scanner.FullScanRerunSameHour | techsubs/sr_scanner/scanner.py:58-60 | a rerun within the same local and UTC hours attempts the very same writes |
| Config.AppConfig.PopulateFlaskConfig | techsubs/config.py:7-16 | SITE_NAME becomes `Tech Subreddit Tracker` and IS_PRODUCTION the server decision; nothing else changes |
| Config.UnsetServerIsNotProduction | techsubs/config.py:12-14 | an empty or missing SERVER_SOFTWARE is not production |
| Config.DevelopmentServerIsNotProduction | techsubs/config.py:13-14 | a value starting with `Development` is not production |
| Config.OtherServerIsProduction | techsubs/config.py:15-16 | any other non-empty value is production |
| Config.EnvironmentLabelFollowsServer | techsubs/metrics/common.py:90 | the `environment` label is `prod` iff the server is a non-development one |
| Sorting.StrLessTotal | techsubs/subreddits.py:159-161 | Python string `<` is total |
| Sorting.StrLessTransitive | techsubs/subreddits.py:159-161 | Python string `<` is transitive |
| Sorting.StrLessIrreflexive | techsubs/subreddits.py:159-161 | no string is below itself |
| Sorting.Lower | techsubs/subreddits.py:160 | `lower()` keeps the length and lowers each character |
| Sorting.SortBy | techsubs/subreddits.py:159-161 | `sorted(key=...)` is a permutation of its input |
| Sorting.SortBySorted | techsubs/subreddits.py:159-161 | `sorted(key=...)` is ordered by the key |
| Sorting.SortByMembers | techsubs/subreddits.py:159-161 | sorting keeps exactly the elements it was given |
| Subreddits.KeyedBySlug | techsubs/subreddits.py:25-71 | the dictionary literal's items: each category under its own slug |
| Subreddits.TableEntries | techsubs/subreddits.py:25-71 | the sorted table is as long as the category list and holds each category under its slug |
| Subreddits.TableKeys | techsubs/subreddits.py:25-71 | the table's keys are exactly the categories' slugs |
| Subreddits.CategoriesSortedWithSlugKeys | techsubs/subreddits.py:25-73 | CATEGORIES holds the nine categories in ascending key order, each under its own slug |
| Subreddits.ValidCategoryIsSlug | techsubs/subreddits.py:164-170 | a category is valid iff it is the slug of one of the nine |
| Subreddits.KeyIsNotACategory | techsubs/subreddits.py:71-73 | the stray `key` entry is deleted: `key` is not a valid category |
| Subreddits.UsedCategoriesValid | techsubs/subreddits.py:102-156 | every category a population call uses is valid |
| Subreddits.Catalog.SimpleAddToCategory | techsubs/subreddits.py:84-100 | the catalog becomes its old state with each listed name added to the category |
| Subreddits.AddToCategoryWellFormed | techsubs/subreddits.py:93-100 | adding keeps every key listed once, every entry's slug its key, every category list non-empty, and the old key order (the model's insertion order) as a prefix |
| Subreddits.AddToCategoryEntry | techsubs/subreddits.py:93-100 | a key is present afterwards iff it was or is listed; its categories are its prior ones followed by the category once per listing; new entries start with `[c]` |
| Subreddits.AddToCategoryLast | techsubs/subreddits.py:93-100 | every listed name is a key afterwards, its slug is the name, and the category is its last one |
| Subreddits.Catalog.SortCatalog | techsubs/subreddits.py:159-161 | the entries stay; the key order is sorted by lower-cased name |
| Subreddits.Catalog.constructor | techsubs/subreddits.py:77-161 | the module-level population (the nine calls, then the re-sort) yields the catalog contents |
| Subreddits.PopulateWellFormed | techsubs/subreddits.py:102-156 | a run of population calls keeps the catalog well formed |
| Subreddits.PopulateEntry | techsubs/subreddits.py:102-156 | after a run of calls a key is present iff some call listed it, with the calls' categories in call order |
| Subreddits.CatalogWellFormedAndSorted | techsubs/subreddits.py:77-161 | the final catalog is well formed and its keys are ordered case-insensitively |
| Subreddits.CatalogCategoriesValid | techsubs/subreddits.py:95-156 | every category a catalog entry lists is valid |
| Subreddits.NetsecCategories | techsubs/subreddits.py:116-156 | `netsec` is filed under networking, then security |
| Subreddits.AskNetsecCategories | techsubs/subreddits.py:116-156 | `AskNetsec` is filed under networking, then security |
| Subreddits.InCategory | techsubs/subreddits.py:179-180 | the filter keeps exactly the entries whose categories contain the category |
| Subreddits.InCategoryConcat | techsubs/subreddits.py:179-180 | the filter keeps catalog order: filtering a split catalog filters each part |
| Subreddits.SubredditsInCategoryMembers | techsubs/subreddits.py:173-180 | over the catalog, an entry is returned iff it lists the category |
| Subreddits.InCategorySorted | techsubs/subreddits.py:179-180 | filtering a case-insensitively ordered catalog gives an ordered list |
| Subreddits.SubredditsInCategorySorted | techsubs/subreddits.py:159-180 | `get_subreddits_in_category` returns entries ordered by lower-cased slug |
| CategoryOverview.PeakCount | techsubs/bucket_populator/category_overview.py:70-74 | the running-peak loop computes the peak |
| CategoryOverview.PeakIsMax | techsubs/bucket_populator/category_overview.py:70-78 | the peak is >= 0 and >= every value, and is 0 or one of the values: the max of 0 and the values (0 on an empty stream) |
| CategoryOverview.PeakPermutation | techsubs/bucket_populator/category_overview.py:70-74 | the peak does not depend on the order of the points |
| CategoryOverview.OldestAndYoungest | techsubs/bucket_populator/category_overview.py:84-92 | the loop keeps no point iff the stream is empty, else the points at the oldest and youngest positions |
| CategoryOverview.OldestIndexIsFirstOldest | techsubs/bucket_populator/category_overview.py:87 | the kept oldest point has no strictly older point, and every earlier point is strictly younger (the first-seen oldest wins ties) |
| CategoryOverview.YoungestIndexIsFirstYoungest | techsubs/bucket_populator/category_overview.py:89 | the mirror image for the youngest point |
| CategoryOverview.SubscriberStatsOf | techsubs/bucket_populator/category_overview.py:81-97 | succeeds iff the query did not fail and yielded points; the query's exception propagates; an empty stream dereferences None (TypeError); total is the youngest value, growth youngest minus oldest |
| CategoryOverview.SubscriberStatsFrom | techsubs/bucket_populator/category_overview.py:84-97 | the loop and the return compute the subscriber stats |
| CategoryOverview.SingletonGrowth | techsubs/bucket_populator/category_overview.py:94-97 | one point gives its value as total and growth 0 |
| CategoryOverview.SubscriberStatsPermutation | techsubs/bucket_populator/category_overview.py:85-92 | with distinct times, reordering the points does not change the stats: oldest and youngest are chosen by time |
| CategoryOverview.TotalNew | techsubs/bucket_populator/category_overview.py:104-106 | the loop computes the sum of the values (0 on an empty stream) |
| CategoryOverview.SumAppend | techsubs/bucket_populator/category_overview.py:104-106 | the sum splits over concatenation |
| CategoryOverview.SumPermutation | techsubs/bucket_populator/category_overview.py:104-106 | the sum does not depend on the order of the points |
| CategoryOverview.QueryRequests | techsubs/metrics/common.py:203-211 | one request per requested page, each the template with the previous page's token |
| CategoryOverview.QueryWindow | techsubs/bucket_populator/category_overview.py:67-68 | the overview's `query_gauge` call: environment `prod`, page size 100, filter `{subreddit: slug}` |
| CategoryOverview.QueryAndReturnActiveAccountStats | techsubs/bucket_populator/category_overview.py:65-78 | the requests of the window query, and the peak of its points or its exception |
| CategoryOverview.QueryAndReturnSubscriberStats | techsubs/bucket_populator/category_overview.py:81-97 | the requests of the window query, and its subscriber stats or the failure |
| CategoryOverview.QueryAndReturnPostStats | techsubs/bucket_populator/category_overview.py:100-110 | the requests of the window query, and the sum of its points or its exception |
| CategoryOverview.Assemble | techsubs/bucket_populator/category_overview.py:56-62 | the record succeeds iff all three reductions did; the fields are slug, peak, growth, total, post sum; the first failure in query order is the record's |
| CategoryOverview.QueryAndReturnSubredditStats | techsubs/bucket_populator/category_overview.py:44-62 | the 24-hour window ending at the clock, then the three queries in order, stopping at the first that raises |
| CategoryOverview.RecordNeedsFullDay | techsubs/bucket_populator/category_overview.py:46 | within the first day of year 1 the window start overflows and no request is made |
| CategoryOverview.RecordWindow | techsubs/bucket_populator/category_overview.py:45-54 | every request of a record is one of the three window templates (24 hours ending at now, filter `{subreddit: slug}`) with a page token |
| CategoryOverview.QueryRequestsShareTemplate | techsubs/metrics/common.py:205-211 | every request of a query is its template with some page token |
| CategoryOverview.RecordFields | techsubs/bucket_populator/category_overview.py:44-62 | a record names its slug; total is the youngest subscriber value and growth its difference from the oldest; accounts >= 0 and >= every active point; posts is the sum |
| CategoryOverview.GatherOk | techsubs/bucket_populator/category_overview.py:38-40 | gathering succeeds iff every record does, and then yields every record in order |
| CategoryOverview.GatherFailureFinal | techsubs/bucket_populator/category_overview.py:38-40 | nothing runs after the first failing record |
| CategoryOverview.GatherRecords | techsubs/bucket_populator/category_overview.py:38-40 | the append loop yields the gathered records and the requests of the records it ran |
| CategoryOverview.GenerateJson | techsubs/bucket_populator/category_overview.py:26-41 | an unknown category raises NotFoundError before any request; otherwise the overview and the requests of its records |
| CategoryOverview.RecordsShape | techsubs/bucket_populator/category_overview.py:38-40 | a successful gather has one record per member, naming that member, in order |
| CategoryOverview.OverviewShape | techsubs/bucket_populator/category_overview.py:26-40 | a successful overview is of a valid category; `queryRecordCount == totalRecordCount == len(records)` == the number of members; records follow member order; the generation time is stamped |
| CategoryOverview.CatalogOverviewSorted | techsubs/bucket_populator/category_overview.py:30-40 | over the catalog, an overview's records are ordered by lower-cased sub-Reddit name |

## Left out

- HTTP fetching (`urlfetch`) and `json.loads`: a fetched page is its status code and decoded body. The about dictionary and the post listing are inputs.
- The Google Cloud Monitoring client: `get_metrics_client`, the `.execute()` calls, and `get_application_id()`, which becomes a `projectId` parameter. A query's responses are an input page sequence. A write is returned as a value. Whether the backend accepts it is an input predicate.
- The backend is assumed to end every listing (`Terminates`): an endless run of pages with next tokens would make `query_gauge` loop forever, and that case is not modelled.
- `create_metric`'s request is modelled (`Metrics.CreateMetric`); sending it is not.
- The wall clock: `now()` and `utcnow()` are instant parameters. Local time and UTC are separate inputs, with no time zone semantics.
- `utcfromtimestamp(created_utc)`: float seconds. A post's creation time is an integer instant.
- `strptime`'s lenient forms: one-digit fields and surrounding whitespace are not accepted. The fields follow the fixed-width layout `isoformat` produces.
- `str.lower()` is ASCII-only. Python string order is by code point.
- `CATALOG` is a plain Python 2 dict, so `CATALOG.items()` yields its entries in hash order. The model keeps the keys in insertion order (`CatalogState.order`, and the key-order prefix in `Subreddits.AddToCategoryWellFormed`) as a modelling device only. `Sorting.SortBy` is an insertion sort with the stability of Python's `sorted`. No two CATALOG names are equal once lower-cased, so the sorted order is the same whatever order `.items()` yields.
- `PyValues.IntOfText`: underscores, surrounding whitespace and non-ASCII digits, which Python's `int()` also accepts, are not modelled.
- A `timeSeries` key missing from a response (a KeyError) is not modelled. A page always has a series list.
- Metrics.Series and Metrics.RawPoint: a series without `points`, or a point without `interval`, `startTime` or `value`, raises KeyError at techsubs/metrics/common.py:218-223. That is not modelled: the datatypes always carry these fields.
- PyValues.Scalar: JSON floats and booleans are not modelled. Python's `int()` would truncate a float (`2.5` to 2) and map `True`/`False` to 1/0 at techsubs/sr_scanner/basic_stats.py:40-41 and techsubs/metrics/common.py:80. The model's scalars are integers, text and null, and `int()` is the identity only on integers.
- Metrics.BuildFilter: the filter entries are a sequence. The dict `metric_label_filters` gives them in the unspecified order of Python 2's `.items()`, and the proved clause order is the order of that sequence.
- The points `query_gauge` yields are delivered as a whole stream. Its generator laziness is not modelled. A failing page ends the stream after the points already yielded.
- `generate_and_upload` (techsubs/bucket_populator/category_overview.py:13-23), the bucket constants and `json.dumps`: storage and serialisation. The overview is modelled as a value.
- Flask routes, the task-queue workers, error handlers, package `__init__` files and `bin/testscrape.py`: web and queue plumbing.
- The older collectors in techsubs/sr_scanner/scanner.py (lines 27-45 and 67-143) are the same code as basic_stats.py, post_stats.py and sr_scanner/common.py, apart from the request headers. They are modelled once.
- CategoryOverview.SubscriberStatsPermutation: does not cover streams with two points at the same time. Then the first-seen one wins, which may differ between orders.
