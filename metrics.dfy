/**
 * The gauge-metric layer over the monitoring backend (techsubs/metrics/common.py).
 *
 * A metric class becomes a `MetricDefinition` value. The backend calls are
 * replaced by what the code hands to them: a metric-descriptor creation
 * request, a `TimeSeriesWrite` record, and the `ListRequest`s of a query,
 * whose responses are given as a sequence of pages.
 */
module Metrics {
  import opened Common
  import opened PyValues
  import opened DateTimes
  import opened Rfc3339

  /** `metric_value_type`: only INT64 is implemented; anything else (or None) is `Other`. */
  datatype ValueType = Int64 | OtherValueType(name: string)

  /** `metric_kind`: 'GAUGE' for `GaugeMetric`, None for the bare base class. */
  datatype MetricKind = Gauge | NoKind

  datatype LabelDefinition = LabelDefinition(key: string, valueType: string, description: string)

  datatype MetricDefinition = MetricDefinition(
    name: string,
    displayName: string,
    description: string,
    kind: MetricKind,
    valueType: ValueType,
    extraLabels: seq<LabelDefinition>)

  /** Labels included in every metric. */
  const STANDARD_LABEL_DEFINITIONS: seq<LabelDefinition> :=
    [LabelDefinition("environment", "STRING", "One of 'production' or 'devel'")]

  function LabelKeys(labels: seq<LabelDefinition>): (keys: seq<string>)
    ensures |keys| == |labels|
    ensures forall i :: 0 <= i < |labels| ==> keys[i] == labels[i].key
  {
    if labels == [] then [] else [labels[0].key] + LabelKeys(labels[1..])
  }

  // ---------------------------------------------------------------------
  // Typed-value dispatch

  /** `_value_type_to_typed_value`: the key of the value inside a point. */
  function TypedValueKey(m: MetricDefinition): (r: Result<string>)
    ensures r.Ok? <==> m.valueType == Int64
    ensures r.Ok? ==> r.value == "int64Value"
    ensures r.Err? ==> r.error == UnimplementedValueType
  {
    if m.valueType == Int64 then Ok("int64Value") else Err(UnimplementedValueType)
  }

  /** `_cast_value_according_to_type`: `int(value)` for INT64, ValueError for any other type. */
  function CastValue(m: MetricDefinition, v: Scalar): (r: Result<int>)
    ensures m.valueType != Int64 ==> r == Err(UnimplementedValueType)
    ensures m.valueType == Int64 && v.IntScalar? ==> r == Ok(v.i)
    ensures m.valueType == Int64 && v.TextScalar? ==> r == IntOfText(v.text)
  {
    if m.valueType == Int64 then PyInt(v) else Err(UnimplementedValueType)
  }

  // ---------------------------------------------------------------------
  // Labels, names, descriptors

  /** `_get_standard_label_values`: the environment label, from IS_PRODUCTION. */
  function StandardLabelValues(isProduction: bool): (r: map<string, string>)
    ensures r.Keys == {"environment"}
    ensures r["environment"] == "prod" <==> isProduction
    ensures r["environment"] == "dev" <==> !isProduction
  {
    map["environment" := if isProduction then "prod" else "dev"]
  }

  /** The keys of the labels a caller passes (`labels or {}`). */
  function PassedKeys(labels: Option<map<string, string>>): set<string> {
    if labels.Some? then labels.value.Keys else {}
  }

  /** `_validate_labels`: every extra label of the metric must be among the passed keys. */
  function ValidateLabels(m: MetricDefinition, labels: Option<map<string, string>>): (r: Result<()>)
    ensures r.Ok? <==> forall i :: 0 <= i < |m.extraLabels| ==> m.extraLabels[i].key in PassedKeys(labels)
    ensures r.Err? ==> r.error.MissingLabelValues?
    ensures r.Err? ==> forall k :: k in r.error.missing <==>
      (k !in PassedKeys(labels) && exists i :: 0 <= i < |m.extraLabels| && m.extraLabels[i].key == k)
  {
    var passed := PassedKeys(labels);
    var defined := set i | 0 <= i < |m.extraLabels| :: m.extraLabels[i].key;
    var diff := defined - passed;
    if diff != {} then Err(MissingLabelValues(diff))
    else
      assert forall k :: k in defined ==> k !in diff;
      assert forall i :: 0 <= i < |m.extraLabels| ==> m.extraLabels[i].key in defined;
      Ok(())
  }

  /** The label update in `_write_value`: standard labels, overridden by the passed ones. */
  function MergeLabels(isProduction: bool, labels: Option<map<string, string>>): (r: map<string, string>)
    ensures r.Keys == {"environment"} + PassedKeys(labels)
    ensures forall k :: k in PassedKeys(labels) ==> r[k] == labels.value[k]
    ensures "environment" !in PassedKeys(labels) ==> r["environment"] == StandardLabelValues(isProduction)["environment"]
  {
    var all := StandardLabelValues(isProduction);
    if labels.Some? && labels.value != map[] then all + labels.value else all
  }

  datatype MetricVars = MetricVars(descriptorName: string, metricType: string, projectResource: string)

  /** `_get_metric_vars`; the project id comes from `get_application_id()`. */
  function GetMetricVars(m: MetricDefinition, projectId: string): (r: MetricVars)
    ensures r.metricType == "custom.googleapis.com/" + m.name
    ensures r.projectResource == "projects/" + projectId
    ensures r.descriptorName == r.projectResource + "/metricDescriptors/" + r.metricType
  {
    var mdType := "custom.googleapis.com/" + m.name;
    MetricVars("projects/" + projectId + "/metricDescriptors/" + mdType, mdType, "projects/" + projectId)
  }

  datatype MetricDescriptor = MetricDescriptor(
    name: string, metricType: string, labels: seq<LabelDefinition>,
    metricKind: MetricKind, valueType: ValueType, unit: string,
    displayName: string, description: string)

  /** What `create_metric` sends: the descriptor, created under the project resource. */
  datatype CreateRequest = CreateRequest(resourceName: string, descriptor: MetricDescriptor)

  function CreateMetric(m: MetricDefinition, projectId: string): (r: CreateRequest)
    ensures r.descriptor.labels == STANDARD_LABEL_DEFINITIONS + m.extraLabels
    ensures LabelKeys(r.descriptor.labels) == ["environment"] + LabelKeys(m.extraLabels)
    ensures r.resourceName == GetMetricVars(m, projectId).projectResource
    ensures r.descriptor.metricType == GetMetricVars(m, projectId).metricType
    ensures r.descriptor.name == GetMetricVars(m, projectId).descriptorName
    ensures r.descriptor.name == r.resourceName + "/metricDescriptors/" + r.descriptor.metricType
    ensures r.descriptor.displayName == m.displayName && r.descriptor.description == m.description
    ensures r.descriptor.metricKind == m.kind && r.descriptor.valueType == m.valueType
    ensures r.descriptor.unit == "items"
  {
    var labels := STANDARD_LABEL_DEFINITIONS + m.extraLabels;
    var vars := GetMetricVars(m, projectId);
    assert LabelKeys(labels) == ["environment"] + LabelKeys(m.extraLabels);
    CreateRequest(vars.projectResource,
      MetricDescriptor(vars.descriptorName, vars.metricType, labels, m.kind, m.valueType,
                       "items", m.displayName, m.description))
  }

  // ---------------------------------------------------------------------
  // Writing a point

  /** The time series body `_write_value` sends (one point, resource type 'global'). */
  datatype TimeSeriesWrite = TimeSeriesWrite(
    projectResource: string,
    metricType: string,
    labels: map<string, string>,
    resourceType: string,
    metricKind: MetricKind,
    valueType: ValueType,
    startTime: string,
    endTime: string,
    typedValueKey: string,
    value: int)

  /** `_write_value`: only the typed-value dispatch can fail here. */
  function WriteValue(m: MetricDefinition, value: int, interval: (string, string),
                      labels: Option<map<string, string>>, isProduction: bool,
                      projectId: string): (r: Result<TimeSeriesWrite>)
    ensures r.Ok? <==> m.valueType == Int64
    ensures m.valueType != Int64 ==> r == Err(UnimplementedValueType)
    ensures r.Ok? ==> && r.value.labels == MergeLabels(isProduction, labels)
                      && r.value.metricType == GetMetricVars(m, projectId).metricType
                      && r.value.projectResource == GetMetricVars(m, projectId).projectResource
                      && r.value.startTime == interval.0 && r.value.endTime == interval.1
                      && r.value.typedValueKey == "int64Value" && r.value.value == value
                      && r.value.resourceType == "global" && r.value.metricKind == m.kind
  {
    var allLabels := MergeLabels(isProduction, labels);
    var vars := GetMetricVars(m, projectId);
    var key :- TypedValueKey(m);
    Ok(TimeSeriesWrite(vars.projectResource, vars.metricType, allLabels, "global",
                       m.kind, m.valueType, interval.0, interval.1, key, value))
  }

  /**
   * `write_gauge`: validate the labels, then write one point whose interval
   * starts and ends at `time_override` (or at `utcnow()` when none is given).
   */
  function WriteGauge(m: MetricDefinition, value: int, labels: Option<map<string, string>>,
                      timeOverride: Option<DateTime>, utcNow: DateTime,
                      isProduction: bool, projectId: string): (r: Result<TimeSeriesWrite>)
    requires timeOverride.Some? ==> Valid(timeOverride.value)
    requires Valid(utcNow)
    ensures r.Ok? <==> ValidateLabels(m, labels).Ok? && m.valueType == Int64
    ensures ValidateLabels(m, labels).Err? ==> r == Err(ValidateLabels(m, labels).error)
    ensures ValidateLabels(m, labels).Ok? && m.valueType != Int64 ==> r == Err(UnimplementedValueType)
    ensures r.Ok? ==> && r.value.startTime == r.value.endTime
                      && r.value.startTime == FormatRfc3339(
                           if timeOverride.Some? then timeOverride.value else utcNow)
                      && r.value.labels == MergeLabels(isProduction, labels)
                      && r.value.value == value
                      && r.value.metricType == "custom.googleapis.com/" + m.name
  {
    var _ :- ValidateLabels(m, labels);
    var metricTime := FormatRfc3339(if timeOverride.Some? then timeOverride.value else utcNow);
    WriteValue(m, value, (metricTime, metricTime), labels, isProduction, projectId)
  }

  /** With a `time_override` the clock is never read. */
  lemma WriteGaugeIgnoresClock(m: MetricDefinition, value: int, labels: Option<map<string, string>>,
                               at: DateTime, now1: DateTime, now2: DateTime,
                               isProduction: bool, projectId: string)
    requires Valid(at) && Valid(now1) && Valid(now2)
    ensures WriteGauge(m, value, labels, Some(at), now1, isProduction, projectId)
         == WriteGauge(m, value, labels, Some(at), now2, isProduction, projectId)
  {
  }

  // ---------------------------------------------------------------------
  // Querying

  /** One point of a returned series: its interval start and its typed value map. */
  datatype RawPoint = RawPoint(startTime: string, value: map<string, Scalar>)

  datatype Series = Series(points: seq<RawPoint>)

  /** One response of the backend's list call. */
  datatype Page = Page(timeSeries: seq<Series>, nextPageToken: Option<string>)

  /** The arguments of one list call. */
  datatype ListRequest = ListRequest(
    name: string, filter: string, pageSize: int,
    startTime: string, endTime: string, pageToken: Option<string>)

  /** A point as `query_gauge` yields it: `{'time': ..., 'value': ...}`. */
  datatype Point = Point(time: DateTime, value: int)

  /** What a query delivers: the points yielded, then possibly the exception that ended it. */
  datatype Stream = Stream(points: seq<Point>, failure: Option<Error>)

  /** A truthy `nextPageToken`. */
  predicate HasNextPage(p: Page) {
    p.nextPageToken.Some? && p.nextPageToken.value != ""
  }

  function FilterClause(key: string, value: string): string {
    " AND metric.label." + key + "=\"" + value + "\""
  }

  function BaseFilter(metricType: string, environment: string): string {
    "metric.type=\"" + metricType + "\" AND metric.label.environment=\"" + environment + "\""
  }

  /** One clause per filter entry, in the order the entries are visited. */
  function FilterClauses(filters: seq<(string, string)>): string {
    if filters == [] then ""
    else FilterClauses(filters[..|filters| - 1]) + FilterClause(filters[|filters| - 1].0, filters[|filters| - 1].1)
  }

  function FilterString(metricType: string, environment: string, filters: seq<(string, string)>): string {
    BaseFilter(metricType, environment) + FilterClauses(filters)
  }

  lemma {:induction false} FilterClausesConcat(a: seq<(string, string)>, b: seq<(string, string)>)
    ensures FilterClauses(a + b) == FilterClauses(a) + FilterClauses(b)
    decreases |b|
  {
    if b != [] {
      assert (a + b)[..|a + b| - 1] == a + b[..|b| - 1];
      FilterClausesConcat(a, b[..|b| - 1]);
    } else {
      assert a + b == a;
    }
  }

  /** The filter a single-label query builds, written out. */
  lemma SingleLabelFilter(metricType: string, environment: string, key: string, value: string)
    ensures FilterString(metricType, environment, [(key, value)])
         == "metric.type=\"" + metricType + "\" AND metric.label.environment=\"" + environment
            + "\" AND metric.label." + key + "=\"" + value + "\""
  {
    assert [(key, value)][..0] == [];
    assert FilterClauses([(key, value)]) == FilterClause(key, value);
  }

  /**
   * The filter-string loop of `query_gauge`. The entries stand for
   * `metric_label_filters.items()`; "in order" means whatever order that
   * dictionary's `.items()` yields, which Python 2 leaves unspecified.
   */
  method BuildFilter(metricType: string, environment: string, filters: seq<(string, string)>)
    returns (filter: string)
    ensures filter == FilterString(metricType, environment, filters)
  {
    filter := BaseFilter(metricType, environment);
    var i := 0;
    while i < |filters|
      invariant 0 <= i <= |filters|
      invariant filter == FilterString(metricType, environment, filters[..i])
    {
      assert filters[..i + 1][..i] == filters[..i];
      filter := filter + FilterClause(filters[i].0, filters[i].1);
      i := i + 1;
    }
    assert filters[..i] == filters;
  }

  /**
   * Reading one raw point: typed key, value lookup, time parse, then the
   * cast. The point is yielded exactly when all four succeed; otherwise the
   * first of them to fail decides the exception.
   */
  function ConvertPoint(m: MetricDefinition, raw: RawPoint): (r: Result<Point>)
    ensures r.Ok? <==> && m.valueType == Int64 && "int64Value" in raw.value
                       && ParseRfc3339(raw.startTime).Ok? && CastValue(m, raw.value["int64Value"]).Ok?
    ensures r.Ok? ==> ParseRfc3339(raw.startTime) == Ok(r.value.time)
    ensures r.Ok? ==> "int64Value" in raw.value && CastValue(m, raw.value["int64Value"]) == Ok(r.value.value)
    ensures m.valueType != Int64 ==> r == Err(UnimplementedValueType)
    ensures m.valueType == Int64 && "int64Value" !in raw.value ==> r == Err(MissingKey("int64Value"))
    ensures m.valueType == Int64 && "int64Value" in raw.value && ParseRfc3339(raw.startTime).Err? ==>
      r == Err(ParseRfc3339(raw.startTime).error)
    ensures (&& m.valueType == Int64 && "int64Value" in raw.value && ParseRfc3339(raw.startTime).Ok?
             && CastValue(m, raw.value["int64Value"]).Err?) ==>
      r == Err(CastValue(m, raw.value["int64Value"]).error)
  {
    var key :- TypedValueKey(m);
    if key !in raw.value then Err(MissingKey(key))
    else
      var time :- ParseRfc3339(raw.startTime);
      var value :- CastValue(m, raw.value[key]);
      Ok(Point(time, value))
  }

  /** The outcome of reading each point of a series. */
  function ConvertPoints(m: MetricDefinition, raws: seq<RawPoint>): (outcomes: seq<Result<Point>>)
    ensures |outcomes| == |raws|
    ensures forall i {:trigger outcomes[i]} :: 0 <= i < |raws| ==> outcomes[i] == ConvertPoint(m, raws[i])
  {
    seq(|raws|, i requires 0 <= i < |raws| => ConvertPoint(m, raws[i]))
  }

  /** Yielding outcomes in order, stopping at the first failure. */
  function Collect(outcomes: seq<Result<Point>>): (s: Stream)
    ensures |s.points| <= |outcomes|
    ensures s.failure.None? ==> |s.points| == |outcomes|
    ensures forall i :: 0 <= i < |s.points| ==> outcomes[i] == Ok(s.points[i])
    ensures s.failure.Some? ==> |s.points| < |outcomes| && outcomes[|s.points|] == Err(s.failure.value)
  {
    if outcomes == [] then Stream([], None)
    else
      var prev := Collect(outcomes[..|outcomes| - 1]);
      if prev.failure.Some? then prev
      else match outcomes[|outcomes| - 1]
        case Ok(p) => Stream(prev.points + [p], None)
        case Err(e) => Stream(prev.points, Some(e))
  }

  /** One page: exactly one series is required (an AssertionError otherwise). */
  function PageStream(m: MetricDefinition, page: Page): Stream {
    if |page.timeSeries| != 1 then Stream([], Some(Assertion(SeriesCount(|page.timeSeries|))))
    else Collect(ConvertPoints(m, page.timeSeries[0].points))
  }

  /** What one response contributes: its stream, and whether the loop asks for another page. */
  datatype PageOutcome = PageOutcome(stream: Stream, continues: bool)

  function OutcomeOf(m: MetricDefinition, page: Page): (o: PageOutcome)
    ensures o.stream == PageStream(m, page)
    ensures o.continues <==> o.stream.failure.None? && HasNextPage(page)
  {
    var s := PageStream(m, page);
    PageOutcome(s, s.failure.None? && HasNextPage(page))
  }

  /** The outcome of each response, in order. */
  function Outcomes(m: MetricDefinition, pages: seq<Page>): (os: seq<PageOutcome>)
    ensures |os| == |pages|
    ensures forall i {:trigger os[i]} :: 0 <= i < |pages| ==> os[i] == OutcomeOf(m, pages[i])
  {
    seq(|pages|, i requires 0 <= i < |pages| => OutcomeOf(m, pages[i]))
  }

  /** The backend eventually answers with a page that ends the loop. */
  predicate Ends(os: seq<PageOutcome>)
    decreases |os|
  {
    os != [] && (!os[0].continues || Ends(os[1..]))
  }

  /** Number of pages requested: up to and including the first that ends the loop. */
  function PagesRequested(os: seq<PageOutcome>): (n: nat)
    requires Ends(os)
    ensures 1 <= n <= |os| && !os[n - 1].continues
    ensures forall i :: 0 <= i < n - 1 ==> os[i].continues
    decreases |os|
  {
    if !os[0].continues then 1 else 1 + PagesRequested(os[1..])
  }

  /** Everything the query yields, response after response. */
  function StreamPages(os: seq<PageOutcome>): Stream
    requires Ends(os)
    decreases |os|
  {
    if !os[0].continues then os[0].stream
    else
      var rest := StreamPages(os[1..]);
      Stream(os[0].stream.points + rest.points, rest.failure)
  }

  /** The concatenation of the pages' own points, in page order. */
  function ConcatPagePoints(os: seq<PageOutcome>): seq<Point> {
    if os == [] then []
    else ConcatPagePoints(os[..|os| - 1]) + os[|os| - 1].stream.points
  }

  lemma {:induction false} ConcatPagePointsCons(o: PageOutcome, rest: seq<PageOutcome>)
    ensures ConcatPagePoints([o] + rest) == o.stream.points + ConcatPagePoints(rest)
    decreases |rest|
  {
    if rest == [] {
      assert ([o] + rest)[..0] == [];
    } else {
      var all := [o] + rest;
      var init, last := rest[..|rest| - 1], rest[|rest| - 1];
      assert all[..|all| - 1] == [o] + init;
      assert all[|all| - 1] == last;
      ConcatPagePointsCons(o, init);
      assert ConcatPagePoints(all) == o.stream.points + ConcatPagePoints(init) + last.stream.points;
    }
  }

  /** Adding the next page's points. */
  lemma ConcatPagePointsSnoc(os: seq<PageOutcome>, i: nat)
    requires i < |os|
    ensures ConcatPagePoints(os[..i + 1]) == ConcatPagePoints(os[..i]) + os[i].stream.points
  {
    assert os[..i + 1][..i] == os[..i];
  }

  /**
   * The query yields the points of the pages it requests, in page order;
   * it fails exactly when the last requested page failed, after all points
   * before the failure were yielded.
   */
  lemma {:induction false} StreamPagesIsConcatenation(os: seq<PageOutcome>)
    requires Ends(os)
    ensures StreamPages(os).points == ConcatPagePoints(os[..PagesRequested(os)])
    ensures StreamPages(os).failure == os[PagesRequested(os) - 1].stream.failure
    decreases |os|
  {
    var n := PagesRequested(os);
    if !os[0].continues {
      assert os[..n] == [os[0]] + [];
      ConcatPagePointsCons(os[0], []);
    } else {
      StreamPagesIsConcatenation(os[1..]);
      assert os[..n] == [os[0]] + os[1..][..n - 1];
      ConcatPagePointsCons(os[0], os[1..][..n - 1]);
    }
  }

  /**
   * `query_gauge`: builds the filter, then pages through the backend's
   * responses, threading `nextPageToken`, until a page has a falsy token
   * or fails; all requests share the name, filter, page size and interval.
   * `pages[i]` is the response to the `i`-th request.
   */
  method QueryGauge(m: MetricDefinition, startTime: DateTime, endTime: DateTime,
                    environment: string, filters: seq<(string, string)>, pageSize: int,
                    projectId: string, pages: seq<Page>)
    returns (requests: seq<ListRequest>, result: Stream)
    requires Valid(startTime) && Valid(endTime)
    requires Ends(Outcomes(m, pages))
    ensures result == StreamPages(Outcomes(m, pages))
    ensures |requests| == PagesRequested(Outcomes(m, pages))
    ensures forall i :: 0 <= i < |requests| ==>
      requests[i] == RequestFor(ListRequest(GetMetricVars(m, projectId).projectResource,
                                            FilterString(GetMetricVars(m, projectId).metricType, environment, filters),
                                            pageSize, FormatRfc3339(startTime), FormatRfc3339(endTime), None),
                                pages, i)
  {
    var vars := GetMetricVars(m, projectId);
    var filter := BuildFilter(vars.metricType, environment, filters);
    var template := ListRequest(vars.projectResource, filter, pageSize,
                                FormatRfc3339(startTime), FormatRfc3339(endTime), None);
    requests, result := Paginate(m, template, pages);
  }

  /** The paging loop of `query_gauge`: every request is `template` with the previous page's token. */
  method Paginate(m: MetricDefinition, template: ListRequest, pages: seq<Page>)
    returns (requests: seq<ListRequest>, result: Stream)
    requires Ends(Outcomes(m, pages))
    ensures result == StreamPages(Outcomes(m, pages))
    ensures |requests| == PagesRequested(Outcomes(m, pages))
    ensures forall i :: 0 <= i < |requests| ==> requests[i] == RequestFor(template, pages, i)
  {
    ghost var os := Outcomes(m, pages);
    ghost var n := PagesRequested(os);
    var points: seq<Point> := [];
    var failure: Option<Error> := None;
    var nextPageToken: Option<string> := None;
    requests := [];
    var i := 0;
    var done := false;
    while !done
      invariant 0 <= i <= n
      invariant done <==> i == n
      invariant |requests| == i
      invariant forall j :: 0 <= j < i ==> requests[j] == RequestFor(template, pages, j)
      invariant nextPageToken == if i == 0 then None else pages[i - 1].nextPageToken
      invariant points == ConcatPagePoints(os[..i])
      invariant failure == if i == 0 then None else os[i - 1].stream.failure
      decreases n - i
    {
      RequestsSnoc(requests, template, pages, i, nextPageToken);
      requests := requests + [template.(pageToken := nextPageToken)];
      var pageResult, more := ReadResponse(m, pages, i);
      nextPageToken := pages[i].nextPageToken;
      ConcatPagePointsSnoc(os, i);
      points := points + pageResult.points;
      failure := pageResult.failure;
      i := i + 1;
      done := !more;
    }
    PaginateEnd(os, i, points, failure);
    result := Stream(points, failure);
  }

  /** The next request carries the token of the previous response. */
  lemma RequestsSnoc(requests: seq<ListRequest>, template: ListRequest, pages: seq<Page>, i: nat,
                     nextPageToken: Option<string>)
    requires i < |pages| && |requests| == i
    requires forall j :: 0 <= j < i ==> requests[j] == RequestFor(template, pages, j)
    requires nextPageToken == if i == 0 then None else pages[i - 1].nextPageToken
    ensures forall j :: 0 <= j < i + 1 ==>
      (requests + [template.(pageToken := nextPageToken)])[j] == RequestFor(template, pages, j)
  {
  }

  /** When the loop stops, the points and failure it kept are the query's stream. */
  lemma PaginateEnd(os: seq<PageOutcome>, i: nat, points: seq<Point>, failure: Option<Error>)
    requires Ends(os) && i == PagesRequested(os)
    requires points == ConcatPagePoints(os[..i])
    requires failure == if i == 0 then None else os[i - 1].stream.failure
    ensures Stream(points, failure) == StreamPages(os)
  {
    StreamPagesIsConcatenation(os);
  }

  /** The `i`-th request: the shared template, with the token of the previous response. */
  function RequestFor(template: ListRequest, pages: seq<Page>, i: nat): ListRequest
    requires i <= |pages|
  {
    template.(pageToken := if i == 0 then None else pages[i - 1].nextPageToken)
  }

  /** Reading the `i`-th response and deciding whether to ask for another. */
  method ReadResponse(m: MetricDefinition, pages: seq<Page>, i: nat) returns (pageResult: Stream, more: bool)
    requires i < |pages|
    ensures pageResult == Outcomes(m, pages)[i].stream
    ensures more == Outcomes(m, pages)[i].continues
  {
    var response := pages[i];
    pageResult := ReadPage(m, response);
    more := !(pageResult.failure.Some? || !HasNextPage(response));
  }

  /** The body of the paging loop for one response: the assertion, then the points in order. */
  method ReadPage(m: MetricDefinition, page: Page) returns (result: Stream)
    ensures result == PageStream(m, page)
  {
    if |page.timeSeries| != 1 {
      return Stream([], Some(Assertion(SeriesCount(|page.timeSeries|))));
    }
    var outcomes := ConvertPoints(m, page.timeSeries[0].points);
    var points: seq<Point> := [];
    var j := 0;
    while j < |outcomes|
      invariant 0 <= j <= |outcomes|
      invariant Collect(outcomes[..j]) == Stream(points, None)
    {
      assert outcomes[..j + 1][..j] == outcomes[..j];
      var p := ConvertPoint(m, page.timeSeries[0].points[j]);
      if p.Err? {
        CollectPrefixFailure(outcomes, j + 1);
        return Stream(points, Some(p.error));
      }
      points := points + [p.value];
      j := j + 1;
    }
    assert outcomes[..j] == outcomes;
    result := Stream(points, None);
  }

  /** Once a prefix fails, collecting the whole sequence fails the same way. */
  lemma {:induction false} CollectPrefixFailure(outcomes: seq<Result<Point>>, k: nat)
    requires k <= |outcomes|
    requires Collect(outcomes[..k]).failure.Some?
    ensures Collect(outcomes) == Collect(outcomes[..k])
    decreases |outcomes| - k
  {
    if k < |outcomes| {
      assert outcomes[..k + 1][..k] == outcomes[..k];
      CollectPrefixFailure(outcomes, k + 1);
    } else {
      assert outcomes[..k] == outcomes;
    }
  }
}
