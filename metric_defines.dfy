/** The three gauges the scanner writes and the overview reads (techsubs/metrics/metric_defines.py). */
module MetricDefines {
  import opened Common
  import opened Metrics

  /** The one extra label every defined metric carries. */
  const SUBREDDIT_LABEL: LabelDefinition :=
    LabelDefinition("subreddit", "STRING", "The sub-Reddit being tracked.")

  const SUBREDDIT_SUBSCRIBERS: MetricDefinition := MetricDefinition(
    "subreddit.subscribers.count", "Total Subscribers",
    "Total number of subscribers per sub-Reddit.", Gauge, Int64, [SUBREDDIT_LABEL])

  const SUBREDDIT_ACCOUNTS_ACTIVE: MetricDefinition := MetricDefinition(
    "subreddit.accounts.active.count", "Currently Active Accounts",
    "Currently Active Accounts per sub-Reddit.", Gauge, Int64, [SUBREDDIT_LABEL])

  const SUBREDDIT_NEW_POST_COUNT: MetricDefinition := MetricDefinition(
    "subreddit.posts.new.count", "New Posts",
    "Daily totals of new posts per sub-Reddit.", Gauge, Int64, [SUBREDDIT_LABEL])

  const DEFINED_METRICS: seq<MetricDefinition> :=
    [SUBREDDIT_SUBSCRIBERS, SUBREDDIT_ACCOUNTS_ACTIVE, SUBREDDIT_NEW_POST_COUNT]

  /** `get_subreddit_metric_labels`: the labels every write and query of these metrics uses. */
  function SubredditLabels(name: string): (labels: map<string, string>)
    ensures labels.Keys == {"subreddit"} && labels["subreddit"] == name
  {
    map["subreddit" := name]
  }

  /** The metric names, hence the metric types, are pairwise distinct. */
  lemma DefinedMetricNamesDistinct(projectId: string)
    ensures forall i, j :: 0 <= i < j < |DEFINED_METRICS| ==> DEFINED_METRICS[i].name != DEFINED_METRICS[j].name
    ensures forall i, j :: 0 <= i < j < |DEFINED_METRICS| ==>
      GetMetricVars(DEFINED_METRICS[i], projectId).metricType != GetMetricVars(DEFINED_METRICS[j], projectId).metricType
  {
    var p := "custom.googleapis.com/";
    forall i, j | 0 <= i < j < |DEFINED_METRICS|
      ensures DEFINED_METRICS[i].name != DEFINED_METRICS[j].name
      ensures GetMetricVars(DEFINED_METRICS[i], projectId).metricType != GetMetricVars(DEFINED_METRICS[j], projectId).metricType
    {
      var a := DEFINED_METRICS[i].name;
      var b := DEFINED_METRICS[j].name;
      assert a[10] != b[10] || a[11] != b[11];
      assert (p + a)[|p| + 10] == a[10] && (p + a)[|p| + 11] == a[11];
      assert (p + b)[|p| + 10] == b[10] && (p + b)[|p| + 11] == b[11];
    }
  }

  /**
   * Every defined metric is an INT64 gauge: the typed-value dispatch and the
   * cast of an integer never fail for it, and its descriptor's labels are
   * `environment` then `subreddit`.
   */
  lemma DefinedMetricsAreIntGauges(m: MetricDefinition, v: int, projectId: string)
    requires m in DEFINED_METRICS
    ensures m.kind == Gauge
    ensures TypedValueKey(m) == Ok("int64Value")
    ensures CastValue(m, PyValues.IntScalar(v)) == Ok(v)
    ensures LabelKeys(CreateMetric(m, projectId).descriptor.labels) == ["environment", "subreddit"]
  {
    assert LabelKeys(m.extraLabels) == ["subreddit"];
  }

  /**
   * `{'subreddit': name}` always passes validation for the defined metrics;
   * leaving the labels out is rejected, naming exactly `subreddit`.
   */
  lemma SubredditLabelsValidate(m: MetricDefinition, name: string)
    requires m in DEFINED_METRICS
    ensures ValidateLabels(m, Some(SubredditLabels(name))).Ok?
    ensures ValidateLabels(m, None) == Err(MissingLabelValues({"subreddit"}))
  {
    assert m.extraLabels[0].key == "subreddit";
    var r := ValidateLabels(m, None);
    assert r.Err?;
    assert r.error.missing == {"subreddit"};
  }
}
