/**
 * The result list every paper analyzer keeps and the summary it reports: the number of
 * analyses, their errors, and per-model and per-interface counts with a running average latency.
 */
module BaseAnalyzer {
  import opened Wrappers
  import opened Grouping

  /** One analysis result; `metrics` holds the numeric measurements by name. */
  datatype AnalysisResult = AnalysisResult(
    questionId: string,
    question: string,
    response: string,
    modelName: string,
    interfaceType: string,
    metrics: map<string, real>,
    timestamp: string,
    error: Option<string>)

  datatype ModelStats = ModelStats(count: int, errors: int, avgLatency: real)
  datatype InterfaceStats = InterfaceStats(count: int, errors: int)
  datatype MetricsSummary = MetricsSummary(
    totalAnalyses: int,
    errors: int,
    models: map<string, ModelStats>,
    interfaces: map<string, InterfaceStats>)

  function ModelName(r: AnalysisResult): string { r.modelName }
  function InterfaceType(r: AnalysisResult): string { r.interfaceType }

  /** `result.metrics.get('latency', 0)`. */
  function Latency(r: AnalysisResult): real {
    if "latency" in r.metrics then r.metrics["latency"] else 0.0
  }

  /** `r.error is not None`, the test of the top-level error count. */
  function HasErrorValue(r: AnalysisResult): bool { r.error.Some? }

  /** `if result.error:`, the test of the per-model and per-interface error counts. */
  function HasErrorMessage(r: AnalysisResult): bool { Truthy(r.error) }

  /** The statistics of one model's results. */
  function ModelStatsOf(rs: seq<AnalysisResult>): ModelStats {
    ModelStats(|rs|, |Where(rs, HasErrorMessage, true)|, Mean(Project(rs, Latency)))
  }

  function InterfaceStatsOf(rs: seq<AnalysisResult>): InterfaceStats {
    InterfaceStats(|rs|, |Where(rs, HasErrorMessage, true)|)
  }

  /** What `get_metrics_summary` reports for the results `rs`. */
  function SummaryOf(rs: seq<AnalysisResult>): MetricsSummary {
    MetricsSummary(
      |rs|,
      |Where(rs, HasErrorValue, true)|,
      ModelsOf(rs),
      InterfacesOf(rs))
  }

  /** The per-model table: one entry per model named by some result, holding the statistics of its results. */
  function ModelsOf(rs: seq<AnalysisResult>): map<string, ModelStats> {
    map m | m in Project(rs, ModelName) :: ModelStatsOf(Where(rs, ModelName, m))
  }

  /** The per-interface table. */
  function InterfacesOf(rs: seq<AnalysisResult>): map<string, InterfaceStats> {
    map i | i in Project(rs, InterfaceType) :: InterfaceStatsOf(Where(rs, InterfaceType, i))
  }

  /** One more result of a model: count and errors step up, and the average absorbs its latency. */
  lemma ModelStatsSnoc(rs: seq<AnalysisResult>, r: AnalysisResult, count: int, errors: int, avg: real)
    requires count == |rs| + 1
    requires errors == ModelStatsOf(rs).errors + (if HasErrorMessage(r) then 1 else 0)
    requires avg == RunningMean(ModelStatsOf(rs).avgLatency, count, Latency(r))
    ensures ModelStatsOf(rs + [r]) == ModelStats(count, errors, avg)
  {
    WhereSnoc(rs, r, HasErrorMessage, true);
    ProjectSnoc(rs, r, Latency);
    MeanSnoc(Project(rs, Latency), Latency(r));
  }

  /** A table with the model keys of `rs`, each holding the statistics of its group, is the per-model table. */
  lemma ModelsOfUnique(rs: seq<AnalysisResult>, models: map<string, ModelStats>)
    requires forall m :: m in models <==> m in Project(rs, ModelName)
    requires forall m :: m in models ==> models[m] == ModelStatsOf(Where(rs, ModelName, m))
    ensures models == ModelsOf(rs)
  {
    assert forall m :: m in models <==> m in ModelsOf(rs);
  }

  /** A table with the interface keys of `rs`, each holding the statistics of its group, is the per-interface table. */
  lemma InterfacesOfUnique(rs: seq<AnalysisResult>, interfaces: map<string, InterfaceStats>)
    requires forall i :: i in interfaces <==> i in Project(rs, InterfaceType)
    requires forall i :: i in interfaces ==> interfaces[i] == InterfaceStatsOf(Where(rs, InterfaceType, i))
    ensures interfaces == InterfacesOf(rs)
  {
    assert forall i :: i in interfaces <==> i in InterfacesOf(rs);
  }

  /** The entry the per-model loop reads for a result, or the fresh zero entry, is the statistics of its group so far. */
  lemma ModelEntry(rs: seq<AnalysisResult>, k: string, models: map<string, ModelStats>)
    requires forall m :: m in models <==> m in Project(rs, ModelName)
    requires forall m :: m in models ==> models[m] == ModelStatsOf(Where(rs, ModelName, m))
    ensures (if k in models then models[k] else ModelStats(0, 0, 0.0)) == ModelStatsOf(Where(rs, ModelName, k))
  {
    if k !in models {
      WhereAbsent(rs, ModelName, k);
    }
  }

  /** One step of the per-model loop: the result's model entry counts it, its error if any, and folds its latency into the mean. */
  lemma ModelStep(rs: seq<AnalysisResult>, r: AnalysisResult, models: map<string, ModelStats>,
                  stats: ModelStats, next: ModelStats, models': map<string, ModelStats>)
    requires forall m :: m in models <==> m in Project(rs, ModelName)
    requires forall m :: m in models ==> models[m] == ModelStatsOf(Where(rs, ModelName, m))
    requires stats == ModelStatsOf(Where(rs, ModelName, r.modelName))
    requires next.count == stats.count + 1 && next.errors == stats.errors + (if HasErrorMessage(r) then 1 else 0)
    requires next.avgLatency == RunningMean(stats.avgLatency, next.count, Latency(r))
    requires models' == models[r.modelName := next]
    ensures forall m :: m in models' <==> m in Project(rs + [r], ModelName)
    ensures forall m :: m in models' ==> models'[m] == ModelStatsOf(Where(rs + [r], ModelName, m))
  {
    var k := r.modelName;
    ModelStatsSnoc(Where(rs, ModelName, k), r, next.count, next.errors, next.avgLatency);
    ProjectSnoc(rs, r, ModelName);
    forall m ensures m in models' <==> m in Project(rs + [r], ModelName) {
      assert m in Project(rs, ModelName) + [k] <==> m in Project(rs, ModelName) || m == k;
    }
    forall m | m in models' ensures models'[m] == ModelStatsOf(Where(rs + [r], ModelName, m)) {
      WhereSnoc(rs, r, ModelName, m);
      if m != k {
        assert Where(rs + [r], ModelName, m) == Where(rs, ModelName, m);
      }
    }
  }

  /** The entry the per-interface loop reads for a result, or the fresh zero entry, is the statistics of its group so far. */
  lemma InterfaceEntry(rs: seq<AnalysisResult>, k: string, interfaces: map<string, InterfaceStats>)
    requires forall i :: i in interfaces <==> i in Project(rs, InterfaceType)
    requires forall i :: i in interfaces ==> interfaces[i] == InterfaceStatsOf(Where(rs, InterfaceType, i))
    ensures (if k in interfaces then interfaces[k] else InterfaceStats(0, 0)) == InterfaceStatsOf(Where(rs, InterfaceType, k))
  {
    if k !in interfaces {
      WhereAbsent(rs, InterfaceType, k);
    }
  }

  /** One step of the per-interface loop: the result's interface entry counts it, and its error if any. */
  lemma InterfaceStep(rs: seq<AnalysisResult>, r: AnalysisResult, interfaces: map<string, InterfaceStats>,
                      stats: InterfaceStats, interfaces': map<string, InterfaceStats>)
    requires forall i :: i in interfaces <==> i in Project(rs, InterfaceType)
    requires forall i :: i in interfaces ==> interfaces[i] == InterfaceStatsOf(Where(rs, InterfaceType, i))
    requires stats == InterfaceStatsOf(Where(rs, InterfaceType, r.interfaceType))
    requires interfaces' == interfaces[r.interfaceType := InterfaceStats(stats.count + 1, stats.errors + (if HasErrorMessage(r) then 1 else 0))]
    ensures forall i :: i in interfaces' <==> i in Project(rs + [r], InterfaceType)
    ensures forall i :: i in interfaces' ==> interfaces'[i] == InterfaceStatsOf(Where(rs + [r], InterfaceType, i))
  {
    var k := r.interfaceType;
    WhereSnoc(Where(rs, InterfaceType, k), r, HasErrorMessage, true);
    assert interfaces'[k] == InterfaceStatsOf(Where(rs, InterfaceType, k) + [r]);
    ProjectSnoc(rs, r, InterfaceType);
    forall i ensures i in interfaces' <==> i in Project(rs + [r], InterfaceType) {
      assert i in Project(rs, InterfaceType) + [k] <==> i in Project(rs, InterfaceType) || i == k;
    }
    forall i | i in interfaces' ensures interfaces'[i] == InterfaceStatsOf(Where(rs + [r], InterfaceType, i)) {
      WhereSnoc(rs, r, InterfaceType, i);
      if i != k {
        assert Where(rs + [r], InterfaceType, i) == Where(rs, InterfaceType, i);
      }
    }
  }

  /** The per-model loop of `get_metrics_summary`: one entry per model, with its count, errors and running average latency. */
  method ModelTable(rs: seq<AnalysisResult>) returns (models: map<string, ModelStats>)
    ensures models == ModelsOf(rs)
  {
    models := map[];
    ghost var seen: seq<AnalysisResult> := [];
    for i := 0 to |rs|
      invariant seen == rs[..i]
      invariant forall m :: m in models <==> m in Project(seen, ModelName)
      invariant forall m :: m in models ==> models[m] == ModelStatsOf(Where(seen, ModelName, m))
    {
      var r := rs[i];
      ghost var models0 := models;
      if r.modelName !in models {
        models := models[r.modelName := ModelStats(0, 0, 0.0)];
      }
      var stats := models[r.modelName];
      ModelEntry(seen, r.modelName, models0);
      var count := stats.count + 1;
      var errors := stats.errors + (if HasErrorMessage(r) then 1 else 0);
      var avg := RunningMean(stats.avgLatency, count, Latency(r));
      var next := ModelStats(count, errors, avg);
      models := models[r.modelName := next];
      ModelStep(seen, r, models0, stats, next, models);
      PrefixSnoc(rs, i);
      seen := seen + [r];
    }
    assert seen == rs;
    ModelsOfUnique(rs, models);
  }

  /** The per-interface loop of `get_metrics_summary`: one entry per interface, with its count and errors. */
  method InterfaceTable(rs: seq<AnalysisResult>) returns (interfaces: map<string, InterfaceStats>)
    ensures interfaces == InterfacesOf(rs)
  {
    interfaces := map[];
    ghost var seen: seq<AnalysisResult> := [];
    for i := 0 to |rs|
      invariant seen == rs[..i]
      invariant forall k :: k in interfaces <==> k in Project(seen, InterfaceType)
      invariant forall k :: k in interfaces ==> interfaces[k] == InterfaceStatsOf(Where(seen, InterfaceType, k))
    {
      var r := rs[i];
      ghost var interfaces0 := interfaces;
      if r.interfaceType !in interfaces {
        interfaces := interfaces[r.interfaceType := InterfaceStats(0, 0)];
      }
      var stats := interfaces[r.interfaceType];
      InterfaceEntry(seen, r.interfaceType, interfaces0);
      interfaces := interfaces[r.interfaceType := InterfaceStats(stats.count + 1, stats.errors + (if HasErrorMessage(r) then 1 else 0))];
      InterfaceStep(seen, r, interfaces0, stats, interfaces);
      PrefixSnoc(rs, i);
      seen := seen + [r];
    }
    assert seen == rs;
    InterfacesOfUnique(rs, interfaces);
  }
  class BasePaperAnalyzer {
    var results: seq<AnalysisResult>

    /** A new analyzer has no results. */
    constructor()
      ensures results == []
    {
      results := [];
    }

    /** `get_metrics_summary`: the top-level counts, then one loop per model and one per interface. */
    method GetMetricsSummary() returns (s: MetricsSummary)
      ensures s == SummaryOf(results)
    {
      var models := ModelTable(results);
      var interfaces := InterfaceTable(results);
      s := MetricsSummary(|results|, |Where(results, HasErrorValue, true)|, models, interfaces);
    }
  }

  /** The sum of the per-model counts over the keys `ks`. */
  function ModelCountSum(ks: seq<string>, models: map<string, ModelStats>): int {
    if ks == [] then 0
    else ModelCountSum(ks[..|ks| - 1], models) + (if ks[|ks| - 1] in models then models[ks[|ks| - 1]].count else 0)
  }

  /** The sum of the per-interface counts over the keys `ks`. */
  function InterfaceCountSum(ks: seq<string>, interfaces: map<string, InterfaceStats>): int {
    if ks == [] then 0
    else InterfaceCountSum(ks[..|ks| - 1], interfaces) + (if ks[|ks| - 1] in interfaces then interfaces[ks[|ks| - 1]].count else 0)
  }

  lemma {:induction false} ModelCountSumIsGroupSizes(ks: seq<string>, rs: seq<AnalysisResult>, models: map<string, ModelStats>)
    requires forall m :: m in models <==> m in Project(rs, ModelName)
    requires forall m :: m in models ==> models[m].count == |Where(rs, ModelName, m)|
    ensures ModelCountSum(ks, models) == GroupSizes(ks, rs, ModelName)
  {
    if ks != [] {
      var k := ks[|ks| - 1];
      ModelCountSumIsGroupSizes(ks[..|ks| - 1], rs, models);
      if k !in models {
        WhereAbsent(rs, ModelName, k);
      }
    }
  }

  lemma {:induction false} InterfaceCountSumIsGroupSizes(ks: seq<string>, rs: seq<AnalysisResult>, interfaces: map<string, InterfaceStats>)
    requires forall i :: i in interfaces <==> i in Project(rs, InterfaceType)
    requires forall i :: i in interfaces ==> interfaces[i].count == |Where(rs, InterfaceType, i)|
    ensures InterfaceCountSum(ks, interfaces) == GroupSizes(ks, rs, InterfaceType)
  {
    if ks != [] {
      var k := ks[|ks| - 1];
      InterfaceCountSumIsGroupSizes(ks[..|ks| - 1], rs, interfaces);
      if k !in interfaces {
        WhereAbsent(rs, InterfaceType, k);
      }
    }
  }

  /** The per-model counts, and the per-interface counts, each add up to the number of analyses. */
  lemma CountsAddUp(rs: seq<AnalysisResult>)
    ensures ModelCountSum(GroupKeys(rs, ModelName), SummaryOf(rs).models) == SummaryOf(rs).totalAnalyses
    ensures InterfaceCountSum(GroupKeys(rs, InterfaceType), SummaryOf(rs).interfaces) == SummaryOf(rs).totalAnalyses
  {
    var s := SummaryOf(rs);
    PartitionCount(rs, ModelName);
    PartitionCount(rs, InterfaceType);
    ModelCountSumIsGroupSizes(GroupKeys(rs, ModelName), rs, s.models);
    InterfaceCountSumIsGroupSizes(GroupKeys(rs, InterfaceType), rs, s.interfaces);
  }

  /** A model appears in the summary exactly when some result names it. */
  lemma SummaryModels(rs: seq<AnalysisResult>, m: string)
    ensures m in SummaryOf(rs).models <==> exists i :: 0 <= i < |rs| && rs[i].modelName == m
  {
    if exists i :: 0 <= i < |rs| && rs[i].modelName == m {
      var i :| 0 <= i < |rs| && rs[i].modelName == m;
      assert Project(rs, ModelName)[i] == m;
    }
  }

  /**
   * A result whose error is the empty string counts as an error at the top level, which tests
   * `is not None`, but not for its model or interface, which test truthiness.
   */
  lemma EmptyErrorCountsOnlyAtTop(r: AnalysisResult)
    requires r.error == Some("")
    ensures SummaryOf([r]).errors == 1
    ensures r.modelName in SummaryOf([r]).models && SummaryOf([r]).models[r.modelName].errors == 0
    ensures r.interfaceType in SummaryOf([r]).interfaces && SummaryOf([r]).interfaces[r.interfaceType].errors == 0
  {
    assert [r][..0] == [];
    assert Where([r], HasErrorValue, true) == [r];
    assert Where([r], HasErrorMessage, true) == [];
    assert Project([r], ModelName) == [r.modelName];
    assert Project([r], InterfaceType) == [r.interfaceType];
    assert Where([r], ModelName, r.modelName) == [r];
    assert Where([r], InterfaceType, r.interfaceType) == [r];
  }

  /**
   * Per-model averages: a model in the summary's per-model table `models` has at least one
   * result, and its average latency times its count is the sum of its results' latencies, a
   * missing latency counting as 0.
   */
  lemma {:induction false} ModelLatencyTotal(rs: seq<AnalysisResult>, m: string, models: map<string, ModelStats>)
    requires models == SummaryOf(rs).models && m in models
    ensures models[m].count >= 1
    ensures models[m].avgLatency * (models[m].count as real) == SumReal(Project(Where(rs, ModelName, m), Latency))
  {
    ModelsEntry(rs, m);
    StatsEntryLatency(models, m, Where(rs, ModelName, m));
  }

  /** A model of the per-model table has a non-empty group, and its entry is that group's statistics. */
  lemma ModelsEntry(rs: seq<AnalysisResult>, m: string)
    requires m in ModelsOf(rs)
    ensures Where(rs, ModelName, m) != []
    ensures ModelsOf(rs)[m] == ModelStatsOf(Where(rs, ModelName, m))
  {
    var i :| 0 <= i < |rs| && Project(rs, ModelName)[i] == m;
    WhereMember(rs, i, ModelName);
  }

  /** An entry holding the statistics of a non-empty group: its average times its count is the group's summed latency. */
  lemma StatsEntryLatency(models: map<string, ModelStats>, m: string, g: seq<AnalysisResult>)
    requires m in models && g != [] && models[m] == ModelStatsOf(g)
    ensures models[m].count >= 1
    ensures models[m].avgLatency * (models[m].count as real) == SumReal(Project(g, Latency))
  {
    EntryLatencyTotal(models, m, Project(g, Latency));
  }

  /** A table entry holding the mean of non-empty latencies: its average times its count is their sum. */
  lemma EntryLatencyTotal(models: map<string, ModelStats>, m: string, latencies: seq<real>)
    requires m in models && latencies != []
    requires models[m].avgLatency == Mean(latencies) && models[m].count == |latencies|
    ensures models[m].count >= 1
    ensures models[m].avgLatency * (models[m].count as real) == SumReal(latencies)
  {
    MeanTimesCount(latencies, models[m].count);
  }
}
