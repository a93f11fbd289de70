/**
 * The performance ledger: one metric per model call, with success rates and error
 * distributions, overall or grouped by model, interface or analysis type.
 * Response times are exact `real`s; the clock is a parameter of `AddMetric`.
 */
module Metrics {
  import opened Wrappers
  import opened Grouping

  datatype PerformanceMetric = PerformanceMetric(
    timestamp: string,
    model: string,
    interfaceType: string,
    analysisType: string,
    responseTime: real,
    tokenCount: int,
    success: bool,
    error: Option<string>,
    contextLength: Option<int>,
    chunksUsed: Option<int>,
    responseLength: Option<int>)

  /** The string fields a getter can group by (`getattr(metric, group_by)`). */
  datatype Field = ByModel | ByInterface | ByAnalysis

  function ModelOf(m: PerformanceMetric): string { m.model }
  function InterfaceOf(m: PerformanceMetric): string { m.interfaceType }
  function AnalysisOf(m: PerformanceMetric): string { m.analysisType }

  function KeyOf(f: Field): PerformanceMetric -> string {
    match f
    case ByModel => ModelOf
    case ByInterface => InterfaceOf
    case ByAnalysis => AnalysisOf
  }

  function Succeeded(m: PerformanceMetric): bool { m.success }

  /** `sum(successes)` over a list of booleans. */
  function TrueCount(bs: seq<bool>): (n: nat)
    ensures n <= |bs|
  {
    if bs == [] then 0 else TrueCount(bs[..|bs| - 1]) + (if bs[|bs| - 1] then 1 else 0)
  }

  /** `(sum(successes) / len(successes)) * 100`; the source never applies it to an empty list. */
  function Rate(bs: seq<bool>): real {
    if bs == [] then 0.0 else (TrueCount(bs) as real / |bs| as real) * 100.0
  }

  /** What `get_success_rate` returns. */
  function SuccessRates(ms: seq<PerformanceMetric>, groupBy: Option<Field>): map<string, real> {
    if ms == [] then map[]
    else match groupBy
      case None => map["overall" := Rate(Project(ms, Succeeded))]
      case Some(f) =>
        var key := KeyOf(f);
        map g | g in GroupKeys(ms, key) :: Rate(Project(Where(ms, key, g), Succeeded))
  }

  /** `if m.error:` — the metrics that carry a non-empty error message. */
  function HasError(m: PerformanceMetric): bool { Truthy(m.error) }

  function ErrorText(m: PerformanceMetric): string {
    if m.error.Some? then m.error.value else ""
  }

  function Errored(ms: seq<PerformanceMetric>): seq<PerformanceMetric> {
    Where(ms, HasError, true)
  }

  /** What `count_errors` returns: for every error message, how many metrics carry it. */
  function ErrorCounts(ms: seq<PerformanceMetric>): map<string, int> {
    map e | e in Project(Errored(ms), ErrorText) :: |Where(Errored(ms), ErrorText, e)|
  }

  /** What `get_error_distribution` returns. */
  function ErrorDistribution(ms: seq<PerformanceMetric>, groupBy: Option<Field>): map<string, map<string, int>> {
    if ms == [] then map[]
    else match groupBy
      case None => map["overall" := ErrorCounts(ms)]
      case Some(f) =>
        var key := KeyOf(f);
        map g | g in GroupKeys(ms, key) :: ErrorCounts(Where(ms, key, g))
  }

  function Id(m: PerformanceMetric): PerformanceMetric { m }

  /** One step of `count_errors`'s loop over metrics that have an error. */
  lemma CountStep(es: seq<PerformanceMetric>, m: PerformanceMetric, counts: map<string, int>, n: int, counts': map<string, int>)
    requires forall e :: e in counts <==> e in Project(es, ErrorText)
    requires forall e :: e in counts ==> counts[e] == |Where(es, ErrorText, e)|
    requires n == (if ErrorText(m) in counts then counts[ErrorText(m)] else 0) + 1
    requires counts' == counts[ErrorText(m) := n]
    ensures forall e :: e in counts' <==> e in Project(es + [m], ErrorText)
    ensures forall e :: e in counts' ==> counts'[e] == |Where(es + [m], ErrorText, e)|
  {
    var k := ErrorText(m);
    ProjectSnoc(es, m, ErrorText);
    if k !in counts {
      WhereAbsent(es, ErrorText, k);
    }
    forall e ensures e in counts' <==> e in Project(es + [m], ErrorText) {
      assert e in Project(es, ErrorText) + [k] <==> e in Project(es, ErrorText) || e == k;
    }
    forall e | e in counts' ensures counts'[e] == |Where(es + [m], ErrorText, e)| {
      WhereSnoc(es, m, ErrorText, e);
    }
  }

  /** A table holding, for the keys `ks`, each message's count among `es` is the count of `es`'s messages over those keys. */
  lemma CountTableIsCounts(es: seq<PerformanceMetric>, ks: seq<string>, counts: map<string, int>)
    requires forall e :: e in counts <==> e in ks
    requires forall e :: e in counts ==> counts[e] == |Where(es, ErrorText, e)|
    ensures counts == map e | e in ks :: |Where(es, ErrorText, e)|
  {
  }

  /** `count_errors`: a dict counting each non-empty error message. */
  method CountErrors(ms: seq<PerformanceMetric>) returns (counts: map<string, int>)
    ensures counts == ErrorCounts(ms)
  {
    counts := map[];
    ghost var errs: seq<PerformanceMetric> := [];
    for i := 0 to |ms|
      invariant errs == Errored(ms[..i])
      invariant forall e :: e in counts <==> e in Project(errs, ErrorText)
      invariant forall e :: e in counts ==> counts[e] == |Where(errs, ErrorText, e)|
    {
      var m := ms[i];
      PrefixSnoc(ms, i);
      WhereSnoc(ms[..i], m, HasError, true);
      if HasError(m) {
        ghost var counts0 := counts;
        var n := (if ErrorText(m) in counts then counts[ErrorText(m)] else 0) + 1;
        counts := counts[ErrorText(m) := n];
        CountStep(errs, m, counts0, n, counts);
        errs := errs + [m];
      }
    }
    PrefixFull(ms);
    CountTableIsCounts(errs, Project(errs, ErrorText), counts);
  }

  /** The grouped branch of `get_error_distribution`: group the metrics, then count each group's errors. */
  method CountErrorsByGroup(ms: seq<PerformanceMetric>, key: PerformanceMetric -> string) returns (dist: map<string, map<string, int>>)
    ensures forall g :: g in dist <==> g in GroupKeys(ms, key)
    ensures forall g :: g in dist ==> dist[g] == ErrorCounts(Where(ms, key, g))
  {
    var order, groups := GroupBy(ms, key, Id);
    dist := CountEachGroup(ms, key, order, groups);
  }

  /** One iteration of the loop over the groups keeps its invariant. */
  lemma CountEachStep(ms: seq<PerformanceMetric>, key: PerformanceMetric -> string, order: seq<string>, i: nat,
                      dist: map<string, map<string, int>>, dist': map<string, map<string, int>>)
    requires i < |order|
    requires forall g :: g in dist <==> g in order[..i]
    requires forall g :: g in dist ==> dist[g] == ErrorCounts(Where(ms, key, g))
    requires dist' == dist[order[i] := ErrorCounts(Where(ms, key, order[i]))]
    ensures forall g :: g in dist' <==> g in order[..i + 1]
    ensures forall g :: g in dist' ==> dist'[g] == ErrorCounts(Where(ms, key, g))
  {
    PrefixSnoc(order, i);
  }

  /** The loop over `groups.items()` that counts the errors of each group. */
  method CountEachGroup(ms: seq<PerformanceMetric>, key: PerformanceMetric -> string, order: seq<string>, groups: map<string, seq<PerformanceMetric>>)
    returns (dist: map<string, map<string, int>>)
    requires forall k :: k in groups <==> k in order
    requires forall k :: k in groups ==> groups[k] == Project(Where(ms, key, k), Id)
    ensures forall g :: g in dist <==> g in order
    ensures forall g :: g in dist ==> dist[g] == ErrorCounts(Where(ms, key, g))
  {
    dist := map[];
    for i := 0 to |order|
      invariant forall g :: g in dist <==> g in order[..i]
      invariant forall g :: g in dist ==> dist[g] == ErrorCounts(Where(ms, key, g))
    {
      var g := order[i];
      ProjectId(Where(ms, key, g));
      var counts := CountErrors(groups[g]);
      ghost var dist0 := dist;
      dist := dist[g := counts];
      CountEachStep(ms, key, order, i, dist0, dist);
    }
    assert order[..|order|] == order;
  }

  lemma {:induction false} ProjectId(xs: seq<PerformanceMetric>)
    ensures Project(xs, Id) == xs
  {
    if xs != [] {
      ProjectId(xs[..|xs| - 1]);
    }
  }

  /** Rates taken over grouped successes are the rates of the groups, for any list `ks` of the group keys. */
  lemma RateMapEqual(ms: seq<PerformanceMetric>, key: PerformanceMetric -> string, ks: seq<string>, groups: map<string, seq<bool>>)
    requires forall k :: k in groups <==> k in ks
    requires forall k :: k in groups ==> groups[k] == Project(Where(ms, key, k), Succeeded)
    ensures (map g | g in groups :: Rate(groups[g])) == map g | g in ks :: Rate(Project(Where(ms, key, g), Succeeded))
  {
  }

  /** The grouped branch of `get_success_rate`: group the successes by the field, then one rate per group. */
  method RatesByGroup(ms: seq<PerformanceMetric>, key: PerformanceMetric -> string) returns (rates: map<string, real>)
    ensures rates == map g | g in GroupKeys(ms, key) :: Rate(Project(Where(ms, key, g), Succeeded))
  {
    var order, groups := GroupBy(ms, key, Succeeded);
    rates := map g | g in groups :: Rate(groups[g]);
    RateMapEqual(ms, key, GroupKeys(ms, key), groups);
  }

  class MetricsTracker {
    var metrics: seq<PerformanceMetric>

    constructor()
      ensures metrics == []
    {
      metrics := [];
    }

    /** `add_metric`: appends exactly one metric carrying the given fields; nothing else changes. */
    method AddMetric(model: string, interfaceType: string, analysisType: string, responseTime: real, tokenCount: int,
                     success: bool, error: Option<string>, contextLength: Option<int>, chunksUsed: Option<int>,
                     responseLength: Option<int>, timestamp: string)
      modifies this
      ensures metrics == old(metrics) + [PerformanceMetric(timestamp, model, interfaceType, analysisType, responseTime,
        tokenCount, success, error, contextLength, chunksUsed, responseLength)]
    {
      var metric := PerformanceMetric(timestamp, model, interfaceType, analysisType, responseTime,
                                      tokenCount, success, error, contextLength, chunksUsed, responseLength);
      metrics := metrics + [metric];
    }

    /** `get_success_rate`: `{}` with no metrics, else the overall rate or one rate per group. */
    method GetSuccessRate(groupBy: Option<Field>) returns (rates: map<string, real>)
      ensures rates == SuccessRates(metrics, groupBy)
    {
      if |metrics| == 0 {
        return map[];
      }
      match groupBy {
        case None =>
          rates := map["overall" := Rate(Project(metrics, Succeeded))];
        case Some(f) =>
          rates := RatesByGroup(metrics, KeyOf(f));
      }
    }

    /** `get_error_distribution`: `{}` with no metrics, else the error counts overall or per group. */
    method GetErrorDistribution(groupBy: Option<Field>) returns (dist: map<string, map<string, int>>)
      ensures dist == ErrorDistribution(metrics, groupBy)
    {
      if |metrics| == 0 {
        return map[];
      }
      match groupBy {
        case None =>
          var counts := CountErrors(metrics);
          dist := map["overall" := counts];
        case Some(f) =>
          dist := CountErrorsByGroup(metrics, KeyOf(f));
      }
    }

    /** `reset`. */
    method Reset()
      modifies this
      ensures metrics == []
    {
      metrics := [];
    }
  }

  /** The successes counted by `sum(successes)` are the metrics whose `success` is set. */
  lemma {:induction false} TrueCountWhere(ms: seq<PerformanceMetric>)
    ensures TrueCount(Project(ms, Succeeded)) == |Where(ms, Succeeded, true)|
  {
    if ms != [] {
      var init := ms[..|ms| - 1];
      TrueCountWhere(init);
      assert Project(ms, Succeeded)[..|ms| - 1] == Project(init, Succeeded);
    }
  }

  /**
   * Grouped success rates: one key per distinct field value, each 100 times the share of
   * successful metrics in that group; every rate lies between 0 and 100.
   */
  lemma GroupedSuccessRate(ms: seq<PerformanceMetric>, f: Field, g: string)
    requires ms != []
    ensures g in SuccessRates(ms, Some(f)) <==> exists i :: 0 <= i < |ms| && KeyOf(f)(ms[i]) == g
    ensures g in SuccessRates(ms, Some(f)) ==>
      |Where(ms, KeyOf(f), g)| > 0 &&
      SuccessRates(ms, Some(f))[g] == (|Where(Where(ms, KeyOf(f), g), Succeeded, true)| as real / |Where(ms, KeyOf(f), g)| as real) * 100.0 &&
      0.0 <= SuccessRates(ms, Some(f))[g] <= 100.0
  {
    var key := KeyOf(f);
    GroupKeysMembers(ms, key, g);
    if g in GroupKeys(ms, key) {
      var group := Where(ms, key, g);
      TrueCountWhere(group);
      RateBounds(Project(group, Succeeded));
      assert SuccessRates(ms, Some(f))[g] == Rate(Project(group, Succeeded));
    }
  }

  lemma RateBounds(bs: seq<bool>)
    ensures 0.0 <= Rate(bs) <= 100.0
  {
    if bs != [] {
      RatioBounds(TrueCount(bs) as real, |bs| as real);
    }
  }

  lemma RatioBounds(a: real, n: real)
    requires 0.0 <= a <= n && n > 0.0
    ensures 0.0 <= a / n <= 1.0
  {
    assert a / n * n == a;
  }

  /** The overall rate is 100 times the share of successful metrics. */
  lemma OverallSuccessRate(ms: seq<PerformanceMetric>)
    requires ms != []
    ensures SuccessRates(ms, None).Keys == {"overall"}
    ensures SuccessRates(ms, None)["overall"] == (|Where(ms, Succeeded, true)| as real / |ms| as real) * 100.0
  {
    TrueCountWhere(ms);
  }

  /**
   * The error counts cover only metrics with a non-empty error: the keys are exactly their
   * messages, and the counts add up to the number of such metrics.
   */
  lemma ErrorCountsCoverErrored(ms: seq<PerformanceMetric>, e: string)
    ensures e in ErrorCounts(ms) <==> exists i :: 0 <= i < |ms| && ms[i].error == Some(e) && e != ""
    ensures GroupSizes(GroupKeys(Errored(ms), ErrorText), Errored(ms), ErrorText) == |Errored(ms)|
  {
    PartitionCount(Errored(ms), ErrorText);
    ErroredMembers(ms, e);
  }

  lemma ErroredMembers(ms: seq<PerformanceMetric>, e: string)
    ensures e in Project(Errored(ms), ErrorText) <==> exists i :: 0 <= i < |ms| && ms[i].error == Some(e) && e != ""
  {
    ProjectWhereMembers(ms, HasError, true, ErrorText, e);
    if exists i :: 0 <= i < |ms| && HasError(ms[i]) == true && ErrorText(ms[i]) == e {
      var i :| 0 <= i < |ms| && HasError(ms[i]) == true && ErrorText(ms[i]) == e;
      assert ms[i].error == Some(e) && e != "";
    }
    if exists i :: 0 <= i < |ms| && ms[i].error == Some(e) && e != "" {
      var i :| 0 <= i < |ms| && ms[i].error == Some(e) && e != "";
      assert HasError(ms[i]) == true && ErrorText(ms[i]) == e;
    }
  }

  /** Grouped distributions partition the metrics by the field before counting: group sizes add up to all metrics. */
  lemma GroupedErrorDistribution(ms: seq<PerformanceMetric>, f: Field, g: string)
    requires ms != []
    ensures g in ErrorDistribution(ms, Some(f)) <==> g in GroupKeys(ms, KeyOf(f))
    ensures g in ErrorDistribution(ms, Some(f)) ==> ErrorDistribution(ms, Some(f))[g] == ErrorCounts(Where(ms, KeyOf(f), g))
    ensures GroupSizes(GroupKeys(ms, KeyOf(f)), ms, KeyOf(f)) == |ms|
  {
    PartitionCount(ms, KeyOf(f));
  }
}
