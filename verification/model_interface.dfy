/**
 * The usage counters every model client keeps: requests, tokens, errors and the running
 * average latency, updated once per response.
 */
module ModelInterface {
  import opened Wrappers
  import opened Grouping

  /** A model reply. The timestamp and the free-form metadata are not modelled. */
  datatype ModelResponse = ModelResponse(content: string, usage: map<string, int>, latency: real, error: Option<string>)

  /** `usage.get('total_tokens', 0)`. */
  function UsageTokens(usage: map<string, int>): int {
    if "total_tokens" in usage then usage["total_tokens"] else 0
  }

  datatype Metrics = Metrics(totalTokens: int, totalRequests: int, totalErrors: int, averageLatency: real)

  const InitialMetrics := Metrics(0, 0, 0, 0.0)

  function TokenTotal(rs: seq<ModelResponse>): int {
    if rs == [] then 0 else TokenTotal(rs[..|rs| - 1]) + UsageTokens(rs[|rs| - 1].usage)
  }

  function ErrorCount(rs: seq<ModelResponse>): nat {
    if rs == [] then 0 else ErrorCount(rs[..|rs| - 1]) + (if Truthy(rs[|rs| - 1].error) then 1 else 0)
  }

  function LatencyOf(r: ModelResponse): real { r.latency }

  /** The counters as they stand after the responses `rs`, in order, and nothing else. */
  function MetricsAfter(rs: seq<ModelResponse>): Metrics {
    Metrics(TokenTotal(rs), |rs|, ErrorCount(rs), Mean(Project(rs, LatencyOf)))
  }

  /** No responses: every counter is zero. */
  lemma NoResponsesNoMetrics()
    ensures MetricsAfter([]) == InitialMetrics
  {
  }

  /**
   * One more response: one more request, its tokens (0 when the usage has no total),
   * one more error exactly when its error is truthy, and the running average
   * `(avg * (n - 1) + latency) / n` equals the mean over all `n` latencies.
   */
  lemma MetricsAfterSnoc(rs: seq<ModelResponse>, r: ModelResponse)
    ensures var m, m' := MetricsAfter(rs), MetricsAfter(rs + [r]);
      m'.totalRequests == m.totalRequests + 1 &&
      m'.totalTokens == m.totalTokens + UsageTokens(r.usage) &&
      m'.totalErrors == m.totalErrors + (if Truthy(r.error) then 1 else 0) &&
      m'.averageLatency == RunningMean(m.averageLatency, m'.totalRequests, r.latency)
  {
    assert (rs + [r])[..|rs|] == rs;
    ProjectSnoc(rs, r, LatencyOf);
    MeanSnoc(Project(rs, LatencyOf), r.latency);
  }

  /** There are never more errors than requests. */
  lemma {:induction false} ErrorsAtMostRequests(rs: seq<ModelResponse>)
    ensures MetricsAfter(rs).totalErrors <= MetricsAfter(rs).totalRequests
  {
    if rs != [] {
      ErrorsAtMostRequests(rs[..|rs| - 1]);
    }
  }

  class BaseModelInterface {
    var modelName: string
    var metrics: Metrics
    /** The responses counted since creation or the last reset. */
    ghost var history: seq<ModelResponse>

    ghost predicate Valid()
      reads this
    {
      metrics == MetricsAfter(history)
    }

    /** A new client has all four counters at zero. The configuration dictionary is not modelled. */
    constructor (modelName: string)
      ensures Valid() && history == []
      ensures this.modelName == modelName && metrics == InitialMetrics
    {
      this.modelName := modelName;
      metrics := InitialMetrics;
      history := [];
    }

    /** Counts one response. */
    method UpdateMetrics(response: ModelResponse)
      requires Valid()
      modifies this
      ensures Valid() && history == old(history) + [response]
      ensures metrics.totalRequests == old(metrics.totalRequests) + 1
      ensures metrics.totalTokens == old(metrics.totalTokens) + UsageTokens(response.usage)
      ensures metrics.totalErrors == old(metrics.totalErrors) + (if Truthy(response.error) then 1 else 0)
      ensures metrics.averageLatency == Mean(Project(history, LatencyOf))
      ensures modelName == old(modelName)
    {
      ghost var next := MetricsAfter(history + [response]);
      MetricsAfterSnoc(history, response);
      var n := metrics.totalRequests + 1;
      var errors := metrics.totalErrors + (if Truthy(response.error) then 1 else 0);
      var average := RunningMean(metrics.averageLatency, n, response.latency);
      assert n == next.totalRequests;
      assert average == next.averageLatency;
      metrics := Metrics(metrics.totalTokens + UsageTokens(response.usage), n, errors, average);
      assert metrics == next;
      history := history + [response];
    }

    /** The current counters, which always describe the responses counted so far. */
    function GetMetrics(): (m: Metrics)
      requires Valid()
      reads this
      ensures m.totalRequests == |history|
      ensures m.totalErrors == ErrorCount(history) && m.totalTokens == TokenTotal(history)
      ensures m.averageLatency == Mean(Project(history, LatencyOf))
    {
      metrics
    }

    /** Puts every counter back to zero. */
    method ResetMetrics()
      modifies this
      ensures Valid() && history == [] && metrics == InitialMetrics
      ensures modelName == old(modelName)
    {
      metrics := InitialMetrics;
      history := [];
    }
  }
}
