/**
 * The cost ledger: one usage record per API call, priced from a per-model rate table, with
 * totals, per-model / per-interface / per-analysis cost breakdowns and a summary.
 * Costs and durations are exact `real`s; the clock is a parameter of `AddUsageRecord`.
 */
module CostTracking {
  import opened Wrappers
  import opened Grouping

  datatype UsageRecord = UsageRecord(
    timestamp: string,
    model: string,
    interfaceType: string,
    promptTokens: int,
    completionTokens: int,
    totalTokens: int,
    cost: real,
    analysisType: string,
    duration: real,
    error: Option<string>)

  /** USD per 1000 tokens, for input and for output. */
  datatype Rates = Rates(input: real, output: real)

  const ModelCosts: map<string, Rates> := map[
    "gpt-4" := Rates(0.03, 0.06),
    "gpt-4-0613" := Rates(0.03, 0.06),
    "gpt-4-32k" := Rates(0.06, 0.12),
    "gpt-3.5-turbo" := Rates(0.0015, 0.002),
    "gpt-3.5-turbo-16k" := Rates(0.003, 0.004),
    "gemini-pro" := Rates(0.00025, 0.0005),
    "gemini-1.5-pro" := Rates(0.0005, 0.001),
    "claude-3-opus" := Rates(0.015, 0.075),
    "claude-3-sonnet" := Rates(0.003, 0.015)
  ]

  /** `calculate_cost`: nothing for a model without rates, otherwise tokens / 1000 times the rate, input plus output. */
  function CalculateCost(model: string, promptTokens: int, completionTokens: int): (c: real)
    ensures model !in ModelCosts ==> c == 0.0
    ensures promptTokens >= 0 && completionTokens >= 0 ==> c >= 0.0
  {
    if model !in ModelCosts then 0.0
    else
      var rates := ModelCosts[model];
      (promptTokens as real / 1000.0) * rates.input + (completionTokens as real / 1000.0) * rates.output
  }

  /** Pricing is linear: two calls cost what one call with their summed tokens costs. */
  lemma CostAdditive(model: string, p1: int, c1: int, p2: int, c2: int)
    ensures CalculateCost(model, p1 + p2, c1 + c2) == CalculateCost(model, p1, c1) + CalculateCost(model, p2, c2)
  {
  }

  /** Worked rates: 1000 prompt and 1000 completion tokens cost 0.09 on gpt-4 and 0.0035 on gpt-3.5-turbo. */
  lemma KnownRates()
    ensures CalculateCost("gpt-4", 1000, 1000) == 0.09
    ensures CalculateCost("gpt-3.5-turbo", 1000, 1000) == 0.0035
    ensures CalculateCost("gpt-4o", 1000, 1000) == 0.0
  {
  }

  function CostOf(r: UsageRecord): real { r.cost }
  function DurationOf(r: UsageRecord): real { r.duration }
  function ModelOf(r: UsageRecord): string { r.model }
  function InterfaceOf(r: UsageRecord): string { r.interfaceType }
  function AnalysisOf(r: UsageRecord): string { r.analysisType }

  /** The fields the costs can be broken down by. */
  datatype Field = ByModel | ByInterface | ByAnalysis

  function KeyOf(f: Field): UsageRecord -> string {
    match f
    case ByModel => ModelOf
    case ByInterface => InterfaceOf
    case ByAnalysis => AnalysisOf
  }

  /** `sum(r.total_tokens for r in records)`. */
  function TotalTokens(rs: seq<UsageRecord>): int {
    if rs == [] then 0 else TotalTokens(rs[..|rs| - 1]) + rs[|rs| - 1].totalTokens
  }

  /** The prompt tokens of all records. */
  function PromptTokens(rs: seq<UsageRecord>): int {
    if rs == [] then 0 else PromptTokens(rs[..|rs| - 1]) + rs[|rs| - 1].promptTokens
  }

  /** The completion tokens of all records. */
  function CompletionTokens(rs: seq<UsageRecord>): int {
    if rs == [] then 0 else CompletionTokens(rs[..|rs| - 1]) + rs[|rs| - 1].completionTokens
  }

  /** `sum(1 for r in records if r.error is not None)`: an empty error message counts too. */
  function ErrorCount(rs: seq<UsageRecord>): (n: nat)
    ensures n <= |rs|
  {
    if rs == [] then 0 else ErrorCount(rs[..|rs| - 1]) + (if rs[|rs| - 1].error.Some? then 1 else 0)
  }

  /** The cost breakdown by a field: for every value the field takes, the summed cost of its records. */
  function CostBy(rs: seq<UsageRecord>, key: UsageRecord -> string): map<string, real> {
    map k | k in Project(rs, key) :: SumReal(Project(Where(rs, key, k), CostOf))
  }

  /** The quotient, or 0 when there are no records (`... if self.usage_records else 0`). */
  function PerRequest(total: real, n: nat): real {
    if n == 0 then 0.0 else total / (n as real)
  }

  datatype UsageSummary = UsageSummary(
    totalCost: real,
    totalTokens: int,
    totalRequests: nat,
    averageTokensPerRequest: real,
    averageCostPerRequest: real,
    totalErrors: nat,
    costsByModel: map<string, real>,
    costsByInterface: map<string, real>,
    costsByAnalysis: map<string, real>,
    totalDuration: real,
    averageDuration: real)

  /** A record as `add_usage_record` builds it: total tokens and cost are derived from the call. */
  predicate WellFormed(r: UsageRecord) {
    r.totalTokens == r.promptTokens + r.completionTokens &&
    r.cost == CalculateCost(r.model, r.promptTokens, r.completionTokens)
  }

  class CostTracker {
    var usageRecords: seq<UsageRecord>

    /** Every record was built by `AddUsageRecord`. */
    predicate Valid()
      reads this
    {
      forall i :: 0 <= i < |usageRecords| ==> WellFormed(usageRecords[i])
    }

    constructor()
      ensures Valid() && usageRecords == []
    {
      usageRecords := [];
    }

    /** `add_usage_record`: appends exactly one record; the earlier ones are unchanged. */
    method AddUsageRecord(model: string, interfaceType: string, promptTokens: int, completionTokens: int,
                          analysisType: string, duration: real, error: Option<string>, timestamp: string)
      requires Valid()
      modifies this
      ensures Valid()
      ensures usageRecords == old(usageRecords) + [UsageRecord(timestamp, model, interfaceType, promptTokens,
        completionTokens, promptTokens + completionTokens, CalculateCost(model, promptTokens, completionTokens),
        analysisType, duration, error)]
    {
      var totalTokens := promptTokens + completionTokens;
      var cost := CalculateCost(model, promptTokens, completionTokens);
      var record := UsageRecord(timestamp, model, interfaceType, promptTokens, completionTokens, totalTokens,
                                cost, analysisType, duration, error);
      usageRecords := usageRecords + [record];
    }

    /** `get_total_cost`: 0 with no records, and the same total however the records are grouped by model. */
    function GetTotalCost(): (t: real)
      reads this
      ensures usageRecords == [] ==> t == 0.0
      ensures t == GroupTotals(GroupKeys(usageRecords, ModelOf), usageRecords, ModelOf, CostOf)
    {
      PartitionTotal(usageRecords, ModelOf, CostOf);
      SumReal(Project(usageRecords, CostOf))
    }

    /**
     * `get_cost_by_model`, `get_cost_by_interface` and `get_cost_by_analysis`: one loop that adds
     * each record's cost to its field value's entry (`costs.get(k, 0) + cost`).
     */
    method GetCostBy(field: Field) returns (costs: map<string, real>)
      ensures costs == CostBy(usageRecords, KeyOf(field))
    {
      costs := CostTable(usageRecords, KeyOf(field));
    }

    /** `get_usage_summary`. */
    function GetUsageSummary(): (s: UsageSummary)
      reads this
      ensures s.totalRequests == |usageRecords| && s.totalErrors <= s.totalRequests
      ensures usageRecords == [] ==> s.averageTokensPerRequest == 0.0 && s.averageCostPerRequest == 0.0 && s.averageDuration == 0.0
      ensures usageRecords != [] ==> s.averageCostPerRequest * (|usageRecords| as real) == s.totalCost
      ensures s.totalCost == GetTotalCost()
    {
      var n := |usageRecords|;
      var cost := SumReal(Project(usageRecords, CostOf));
      var duration := SumReal(Project(usageRecords, DurationOf));
      UsageSummary(
        cost, TotalTokens(usageRecords), n,
        PerRequest(TotalTokens(usageRecords) as real, n), PerRequest(cost, n),
        ErrorCount(usageRecords),
        CostBy(usageRecords, ModelOf), CostBy(usageRecords, InterfaceOf), CostBy(usageRecords, AnalysisOf),
        duration, PerRequest(duration, n))
    }

    /**
     * On records built by `AddUsageRecord`, the summary's `total_tokens` is the prompt tokens
     * plus the completion tokens of all calls.
     */
    lemma SummaryTokens()
      requires Valid()
      ensures GetUsageSummary().totalTokens == PromptTokens(usageRecords) + CompletionTokens(usageRecords)
    {
      TokensAddUp(usageRecords);
    }

    /** `reset`. */
    method Reset()
      modifies this
      ensures Valid() && usageRecords == []
    {
      usageRecords := [];
    }
  }

  /** Over well-formed records, the total tokens are the prompt tokens plus the completion tokens. */
  lemma {:induction false} TokensAddUp(rs: seq<UsageRecord>)
    requires forall i :: 0 <= i < |rs| ==> WellFormed(rs[i])
    ensures TotalTokens(rs) == PromptTokens(rs) + CompletionTokens(rs)
  {
    if rs != [] {
      TokensAddUp(rs[..|rs| - 1]);
    }
  }

  /** The loop of the `get_cost_by_*` methods: `costs[k] = costs.get(k, 0) + record.cost` for every record. */
  method CostTable(rs: seq<UsageRecord>, key: UsageRecord -> string) returns (costs: map<string, real>)
    ensures costs == CostBy(rs, key)
  {
    costs := map[];
    ghost var seen: seq<UsageRecord> := [];
    for i := 0 to |rs|
      invariant seen == rs[..i]
      invariant forall k :: k in costs <==> k in Project(seen, key)
      invariant forall k :: k in costs ==> costs[k] == SumReal(Project(Where(seen, key, k), CostOf))
    {
      var r := rs[i];
      ghost var costs0 := costs;
      var total := (if key(r) in costs then costs[key(r)] else 0.0) + CostOf(r);
      costs := costs[key(r) := total];
      CostStep(seen, r, key, costs0, total, costs);
      ProjectKeysStep(seen, r, key, costs0, costs, total);
      PrefixSnoc(rs, i);
      seen := seen + [r];
    }
    assert seen == rs;
    CostTableIsCostBy(rs, key, Project(rs, key), costs);
  }

  /** A table holding, for the keys `ks`, each key's summed cost is the breakdown over those keys. */
  lemma CostTableIsCostBy(rs: seq<UsageRecord>, key: UsageRecord -> string, ks: seq<string>, costs: map<string, real>)
    requires forall k :: k in costs <==> k in ks
    requires forall k :: k in costs ==> costs[k] == SumReal(Project(Where(rs, key, k), CostOf))
    ensures costs == map k | k in ks :: SumReal(Project(Where(rs, key, k), CostOf))
  {
  }

  /** One step of the breakdown loop: the record's cost joins its field value's entry. */
  lemma CostStep(rs: seq<UsageRecord>, r: UsageRecord, key: UsageRecord -> string,
                 costs: map<string, real>, total: real, costs': map<string, real>)
    requires forall k :: k in costs <==> k in Project(rs, key)
    requires forall k :: k in costs ==> costs[k] == SumReal(Project(Where(rs, key, k), CostOf))
    requires total == (if key(r) in costs then costs[key(r)] else 0.0) + CostOf(r)
    requires costs' == costs[key(r) := total]
    ensures forall k :: k in costs' ==> costs'[k] == SumReal(Project(Where(rs + [r], key, k), CostOf))
  {
    if key(r) !in costs {
      WhereAbsent(rs, key, key(r));
    }
    forall k | k in costs' ensures costs'[k] == SumReal(Project(Where(rs + [r], key, k), CostOf)) {
      WhereTotalSnoc(rs, r, key, CostOf, k);
    }
  }

  /** The breakdown's keys are exactly the field values that occur in the records. */
  lemma CostByKeys(rs: seq<UsageRecord>, key: UsageRecord -> string, k: string)
    ensures k in CostBy(rs, key) <==> exists i :: 0 <= i < |rs| && key(rs[i]) == k
  {
    if k in Project(rs, key) {
      var i :| 0 <= i < |rs| && Project(rs, key)[i] == k;
    }
  }

  /** The breakdown's entries, taken over its distinct keys, add up to the total cost. */
  lemma CostByTotal(rs: seq<UsageRecord>, key: UsageRecord -> string)
    ensures GroupTotals(GroupKeys(rs, key), rs, key, CostOf) == SumReal(Project(rs, CostOf))
    ensures forall i :: 0 <= i < |GroupKeys(rs, key)| ==>
      GroupKeys(rs, key)[i] in CostBy(rs, key) &&
      CostBy(rs, key)[GroupKeys(rs, key)[i]] == SumReal(Project(Where(rs, key, GroupKeys(rs, key)[i]), CostOf))
  {
    PartitionTotal(rs, key, CostOf);
  }

  /** Adding a record adds its cost to the total and one to the request count. */
  lemma AddRecordTotals(rs: seq<UsageRecord>, r: UsageRecord)
    ensures SumReal(Project(rs + [r], CostOf)) == SumReal(Project(rs, CostOf)) + r.cost
    ensures TotalTokens(rs + [r]) == TotalTokens(rs) + r.totalTokens
    ensures ErrorCount(rs + [r]) == ErrorCount(rs) + (if r.error.Some? then 1 else 0)
  {
    ProjectSnoc(rs, r, CostOf);
    SumRealSnoc(Project(rs, CostOf), r.cost);
    assert (rs + [r])[..|rs|] == rs;
  }

  /** `total_errors` tests `is not None`: a record whose error is the empty string is still counted. */
  lemma EmptyErrorCounted(r: UsageRecord)
    requires r.error == Some("")
    ensures ErrorCount([r]) == 1
  {
    assert [r][..0] == [];
  }
}
