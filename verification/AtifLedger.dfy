/** The usage ledger of a sanitized ATIF trajectory: per-step metrics, final metrics and the attested usage. */
module AtifLedger {
  import opened Prelude
  import opened PilotBounds

  datatype Metrics = Metrics(prompt: int, completion: int, cached: int, cost: real, reasoning: Option<int>)

  datatype ToolStatus = Pending | Running | Success | Failed | TimedOut | Cancelled | Unknown

  /** A tool call with the one result that answers it. */
  datatype ToolCall = ToolCall(callId: string, sourceCallId: string, contentStatus: ToolStatus, extraStatus: Option<ToolStatus>)

  datatype Step =
    | Boundary(id: int)
    | AgentStep(id: int, metrics: Option<Metrics>, callCount: Option<int>, call: Option<ToolCall>, strayObservation: bool)

  datatype FinalMetrics = FinalMetrics(
    steps: int, prompt: Option<int>, completion: Option<int>, cached: Option<int>, cost: Option<real>, reasoning: Option<int>)

  datatype Usage = Usage(prompt: int, completion: int, cached: int, reasoning: int, cost: real)

  datatype AtifError =
    | NoSteps | BadBoundary | BadStep | BadMetrics | CachedExceedsPrompt | BadCallCount | BadToolCall | EmptyStep
    | NothingMetered | BadFinalShape | FinalCostDiffers | FinalTokensDiffer | AttestedCostDiffers | AttestedTokensDiffer

  function Max(a: real, b: real): real {
    if a < b then b else a
  }

  function Abs(a: real): real {
    if a < 0.0 then -a else a
  }

  /** `math.isclose(a, b, abs_tol=1e-12)`, whose relative tolerance defaults to 1e-9. */
  predicate IsClose(a: real, b: real) {
    Abs(a - b) <= Max(0.000000001 * Max(Abs(a), Abs(b)), 0.000000000001)
  }

  predicate MetricsBounded(m: Metrics) {
    && Bounded(m.prompt) && Bounded(m.completion) && Bounded(m.cached) && BoundedCost(m.cost)
    && (m.reasoning.Some? ==> Bounded(m.reasoning.value))
  }

  predicate ToolCallHolds(call: ToolCall) {
    call.sourceCallId == call.callId && call.extraStatus == Some(call.contentStatus)
  }

  /** What one agent step must look like on its own. */
  predicate StepHolds(step: Step, id: int) {
    && step.AgentStep? && step.id == id
    && (if step.metrics.Some? then
          MetricsBounded(step.metrics.value) && step.metrics.value.cached <= step.metrics.value.prompt && step.callCount == Some(1)
        else step.callCount.None?)
    && (if step.call.Some? then ToolCallHolds(step.call.value) && !step.strayObservation else !step.strayObservation)
    && (step.metrics.Some? || step.call.Some?)
  }

  // ---------------------------------------------------------------- totals

  function Metered(steps: seq<Step>): seq<Metrics> {
    if steps == [] then []
    else
      var last := steps[|steps| - 1];
      Metered(steps[..|steps| - 1]) + if last.AgentStep? && last.metrics.Some? then [last.metrics.value] else []
  }

  function Total(metrics: seq<Metrics>, field: Metrics -> int): int {
    if metrics == [] then 0 else Total(metrics[..|metrics| - 1], field) + field(metrics[|metrics| - 1])
  }

  function TotalCost(metrics: seq<Metrics>): real {
    if metrics == [] then 0.0 else TotalCost(metrics[..|metrics| - 1]) + metrics[|metrics| - 1].cost
  }

  function Prompt(m: Metrics): int { m.prompt }
  function Completion(m: Metrics): int { m.completion }
  function Cached(m: Metrics): int { m.cached }
  function Reasoning(m: Metrics): int { if m.reasoning.Some? then m.reasoning.value else 0 }

  predicate SawReasoning(metrics: seq<Metrics>) {
    exists i | 0 <= i < |metrics| :: metrics[i].reasoning.Some?
  }

  predicate StepsHold(steps: seq<Step>) {
    && steps != [] && steps[0] == Boundary(1)
    && forall i | 1 <= i < |steps| :: StepHolds(steps[i], i + 1)
  }

  predicate IsTotal(declared: Option<int>, total: int) {
    declared.Some? && Bounded(declared.value) && declared.value == total
  }

  predicate FinalMatches(final: FinalMetrics, metrics: seq<Metrics>, steps: nat) {
    && final.steps == steps
    && IsTotal(final.prompt, Total(metrics, Prompt)) && IsTotal(final.completion, Total(metrics, Completion))
    && IsTotal(final.cached, Total(metrics, Cached))
    && final.cost.Some? && BoundedCost(final.cost.value) && IsClose(final.cost.value, TotalCost(metrics))
    && (if SawReasoning(metrics) then IsTotal(final.reasoning, Total(metrics, Reasoning)) else final.reasoning.None?)
  }

  predicate AttestedMatches(attested: Usage, metrics: seq<Metrics>) {
    && IsTotal(Some(attested.prompt), Total(metrics, Prompt)) && IsTotal(Some(attested.completion), Total(metrics, Completion))
    && IsTotal(Some(attested.cached), Total(metrics, Cached)) && IsTotal(Some(attested.reasoning), Total(metrics, Reasoning))
    && BoundedCost(attested.cost) && IsClose(attested.cost, TotalCost(metrics))
  }

  /** What the ledger check accepts. */
  predicate LedgerHolds(steps: seq<Step>, final: FinalMetrics, attested: Usage) {
    && StepsHold(steps) && Metered(steps) != []
    && FinalMatches(final, Metered(steps), |steps|) && AttestedMatches(attested, Metered(steps))
  }

  // ---------------------------------------------------------------- the checker

  /** The running aggregate of the checking loop. */
  datatype Aggregate = Aggregate(prompt: int, completion: int, cached: int, reasoning: int, cost: real, sawReasoning: bool, calls: nat)

  ghost predicate Aggregates(a: Aggregate, metrics: seq<Metrics>) {
    && a.prompt == Total(metrics, Prompt) && a.completion == Total(metrics, Completion) && a.cached == Total(metrics, Cached)
    && a.reasoning == Total(metrics, Reasoning) && a.cost == TotalCost(metrics)
    && a.sawReasoning == SawReasoning(metrics) && a.calls == |metrics|
  }

  lemma AggregateGrows(a: Aggregate, metrics: seq<Metrics>, m: Metrics)
    requires Aggregates(a, metrics)
    ensures Aggregates(Aggregate(a.prompt + m.prompt, a.completion + m.completion, a.cached + m.cached,
                                 a.reasoning + Reasoning(m), a.cost + m.cost, a.sawReasoning || m.reasoning.Some?, a.calls + 1),
                       metrics + [m])
  {
    var longer := metrics + [m];
    assert longer[..|metrics|] == metrics;
    assert SawReasoning(longer) <==> SawReasoning(metrics) || m.reasoning.Some? by {
      assert longer[|metrics|] == m;
      if SawReasoning(metrics) {
        var i :| 0 <= i < |metrics| && metrics[i].reasoning.Some?;
        assert longer[i] == metrics[i];
      }
    }
  }

  /** The loop over the steps: check each one and add its metrics to the aggregate. */
  method FoldSteps(steps: seq<Step>) returns (r: Result<Aggregate, AtifError>)
    ensures r.Ok? <==> StepsHold(steps)
    ensures r.Ok? ==> Aggregates(r.value, Metered(steps))
  {
    if steps == [] {
      return Err(NoSteps);
    }
    var total := Aggregate(0, 0, 0, 0, 0.0, false, 0);
    for i := 0 to |steps|
      invariant i > 0 ==> steps[0] == Boundary(1)
      invariant forall j | 1 <= j < i :: StepHolds(steps[j], j + 1)
      invariant Aggregates(total, Metered(steps[..i]))
    {
      assert steps[..i + 1][..i] == steps[..i];
      var step := steps[i];
      if i == 0 {
        if step != Boundary(1) {
          return Err(BadBoundary);
        }
        assert Metered(steps[..1]) == [];
        continue;
      }
      if !step.AgentStep? || step.id != i + 1 {
        return Err(BadStep);
      }
      if step.metrics.Some? {
        var m := step.metrics.value;
        if !MetricsBounded(m) {
          return Err(BadMetrics);
        }
        AggregateGrows(total, Metered(steps[..i]), m);
        total := Aggregate(total.prompt + m.prompt, total.completion + m.completion, total.cached + m.cached,
                           total.reasoning + Reasoning(m), total.cost + m.cost, total.sawReasoning || m.reasoning.Some?,
                           total.calls + 1);
        if m.cached > m.prompt {
          return Err(CachedExceedsPrompt);
        }
        if step.callCount != Some(1) {
          return Err(BadCallCount);
        }
      } else {
        if step.callCount.Some? {
          return Err(BadCallCount);
        }
        assert Metered(steps[..i]) + [] == Metered(steps[..i]);
      }
      if step.strayObservation || (step.call.Some? && !ToolCallHolds(step.call.value)) {
        return Err(BadToolCall);
      }
      if step.metrics.None? && step.call.None? {
        return Err(EmptyStep);
      }
    }
    assert steps[..|steps|] == steps;
    return Ok(total);
  }

  /** `_validate_atif` from the steps on; returns the number of model calls. */
  method ValidateLedger(steps: seq<Step>, final: FinalMetrics, attested: Usage) returns (r: Result<nat, AtifError>)
    ensures r.Ok? <==> LedgerHolds(steps, final, attested)
    ensures r.Ok? ==> r.value == |Metered(steps)| && r.value > 0
  {
    var folded := FoldSteps(steps);
    if folded.Err? {
      return Err(folded.error);
    }
    var total := folded.value;
    if total.calls == 0 {
      return Err(NothingMetered);
    }
    if final.prompt.None? || final.completion.None? || final.cached.None? || final.cost.None?
       || final.reasoning.Some? != total.sawReasoning || final.steps != |steps| {
      return Err(BadFinalShape);
    }
    if !BoundedCost(final.cost.value) || !IsClose(final.cost.value, total.cost) {
      return Err(FinalCostDiffers);
    }
    if !IsTotal(final.prompt, total.prompt) || !IsTotal(final.completion, total.completion) || !IsTotal(final.cached, total.cached) {
      return Err(FinalTokensDiffer);
    }
    if total.sawReasoning && !IsTotal(final.reasoning, total.reasoning) {
      return Err(FinalTokensDiffer);
    }
    if !IsTotal(Some(attested.prompt), total.prompt) || !IsTotal(Some(attested.completion), total.completion)
       || !IsTotal(Some(attested.cached), total.cached) || !IsTotal(Some(attested.reasoning), total.reasoning) {
      return Err(AttestedTokensDiffer);
    }
    if !BoundedCost(attested.cost) || !IsClose(attested.cost, total.cost) {
      return Err(AttestedCostDiffers);
    }
    return Ok(total.calls);
  }

  // ---------------------------------------------------------------- what acceptance means

  lemma {:induction false} MeteredComesFromSteps(steps: seq<Step>)
    requires forall i | 0 <= i < |steps| :: steps[i].AgentStep? && steps[i].metrics.Some? ==>
               MetricsBounded(steps[i].metrics.value) && steps[i].metrics.value.cached <= steps[i].metrics.value.prompt
    ensures forall i | 0 <= i < |Metered(steps)| :: MetricsBounded(Metered(steps)[i]) && Metered(steps)[i].cached <= Metered(steps)[i].prompt
  {
    if steps != [] {
      MeteredComesFromSteps(steps[..|steps| - 1]);
    }
  }

  lemma {:induction false} TotalsCompare(metrics: seq<Metrics>)
    requires forall i | 0 <= i < |metrics| :: MetricsBounded(metrics[i]) && metrics[i].cached <= metrics[i].prompt
    ensures 0 <= Total(metrics, Cached) <= Total(metrics, Prompt) && 0 <= Total(metrics, Reasoning) && 0.0 <= TotalCost(metrics)
    ensures !SawReasoning(metrics) ==> Total(metrics, Reasoning) == 0
  {
    if metrics != [] {
      var n := |metrics| - 1;
      TotalsCompare(metrics[..n]);
      if !SawReasoning(metrics) {
        assert forall i | 0 <= i < n :: metrics[..n][i] == metrics[i];
        assert metrics[n].reasoning.None?;
      }
    }
  }

  /**
   * Acceptance reconciles the three ledgers: final and attested token totals
   * are the sums over the metered steps, both costs are close to the summed
   * cost, cached tokens never exceed prompt tokens, and without reasoning
   * telemetry the attested reasoning tokens are zero.
   */
  lemma AcceptedLedgerReconciles(steps: seq<Step>, final: FinalMetrics, attested: Usage)
    requires LedgerHolds(steps, final, attested)
    ensures final.prompt == Some(attested.prompt) && final.completion == Some(attested.completion)
    ensures final.cached == Some(attested.cached) && 0 <= attested.cached <= attested.prompt
    ensures attested.reasoning == if final.reasoning.Some? then final.reasoning.value else 0
    ensures final.cost.Some? && IsClose(final.cost.value, TotalCost(Metered(steps))) && IsClose(attested.cost, TotalCost(Metered(steps)))
    ensures |Metered(steps)| <= final.steps - 1
  {
    forall i | 0 <= i < |steps| && steps[i].AgentStep? && steps[i].metrics.Some?
      ensures MetricsBounded(steps[i].metrics.value) && steps[i].metrics.value.cached <= steps[i].metrics.value.prompt
    {
      assert i > 0 ==> StepHolds(steps[i], i + 1);
    }
    MeteredComesFromSteps(steps);
    TotalsCompare(Metered(steps));
    MeteredAtMostSteps(steps);
  }

  lemma {:induction false} MeteredAtMostSteps(steps: seq<Step>)
    requires steps != [] && steps[0].Boundary?
    ensures |Metered(steps)| <= |steps| - 1
  {
    if |steps| == 1 {
      assert steps[..0] == [];
    } else {
      MeteredAtMostSteps(steps[..|steps| - 1]);
    }
  }
}
