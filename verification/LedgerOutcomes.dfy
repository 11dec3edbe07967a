/** When a usage ledger is accepted, step by step and figure by figure. */
module LedgerOutcomes {
  import opened Prelude
  import opened AtifLedger

  predicate InRange(tokens: int) {
    0 <= tokens <= 1000000000000
  }

  predicate CostInRange(cost: real) {
    0.0 <= cost <= 1000000000000000.0
  }

  /** Within a billionth of the larger amount, or within 1e-12 outright. */
  predicate CostsAgree(a: real, b: real) {
    var gap := if a < b then b - a else a - b;
    || gap <= 0.000000000001
    || gap <= 0.000000001 * (if a < 0.0 then -a else a)
    || gap <= 0.000000001 * (if b < 0.0 then -b else b)
  }

  lemma CloseExactlyWhen(a: real, b: real)
    ensures IsClose(a, b) <==> CostsAgree(a, b)
  {
  }

  /** The metrics of one model call. */
  predicate CallTells(m: Metrics) {
    && InRange(m.prompt) && InRange(m.completion) && InRange(m.cached) && m.cached <= m.prompt && CostInRange(m.cost)
    && (m.reasoning.Some? ==> InRange(m.reasoning.value))
  }

  /** Step `i` after the boundary: numbered, a metered call or an answered tool call, and nothing else attached. */
  predicate StepTells(step: Step, i: nat) {
    && step.AgentStep? && step.id == i + 1
    && (step.metrics.Some? ==> CallTells(step.metrics.value) && step.callCount == Some(1))
    && (step.metrics.None? ==> step.callCount == None && step.call.Some?)
    && (step.call.Some? ==> step.call.value.sourceCallId == step.call.value.callId
                            && step.call.value.extraStatus == Some(step.call.value.contentStatus))
    && !step.strayObservation
  }

  predicate MeteredAt(steps: seq<Step>, i: nat)
    requires i < |steps|
  {
    steps[i].AgentStep? && steps[i].metrics.Some?
  }

  /** The steps that report a model call. */
  function Calls(steps: seq<Step>): set<nat> {
    set i | 0 <= i < |steps| && MeteredAt(steps, i)
  }

  lemma {:induction false} CallsAreCounted(steps: seq<Step>)
    ensures |Metered(steps)| == |Calls(steps)|
  {
    if steps != [] {
      var n := |steps| - 1;
      CallsAreCounted(steps[..n]);
      CallsOfPrefix(steps);
    }
  }

  lemma CallsOfPrefix(steps: seq<Step>)
    requires steps != []
    ensures var n := |steps| - 1;
            n !in Calls(steps[..n]) && Calls(steps) == Calls(steps[..n]) + if MeteredAt(steps, n) then {n} else {}
  {
    var n := |steps| - 1;
    forall i | 0 <= i < n ensures MeteredAt(steps, i) <==> MeteredAt(steps[..n], i) {
    }
  }

  /** Every total grows by what the appended step reports; a step without metrics, or without reasoning, adds nothing. */
  lemma TotalsOfAppend(steps: seq<Step>, step: Step)
    ensures var before, after := Metered(steps), Metered(steps + [step]);
            if step.AgentStep? && step.metrics.Some? then
              var m := step.metrics.value;
              && Total(after, Prompt) == Total(before, Prompt) + m.prompt
              && Total(after, Completion) == Total(before, Completion) + m.completion
              && Total(after, Cached) == Total(before, Cached) + m.cached
              && Total(after, Reasoning) == Total(before, Reasoning) + (if m.reasoning.Some? then m.reasoning.value else 0)
              && TotalCost(after) == TotalCost(before) + m.cost
            else after == before
    ensures Metered([]) == [] && TotalCost([]) == 0.0
    ensures Total([], Prompt) == Total([], Completion) == Total([], Cached) == Total([], Reasoning) == 0
  {
    assert (steps + [step])[..|steps|] == steps;
    var before := Metered(steps);
    if step.AgentStep? && step.metrics.Some? {
      assert (before + [step.metrics.value])[..|before|] == before;
    } else {
      assert before + [] == before;
    }
  }

  /** Some call reports reasoning tokens. */
  ghost predicate ReasoningSeen(steps: seq<Step>) {
    exists i | 0 <= i < |steps| :: MeteredAt(steps, i) && steps[i].metrics.value.reasoning.Some?
  }

  lemma {:induction false} ReasoningIsSeen(steps: seq<Step>)
    ensures SawReasoning(Metered(steps)) <==> ReasoningSeen(steps)
  {
    if steps != [] {
      var n := |steps| - 1;
      var rest := Metered(steps[..n]);
      ReasoningIsSeen(steps[..n]);
      if MeteredAt(steps, n) {
        AggregateSeesReasoning(rest, steps[n].metrics.value);
      } else {
        assert rest + [] == rest;
      }
      ReasoningOfPrefix(steps);
    }
  }

  lemma AggregateSeesReasoning(metrics: seq<Metrics>, m: Metrics)
    ensures SawReasoning(metrics + [m]) <==> SawReasoning(metrics) || m.reasoning.Some?
  {
    var longer := metrics + [m];
    assert longer[|metrics|] == m;
    if SawReasoning(metrics) {
      var i :| 0 <= i < |metrics| && metrics[i].reasoning.Some?;
      assert longer[i] == metrics[i];
    }
  }

  lemma ReasoningOfPrefix(steps: seq<Step>)
    requires steps != []
    ensures var n := |steps| - 1;
            ReasoningSeen(steps) <==>
              ReasoningSeen(steps[..n]) || (MeteredAt(steps, n) && steps[n].metrics.value.reasoning.Some?)
  {
    var n := |steps| - 1;
    if ReasoningSeen(steps[..n]) {
      var i :| 0 <= i < n && MeteredAt(steps[..n], i) && steps[..n][i].metrics.value.reasoning.Some?;
      assert MeteredAt(steps, i) && steps[i].metrics.value.reasoning.Some?;
    }
    if ReasoningSeen(steps) {
      var i :| 0 <= i < |steps| && MeteredAt(steps, i) && steps[i].metrics.value.reasoning.Some?;
      assert i < n ==> MeteredAt(steps[..n], i) && steps[..n][i].metrics.value.reasoning.Some?;
    }
  }

  /** The declared final figures are the totals over the calls. */
  ghost predicate FinalTells(final: FinalMetrics, steps: seq<Step>) {
    var calls := Metered(steps);
    && final.steps == |steps|
    && final.prompt == Some(Total(calls, Prompt)) && InRange(Total(calls, Prompt))
    && final.completion == Some(Total(calls, Completion)) && InRange(Total(calls, Completion))
    && final.cached == Some(Total(calls, Cached)) && InRange(Total(calls, Cached))
    && final.cost.Some? && CostInRange(final.cost.value) && CostsAgree(final.cost.value, TotalCost(calls))
    && (ReasoningSeen(steps) ==> final.reasoning == Some(Total(calls, Reasoning)) && InRange(Total(calls, Reasoning)))
    && (!ReasoningSeen(steps) ==> final.reasoning == None)
  }

  /** The attested usage is the totals over the calls. */
  predicate AttestationTells(attested: Usage, calls: seq<Metrics>) {
    && attested.prompt == Total(calls, Prompt) && InRange(attested.prompt)
    && attested.completion == Total(calls, Completion) && InRange(attested.completion)
    && attested.cached == Total(calls, Cached) && InRange(attested.cached)
    && attested.reasoning == Total(calls, Reasoning) && InRange(attested.reasoning)
    && CostInRange(attested.cost) && CostsAgree(attested.cost, TotalCost(calls))
  }

  /** A ledger is accepted exactly when every step holds, some step reports a call, and both declarations are the totals. */
  lemma AcceptedExactlyWhen(steps: seq<Step>, final: FinalMetrics, attested: Usage)
    ensures LedgerHolds(steps, final, attested) <==>
              && steps != [] && steps[0] == Boundary(1)
              && (forall i | 1 <= i < |steps| :: StepTells(steps[i], i))
              && Calls(steps) != {} && FinalTells(final, steps) && AttestationTells(attested, Metered(steps))
  {
    CallsAreCounted(steps);
    ReasoningIsSeen(steps);
    StepsExactlyWhen(steps);
    if final.cost.Some? {
      CloseExactlyWhen(final.cost.value, TotalCost(Metered(steps)));
    }
    CloseExactlyWhen(attested.cost, TotalCost(Metered(steps)));
    assert Calls(steps) == {} <==> |Calls(steps)| == 0;
  }

  lemma StepsExactlyWhen(steps: seq<Step>)
    ensures StepsHold(steps) <==> steps != [] && steps[0] == Boundary(1) && forall i | 1 <= i < |steps| :: StepTells(steps[i], i)
  {
    forall i | 1 <= i < |steps| ensures StepHolds(steps[i], i + 1) <==> StepTells(steps[i], i) {
    }
  }
}
