/**
 The budget of an execution run: steps, wall clock and model tokens, kept per run id.
 */
module ExecutionBudget {
  import opened Wrappers

  const MAXIMUM_SAFE_INTEGER := 9007199254740991

  datatype BudgetErrorCode =
    | ExecutionBudgetInvalid
    | ExecutionBudgetAlreadyActive
    | ExecutionBudgetNotActive
    | StepBudgetExceeded
    | WallClockBudgetExceeded
    | ModelBudgetExceeded
    | ModelUsageUnavailable

  datatype Limits = Limits(steps: int, wallClockMs: int, modelTokens: int)

  datatype ModelUsage = ModelUsage(inputTokens: Option<int>, outputTokens: Option<int>, totalTokens: Option<int>)

  datatype RunBudget = RunBudget(limits: Limits, startedAt: real, consumedSteps: nat, consumedTokens: nat)

  predicate ValidLimit(value: int) {
    0 < value <= MAXIMUM_SAFE_INTEGER
  }

  predicate SafeNat(value: int) {
    0 <= value <= MAXIMUM_SAFE_INTEGER
  }

  /** A reported total wins; otherwise both halves must be there and add up without leaving the safe range. */
  function TotalTokens(usage: Option<ModelUsage>): Option<nat> {
    match usage
    case None => None
    case Some(u) =>
      if u.totalTokens.Some? && SafeNat(u.totalTokens.value) then Some(u.totalTokens.value)
      else if u.inputTokens.Some? && SafeNat(u.inputTokens.value) && u.outputTokens.Some? && SafeNat(u.outputTokens.value)
              && SafeNat(u.inputTokens.value + u.outputTokens.value)
      then Some(u.inputTokens.value + u.outputTokens.value)
      else None
  }

  /** Nothing but the tokens of the one run has moved, and those only up. */
  ghost predicate OnlyTokensGrew(runId: string, before: map<string, RunBudget>, after: map<string, RunBudget>) {
    && runId in before && runId in after
    && after[runId].limits == before[runId].limits && after[runId].startedAt == before[runId].startedAt
    && after[runId].consumedSteps == before[runId].consumedSteps
    && after[runId].consumedTokens >= before[runId].consumedTokens
    && after - {runId} == before - {runId}
  }

  /** The run's wall clock, read at `now`, is inside its limit. */
  predicate InTime(state: RunBudget, now: real) {
    0.0 <= now - state.startedAt < state.limits.wallClockMs as real
  }

  /** Every method is given the reading of the clock it takes; the clock may read anything. */
  class DeterministicExecutionBudget {
    var runs: map<string, RunBudget>

    constructor ()
      ensures runs == map[]
    {
      runs := map[];
    }

    method Begin(runId: string, limits: Limits, now: real) returns (r: Result<(), BudgetErrorCode>)
      modifies this
      ensures r == if runId in old(runs) then Err(ExecutionBudgetAlreadyActive)
                   else if ValidLimit(limits.steps) && ValidLimit(limits.wallClockMs) && ValidLimit(limits.modelTokens) then Ok(())
                   else Err(ExecutionBudgetInvalid)
      ensures runs == if r.Ok? then old(runs)[runId := RunBudget(limits, now, 0, 0)] else old(runs)
    {
      if runId in runs {
        return Err(ExecutionBudgetAlreadyActive);
      }
      if !ValidLimit(limits.steps) || !ValidLimit(limits.wallClockMs) || !ValidLimit(limits.modelTokens) {
        return Err(ExecutionBudgetInvalid);
      }
      runs := runs[runId := RunBudget(limits, now, 0, 0)];
      return Ok(());
    }

    /** One more step, unless the maximum is used up. */
    method BeforeStep(runId: string, stepIndex: int, now: real) returns (r: Result<(), BudgetErrorCode>)
      modifies this
      ensures r == if runId !in old(runs) then Err(ExecutionBudgetNotActive)
                   else if !InTime(old(runs)[runId], now) then Err(WallClockBudgetExceeded)
                   else if SafeNat(stepIndex) && old(runs)[runId].consumedSteps < old(runs)[runId].limits.steps then Ok(())
                   else Err(StepBudgetExceeded)
      ensures runs == if r.Ok? then old(runs)[runId := old(runs)[runId].(consumedSteps := old(runs)[runId].consumedSteps + 1)]
                      else old(runs)
    {
      if runId !in runs {
        return Err(ExecutionBudgetNotActive);
      }
      if !InTime(runs[runId], now) {
        return Err(WallClockBudgetExceeded);
      }
      if !SafeNat(stepIndex) || runs[runId].consumedSteps >= runs[runId].limits.steps {
        return Err(StepBudgetExceeded);
      }
      runs := runs[runId := runs[runId].(consumedSteps := runs[runId].consumedSteps + 1)];
      return Ok(());
    }

    /** Succeeds only while some of the token budget is left, and says how much. */
    method MaximumOutputTokens(runId: string, now: real) returns (r: Result<nat, BudgetErrorCode>)
      ensures r.Ok? <==>
        runId in runs && InTime(runs[runId], now) && runs[runId].consumedTokens < runs[runId].limits.modelTokens
      ensures r.Ok? ==> r.value > 0 && runs[runId].consumedTokens + r.value == runs[runId].limits.modelTokens
    {
      if runId !in runs {
        return Err(ExecutionBudgetNotActive);
      }
      if !InTime(runs[runId], now) {
        return Err(WallClockBudgetExceeded);
      }
      var remaining := runs[runId].limits.modelTokens - runs[runId].consumedTokens;
      if remaining <= 0 {
        return Err(ModelBudgetExceeded);
      }
      return Ok(remaining);
    }

    /** Unlike the other checks this one lets a clock pass that runs backwards. */
    method RemainingWallClockMs(runId: string, now: real) returns (r: Result<real, BudgetErrorCode>)
      ensures r.Ok? <==> runId in runs && now - runs[runId].startedAt < runs[runId].limits.wallClockMs as real
      ensures r.Ok? ==> r.value > 0.0 && now + r.value == runs[runId].startedAt + runs[runId].limits.wallClockMs as real
    {
      if runId !in runs {
        return Err(ExecutionBudgetNotActive);
      }
      var remaining := runs[runId].limits.wallClockMs as real - (now - runs[runId].startedAt);
      if remaining <= 0.0 {
        return Err(WallClockBudgetExceeded);
      }
      return Ok(remaining);
    }

    /** Reported tokens are booked even when they exceed the budget; usage without a total is refused. */
    method ConsumeModelUsage(runId: string, usage: Option<ModelUsage>, now: real) returns (r: Result<(), BudgetErrorCode>)
      modifies this
      ensures r == if runId !in old(runs) then Err(ExecutionBudgetNotActive)
                   else if TotalTokens(usage).None? then Err(ModelUsageUnavailable)
                   else if old(runs)[runId].consumedTokens + TotalTokens(usage).value > old(runs)[runId].limits.modelTokens
                   then Err(ModelBudgetExceeded)
                   else if InTime(old(runs)[runId], now) then Ok(()) else Err(WallClockBudgetExceeded)
      ensures runs == if runId !in old(runs) || TotalTokens(usage).None? then old(runs)
                      else old(runs)[runId := old(runs)[runId].(consumedTokens := old(runs)[runId].consumedTokens + TotalTokens(usage).value)]
      ensures runId in old(runs) ==> OnlyTokensGrew(runId, old(runs), runs)
    {
      if runId !in runs {
        return Err(ExecutionBudgetNotActive);
      }
      var consumed := TotalTokens(usage);
      if consumed.None? {
        return Err(ModelUsageUnavailable);
      }
      runs := runs[runId := runs[runId].(consumedTokens := runs[runId].consumedTokens + consumed.value)];
      if runs[runId].consumedTokens > runs[runId].limits.modelTokens {
        return Err(ModelBudgetExceeded);
      }
      if !InTime(runs[runId], now) {
        return Err(WallClockBudgetExceeded);
      }
      return Ok(());
    }

    method Finish(runId: string)
      modifies this
      ensures runs == old(runs) - {runId}
    {
      runs := runs - {runId};
    }
  }
}
