/**
 The interpreter of an execution job: observe, decide, resolve, authorize, execute and verify,
 appending one trace event after each stage and a last one that closes the run.
 */
module ExecutionRuntime {
  import opened Wrappers
  import opened ExecutionBudget
  import opened ExecutionTrace

  /** One-time leave to execute; marked when the side effect is about to happen. */
  class ExecutionPermit {
    var dispatched: bool

    constructor ()
      ensures !dispatched
    {
      dispatched := false;
    }

    /** The run may have been aborted, or its authority to act may be over. */
    method AssertAuthorizedForDispatch() returns (r: Result<(), Failure>)
      modifies this
      ensures dispatched == (old(dispatched) || r.Ok?)
    {
      if * {
        var failure: Failure := *;
        return Err(failure);
      }
      dispatched := true;
      return Ok(());
    }
  }

  datatype PolicyDecision = PolicyDecision(allowed: bool, reason: string)

  function PolicyStage(decision: PolicyDecision): Stage {
    if decision.allowed then PolicyAuthorized(decision.reason) else PolicyDenied(decision.reason)
  }

  datatype StepResult = Continue | Stopped(completion: Completion)

  /** What a call of the executor makes of the step it belongs to. */
  predicate CallEnds(call: Call, events: seq<Event>, r: Result<StepResult, Failure>) {
    && (r == Ok(Continue) ==> Succeeded(call))
    && (call.result.Err? && call.dispatched ==> r == Err(OutcomeUnknown))
    && (call.result.Err? && !call.dispatched ==> r == Err(call.result.error))
    && (call.result.Ok? && !call.result.value.ok && call.at < |events| ==>
          r == Ok(Stopped(FailedOutcome(call.result.value, call.dispatched))))
  }

  /** How a step that began with the last event of `before` ended. */
  predicate StepEnds(item: Item, before: seq<Event>, events: seq<Event>, r: Result<StepResult, Failure>)
    requires before != []
  {
    && before <= events
    && Follows(item, events[|before| - 1..])
    && (r == Ok(Continue) <==> Done(item, events[|before| - 1..]))
    && (r.Ok? && r.value.Stopped? ==> r.value.completion.CompletedBlocked? || r.value.completion.CompletedError?)
    && (events[|events| - 1].stage.PolicyDenied? ==> r == Ok(Stopped(CompletedBlocked("PolicyDenied"))))
    && !events[|events| - 1].stage.FindingRaised?
  }

  /** How a check that began with the last event of `before` ended. */
  predicate CheckEnds(
      job: Job, item: Item, first: Graph, after: Graph, before: seq<Event>, events: seq<Event>,
      r: Result<StepResult, Failure>)
    requires before != []
  {
    && before <= events
    && Follows(item, events[|before| - 1..])
    && (r == Ok(Continue) <==> Done(item, events[|before| - 1..]))
    && (r.Ok? && r.value.Stopped? <==> events[|events| - 1].stage.FindingRaised?)
    && (r.Ok? && r.value.Stopped? ==>
          && |events| == |before| + 2
          && events[|before|].stage.Verified? && events[|before|].stage.verification.Failed?
          && r.value.completion == CompletedFinding(FindingFromVerification(job.runId, events[|before|].stage.verification, first, after))
          && events[|before| + 1].stage == FindingRaised(r.value.completion.finding))
    && !events[|events| - 1].stage.PolicyDenied?
  }

  /** How the stages of a run ended, before the terminal event. */
  predicate RunEnds(job: Job, events: seq<Event>, r: Result<Completion, Failure>) {
    && (r == Ok(CompletedPassed) <==> Performed(Script(job), events))
    && (r.Ok? && r.value.CompletedFinding? <==> events != [] && events[|events| - 1].stage.FindingRaised?)
    && (r.Ok? && r.value.CompletedFinding? ==> FindingIsJustified(job.runId, events, r.value.finding))
    && (events != [] && events[|events| - 1].stage.PolicyDenied? ==> r == Ok(CompletedBlocked("PolicyDenied")))
  }

  /** Every call so far was authorized and went well. */
  predicate AllWell(calls: seq<Call>, events: seq<Event>) {
    forall i :: 0 <= i < |calls| ==> CallIsAuthorized(calls[i], events) && Succeeded(calls[i])
  }

  /** Every call was authorized, only the last may have gone badly, and then it settles the result. */
  predicate CallsEnd(calls: seq<Call>, events: seq<Event>, r: Result<StepResult, Failure>) {
    && (forall i :: 0 <= i < |calls| ==> CallIsAuthorized(calls[i], events))
    && (forall i :: 0 <= i < |calls| - 1 ==> Succeeded(calls[i]))
    && (calls != [] ==> CallEnds(calls[|calls| - 1], events, r) || Succeeded(calls[|calls| - 1]))
  }

  lemma {:induction false} AllWellStays(calls: seq<Call>, before: seq<Event>, events: seq<Event>)
    requires AllWell(calls, before) && before <= events
    ensures AllWell(calls, events)
  {
    forall i | 0 <= i < |calls| ensures CallIsAuthorized(calls[i], events) {
      var at := calls[i].at;
      assert CallIsAuthorized(calls[i], before);
      assert before[at - 4..at] == events[at - 4..at];
    }
  }

  function Stops(r: Result<StepResult, Failure>): Result<Completion, Failure>
    requires r != Ok(Continue)
  {
    match r
    case Ok(Stopped(completion)) => Ok(completion)
    case Err(failure) => Err(failure)
  }

  /** What the history of executor calls says about the result of the stages. */
  predicate RunCalls(calls: seq<Call>, events: seq<Event>, r: Result<Completion, Failure>) {
    && (forall i :: 0 <= i < |calls| ==> CallIsAuthorized(calls[i], events))
    && (forall i :: 0 <= i < |calls| - 1 ==> Succeeded(calls[i]))
    && (calls != [] && !Succeeded(calls[|calls| - 1]) ==> CallSettles(calls[|calls| - 1], events, r))
  }

  /** A call that did not go well ends the run, and never as passed or with a finding. */
  predicate CallSettles(call: Call, events: seq<Event>, r: Result<Completion, Failure>) {
    && (r.Ok? ==> r.value.CompletedBlocked? || r.value.CompletedError?)
    && (call.result.Err? && call.dispatched ==> r == Err(OutcomeUnknown))
    && (call.result.Err? && !call.dispatched ==> r == Err(call.result.error))
    && (call.result.Ok? && !call.result.value.ok && call.at < |events| ==>
          r == Ok(FailedOutcome(call.result.value, call.dispatched)))
  }

  /** The first `n` items are done, `first` is the first observation. */
  predicate SoFar(items: seq<Item>, n: nat, events: seq<Event>, first: Option<Graph>, calls: seq<Call>)
    requires n <= |items|
  {
    && Performed(items[..n], events) && AllWell(calls, events)
    && (events != [] ==> first.Some? && events[0].stage == Observation(first.value))
    && (first.Some? ==> events != [])
  }

  lemma {:induction false} PerformedLast(items: seq<Item>, events: seq<Event>)
    requires Performed(items, events) && events != []
    ensures events[0].stage.Observation?
    ensures events[|events| - 1].stage.ActionExecuted? || events[|events| - 1].stage.Verified?
  {
    var cut := |events| - Length(items[|items| - 1]);
    assert events[cut..][0] == events[cut] && events[cut..][|events| - cut - 1] == events[|events| - 1];
    if cut > 0 {
      PerformedLast(items[..|items| - 1], events[..cut]);
    }
  }

  /** The run stopped between two items. */
  lemma {:induction false} StopsBetween(
      job: Job, n: nat, events: seq<Event>, first: Option<Graph>, calls: seq<Call>, failure: Failure)
    requires n < |Script(job)| && SoFar(Script(job), n, events, first, calls)
    ensures StoppedAt(Script(job), events, n, |events|)
    ensures RunEnds(job, events, Err(failure)) && RunCalls(calls, events, Err(failure))
  {
    assert events[..|events|] == events && events[|events|..] == [];
    StoppedShortIsNotPerformed(Script(job), events, n, |events|);
    if events != [] {
      PerformedLast(Script(job)[..n], events);
    }
  }

  /** The run stopped inside an action. */
  lemma {:induction false} StopsInStep(
      job: Job, n: nat, k: nat, before: seq<Event>, events: seq<Event>, calls: seq<Call>,
      r: Result<StepResult, Failure>)
    requires n < |Script(job)| && Script(job)[n].Act? && |before| == k + 1
    requires Performed(Script(job)[..n], before[..k])
    requires StepEnds(Script(job)[n], before, events, r) && r != Ok(Continue) && CallsEnd(calls, events, r)
    ensures StoppedAt(Script(job), events, n, k)
    ensures RunEnds(job, events, Stops(r)) && RunCalls(calls, events, Stops(r))
  {
    assert events[..k] == before[..k];
    StoppedShortIsNotPerformed(Script(job), events, n, k);
    assert events[k..][|events| - k - 1] == events[|events| - 1];
  }

  /** The run stopped inside a check. */
  lemma {:induction false} StopsInCheck(
      job: Job, n: nat, k: nat, first: Graph, after: Graph, before: seq<Event>, events: seq<Event>, calls: seq<Call>, r: Result<StepResult, Failure>)
    requires n < |Script(job)| && Script(job)[n].Check? && |before| == k + 1
    requires Performed(Script(job)[..n], before[..k])
    requires before[0].stage == Observation(first) && before[k].stage == Observation(after)
    requires CheckEnds(job, Script(job)[n], first, after, before, events, r) && r != Ok(Continue) && AllWell(calls, events)
    ensures StoppedAt(Script(job), events, n, k)
    ensures RunEnds(job, events, Stops(r)) && RunCalls(calls, events, Stops(r))
  {
    assert events[..k] == before[..k];
    StoppedShortIsNotPerformed(Script(job), events, n, k);
    assert events[k..][|events| - k - 1] == events[|events| - 1];
  }

  /** An item ended well, and the next one may begin. */
  lemma {:induction false} ItemDone(
      items: seq<Item>, n: nat, k: nat, first: Graph, before: seq<Event>, events: seq<Event>, calls: seq<Call>)
    requires n < |items| && |before| == k + 1 && before <= events
    requires Performed(items[..n], before[..k]) && Done(items[n], events[k..])
    requires before[0].stage == Observation(first) && AllWell(calls, events)
    ensures SoFar(items, n + 1, events, Some(first), calls)
  {
    assert events[..k] == before[..k];
    PerformedNext(items, n, events, k);
  }

  /** A step either takes the run to its next item or stops it. */
  lemma {:induction false} StepMoves(
      job: Job, n: nat, events0: seq<Event>, first: Graph, before: seq<Event>, events: seq<Event>, calls: seq<Call>, r: Result<StepResult, Failure>)
    requires n < |Script(job)| && Script(job)[n].Act? && Performed(Script(job)[..n], events0)
    requires |before| == |events0| + 1 && events0 <= before && before[0].stage == Observation(first)
    requires StepEnds(Script(job)[n], before, events, r) && CallsEnd(calls, events, r)
    ensures r == Ok(Continue) ==> SoFar(Script(job), n + 1, events, Some(first), calls)
    ensures r != Ok(Continue) ==>
      && StoppedAt(Script(job), events, n, |events0|)
      && RunEnds(job, events, Stops(r)) && RunCalls(calls, events, Stops(r))
  {
    assert before[..|events0|] == events0;
    if r == Ok(Continue) {
      ItemDone(Script(job), n, |events0|, first, before, events, calls);
    } else {
      StopsInStep(job, n, |events0|, before, events, calls, r);
    }
  }

  /** A check either takes the run to its next item or stops it. */
  lemma {:induction false} CheckMoves(
      job: Job, n: nat, events0: seq<Event>, first: Graph, after: Graph, before: seq<Event>, events: seq<Event>, calls: seq<Call>,
      r: Result<StepResult, Failure>)
    requires n < |Script(job)| && Script(job)[n].Check? && Performed(Script(job)[..n], events0)
    requires |before| == |events0| + 1 && events0 <= before
    requires before[0].stage == Observation(first) && before[|events0|].stage == Observation(after)
    requires CheckEnds(job, Script(job)[n], first, after, before, events, r) && AllWell(calls, events)
    ensures r == Ok(Continue) ==> SoFar(Script(job), n + 1, events, Some(first), calls)
    ensures r != Ok(Continue) ==>
      && StoppedAt(Script(job), events, n, |events0|)
      && RunEnds(job, events, Stops(r)) && RunCalls(calls, events, Stops(r))
  {
    assert before[..|events0|] == events0;
    if r == Ok(Continue) {
      ItemDone(Script(job), n, |events0|, first, before, events, calls);
    } else {
      StopsInCheck(job, n, |events0|, first, after, before, events, calls, r);
    }
  }

  /** All items are done. */
  lemma {:induction false} StopsPassed(job: Job, events: seq<Event>, first: Option<Graph>, calls: seq<Call>)
    requires SoFar(Script(job), |Script(job)|, events, first, calls)
    ensures StoppedAt(Script(job), events, |Script(job)|, |events|)
    ensures RunEnds(job, events, Ok(CompletedPassed)) && RunCalls(calls, events, Ok(CompletedPassed))
  {
    assert Script(job)[..|Script(job)|] == Script(job) && events[..|events|] == events;
    if events != [] {
      PerformedLast(Script(job), events);
    }
  }

  /** The trace has come as far as the authorization of the item that began with the last event of `before`. */
  predicate AtAuthorization(item: Item, before: seq<Event>, events: seq<Event>) {
    && item.Act? && before != [] && before <= events && |events| == |before| + 3
    && Follows(item, events[|before| - 1..]) && events[|events| - 1].stage.PolicyAuthorized?
  }

  /** Whatever breaks a step before the policy gate is asked, the trace shows how far it came. */
  lemma {:induction false} StepBreaks(item: Item, before: seq<Event>, events: seq<Event>)
    requires item.Act? && before != [] && before[|before| - 1].stage.Observation? && before[|before| - 1].stepIndex == item.index
    requires before <= events && |events| <= |before| + 2
    requires |events| > |before| ==>
      && events[|before|].stepIndex == item.index && events[|before|].stage.DecisionMade?
      && (item.step.Some? ==> DecisionMatchesStep(events[|before|].stage.decision, item.step.value))
    requires |events| > |before| + 1 ==>
      events[|before| + 1].stepIndex == item.index && events[|before| + 1].stage.ActionResolved?
    ensures forall failure :: StepEnds(item, before, events, Err(failure))
  {
  }

  /** With the gate's answer recorded the step ends blocked, or stands at its authorization. */
  lemma {:induction false} PolicyIsRecorded(
      item: Item, before: seq<Event>, events: seq<Event>, decision: Decision, action: string, policy: PolicyDecision)
    requires item.Act? && before != [] && before[|before| - 1].stage.Observation? && before[|before| - 1].stepIndex == item.index
    requires item.step.Some? ==> DecisionMatchesStep(decision, item.step.value)
    requires events == before + [Event(item.index, DecisionMade(decision)), Event(item.index, ActionResolved(action)),
                                 Event(item.index, PolicyStage(policy))]
    ensures policy.allowed ==> AtAuthorization(item, before, events) && events[|events| - 2].stage == ActionResolved(action)
    ensures !policy.allowed ==> StepEnds(item, before, events, Ok(Stopped(CompletedBlocked("PolicyDenied"))))
  {
  }

  lemma {:induction false} AuthorizedStops(item: Item, before: seq<Event>, events: seq<Event>)
    requires AtAuthorization(item, before, events)
    ensures forall failure :: StepEnds(item, before, events, Err(failure))
  {
  }

  lemma {:induction false} ExecutedEnds(item: Item, before: seq<Event>, events1: seq<Event>, events: seq<Event>, outcome: Outcome)
    requires AtAuthorization(item, before, events1) && events == events1 + [Event(item.index, ActionExecuted(outcome))]
    ensures outcome.ok ==> StepEnds(item, before, events, Ok(Continue))
    ensures !outcome.ok ==> forall dispatched :: StepEnds(item, before, events, Ok(Stopped(FailedOutcome(outcome, dispatched))))
  {
    assert events[|before| - 1..] == events1[|before| - 1..] + [Event(item.index, ActionExecuted(outcome))];
  }

  lemma {:induction false} CallIsDue(item: Item, action: string, before: seq<Event>, events: seq<Event>, call: Call)
    requires AtAuthorization(item, before, events) && events[|events| - 2].stage == ActionResolved(action)
    requires call.item == item && call.at == |events| && call.action == action
    requires 0 < call.budget.consumedSteps <= call.budget.limits.steps && call.budget.consumedTokens < call.budget.limits.modelTokens
    ensures CallIsAuthorized(call, events)
  {
    assert events[call.at - 4..call.at] == events[|before| - 1..];
  }

  /** One invocation of the runtime for a job; `calls` is the history of executor calls, `verdicts` that of verifier answers. */
  class ExecutionRun {
    const job: Job
    const budget: DeterministicExecutionBudget
    const objectiveOnly: Limits
    var events: seq<Event>
    ghost var calls: seq<Call>
    ghost var verdicts: seq<Verdict>

    constructor (job: Job, budget: DeterministicExecutionBudget, maximumWallClockMs: int, maximumModelTokens: int)
      ensures this.job == job && this.budget == budget && events == [] && calls == [] && verdicts == []
      ensures objectiveOnly == Limits(1, maximumWallClockMs, maximumModelTokens)
    {
      this.job, this.budget := job, budget;
      objectiveOnly := Limits(1, maximumWallClockMs, maximumModelTokens);
      events, calls, verdicts := [], [], [];
    }

    function JobLimits(): Limits {
      if job.plan.Some? then job.plan.value.limits else objectiveOnly
    }

    /** The run is on the budget's books with `steps` steps begun. */
    ghost predicate Booked(steps: nat)
      reads budget
    {
      && job.runId in budget.runs
      && budget.runs[job.runId].limits == JobLimits()
      && budget.runs[job.runId].consumedSteps == steps <= JobLimits().steps
    }

    /** An operation starts only inside the wall clock and unless the run is aborted. */
    method WithinWallClock() returns (r: Result<(), Failure>) {
      var now: real := *;
      var remaining := budget.RemainingWallClockMs(job.runId, now);
      if remaining.Err? {
        return Err(BudgetFailure(remaining.error));
      }
      if * {
        var failure: Failure := *;
        return Err(failure);
      }
      return Ok(());
    }

    /** An event is appended, or the append fails and leaves nothing behind. */
    method Record(stepIndex: Option<int>, stage: Stage) returns (r: Result<(), Failure>)
      modifies this`events
      ensures events == if r.Ok? then old(events) + [Event(stepIndex, stage)] else old(events)
    {
      r := WithinWallClock();
      if r.Err? {
        return;
      }
      if * {
        var failure: Failure := *;
        return Err(failure);
      }
      events := events + [Event(stepIndex, stage)];
    }

    /** Decision provider and verifier may call a model any number of times, and book its usage. */
    method UseModel() returns (r: Result<(), Failure>)
      requires job.runId in budget.runs
      modifies budget
      ensures OnlyTokensGrew(job.runId, old(budget.runs), budget.runs)
    {
      r := WithinWallClock();
      if r.Err? {
        return;
      }
      var rounds: nat := *;
      while rounds > 0
        invariant OnlyTokensGrew(job.runId, old(budget.runs), budget.runs)
      {
        var now: real := *;
        var allowance := budget.MaximumOutputTokens(job.runId, now);
        if allowance.Err? {
          return Err(BudgetFailure(allowance.error));
        }
        var usage: Option<ModelUsage> := *;
        now := *;
        var booked := budget.ConsumeModelUsage(job.runId, usage, now);
        if booked.Err? {
          return Err(BudgetFailure(booked.error));
        }
        rounds := rounds - 1;
      }
      if * {
        var failure: Failure := *;
        r := Err(failure);
      }
    }

    method Capture(stepIndex: Option<int>) returns (r: Result<Graph, Failure>)
      modifies this`events
      ensures r.Ok? ==> events == old(events) + [Event(stepIndex, Observation(r.value))]
      ensures r.Err? ==> events == old(events)
    {
      var started := WithinWallClock();
      if started.Err? {
        return Err(started.error);
      }
      if * {
        var failure: Failure := *;
        return Err(failure);
      }
      var graph: Graph := *;
      var recorded := Record(stepIndex, Observation(graph));
      if recorded.Err? {
        return Err(recorded.error);
      }
      return Ok(graph);
    }

    /** The executor may dispatch or not, throw or answer; a call is made only inside the wall clock. */
    method Execute(action: string, permit: ExecutionPermit, ghost item: Item) returns (r: Result<Outcome, Failure>)
      requires job.runId in budget.runs && !permit.dispatched
      modifies permit, this`calls
      ensures calls == old(calls) ==> r.Err? && !permit.dispatched
      ensures calls == old(calls)
        || calls == old(calls) + [Call(item, |events|, action, budget.runs[job.runId], permit.dispatched, r)]
    {
      var started := WithinWallClock();
      if started.Err? {
        return Err(started.error);
      }
      if * {
        var dispatch := permit.AssertAuthorizedForDispatch();
      }
      var outcome: Result<Outcome, Failure> := *;
      r := outcome;
      calls := calls + [Call(item, |events|, action, budget.runs[job.runId], permit.dispatched, r)];
    }

    /** From the permit to the end of the step. */
    method ExecuteAuthorized(
        item: Item, action: string, ghost before: seq<Event>, ghost steps: nat)
      returns (r: Result<StepResult, Failure>)
      requires Booked(steps) && steps > 0 && AtAuthorization(item, before, events) && AllWell(calls, events)
      requires events[|events| - 2].stage == ActionResolved(action)
      modifies this`events, this`calls
      ensures StepEnds(item, before, events, r)
      ensures CallsEnd(calls, events, r) && old(calls) <= calls
    {
      ghost var events1 := events;
      AuthorizedStops(item, before, events1);
      var now: real := *;
      var allowance := budget.MaximumOutputTokens(job.runId, now);
      if allowance.Err? {
        return Err(BudgetFailure(allowance.error));
      }
      var permit := new ExecutionPermit();
      var outcome := Execute(action, permit, item);
      if calls != old(calls) {
        CallIsDue(item, action, before, events, calls[|calls| - 1]);
      }
      if outcome.Err? {
        return Err(if permit.dispatched then OutcomeUnknown else outcome.error);
      }
      var recorded := Record(item.index, ActionExecuted(outcome.value));
      AuthorizedStays(calls[|calls| - 1], events1, events);
      AllWellStays(old(calls), events1, events);
      if recorded.Err? {
        return Err(recorded.error);
      }
      ExecutedEnds(item, before, events1, events, outcome.value);
      if !outcome.value.ok {
        return Ok(Stopped(FailedOutcome(outcome.value, permit.dispatched)));
      }
      return Ok(Continue);
    }

    /** Ask for a decision; one that departs from the plan is not recorded. */
    method Decide(item: Item) returns (r: Result<Decision, Failure>)
      requires job.runId in budget.runs && item.Act?
      modifies this`events, budget
      ensures OnlyTokensGrew(job.runId, old(budget.runs), budget.runs)
      ensures r.Ok? ==> events == old(events) + [Event(item.index, DecisionMade(r.value))]
      ensures r.Ok? && item.step.Some? ==> DecisionMatchesStep(r.value, item.step.value)
      ensures r.Err? ==> events == old(events)
    {
      var model := UseModel();
      if model.Err? {
        return Err(model.error);
      }
      var decision: Decision := *;
      if item.step.Some? && !DecisionMatchesStep(decision, item.step.value) {
        return Err(BlockedFailure("PlanStepMismatch"));
      }
      var recorded := Record(item.index, DecisionMade(decision));
      if recorded.Err? {
        return Err(recorded.error);
      }
      return Ok(decision);
    }

    method Resolve(index: Option<int>) returns (r: Result<string, Failure>)
      modifies this`events
      ensures events == if r.Ok? then old(events) + [Event(index, ActionResolved(r.value))] else old(events)
    {
      var started := WithinWallClock();
      if started.Err? {
        return Err(started.error);
      }
      if * {
        var failure: Failure := *;
        return Err(failure);
      }
      var action: string := *;
      var recorded := Record(index, ActionResolved(action));
      if recorded.Err? {
        return Err(recorded.error);
      }
      return Ok(action);
    }

    /** Ask the policy gate; its answer, yes or no, is recorded. */
    method Authorize(index: Option<int>) returns (r: Result<PolicyDecision, Failure>)
      modifies this`events
      ensures events == if r.Ok? then old(events) + [Event(index, PolicyStage(r.value))] else old(events)
    {
      var started := WithinWallClock();
      if started.Err? {
        return Err(started.error);
      }
      if * {
        var failure: Failure := *;
        return Err(failure);
      }
      var allowed: bool, reason: string := *, *;
      var decision := PolicyDecision(allowed, reason);
      var recorded := Record(index, PolicyStage(decision));
      if recorded.Err? {
        return Err(recorded.error);
      }
      return Ok(decision);
    }

    method ExecuteStep(item: Item, observation: Graph, ghost steps: nat) returns (r: Result<StepResult, Failure>)
      requires Booked(steps) && steps > 0 && item.Act?
      requires events != [] && events[|events| - 1] == Event(item.index, Observation(observation)) && AllWell(calls, events)
      modifies this`events, this`calls, budget
      ensures OnlyTokensGrew(job.runId, old(budget.runs), budget.runs)
      ensures StepEnds(item, old(events), events, r)
      ensures CallsEnd(calls, events, r) && old(calls) <= calls
    {
      ghost var before := events;
      var decision := Decide(item);
      StepBreaks(item, before, events);
      AllWellStays(calls, before, events);
      if decision.Err? {
        return Err(decision.error);
      }
      var action := Resolve(item.index);
      StepBreaks(item, before, events);
      AllWellStays(calls, before, events);
      if action.Err? {
        return Err(action.error);
      }
      var allowed := Authorize(item.index);
      AllWellStays(calls, before, events);
      if allowed.Err? {
        return Err(allowed.error);
      }
      PolicyIsRecorded(item, before, events, decision.value, action.value, allowed.value);
      if !allowed.value.allowed {
        return Ok(Stopped(CompletedBlocked("PolicyDenied")));
      }
      r := ExecuteAuthorized(item, action.value, before, steps);
    }

    /** The verifier is asked about the claims of the item; a failed verification becomes a finding. */
    method Verify(item: Item, first: Graph, after: Graph) returns (r: Result<StepResult, Failure>, ghost verdict: Option<Verdict>)
      requires job.runId in budget.runs && item.Check?
      requires events != [] && events[|events| - 1] == Event(item.index, Observation(after)) && events[0].stage == Observation(first)
      modifies this`events, this`verdicts, budget
      ensures OnlyTokensGrew(job.runId, old(budget.runs), budget.runs)
      ensures CheckEnds(job, item, first, after, old(events), events, r)
      ensures verdict.None? ==> verdicts == old(verdicts) && events == old(events)
      ensures verdict.Some? ==>
        && verdicts == old(verdicts) + [verdict.value]
        && verdict.value.item == item && verdict.value.at == |old(events)| && VerdictIsDue(verdict.value, events)
    {
      verdict := None;
      var model := UseModel();
      if model.Err? {
        return Err(model.error), verdict;
      }
      var verification: Verification := *;
      verdict := Some(Verdict(item, |events|, first, after, verification));
      verdicts := verdicts + [verdict.value];
      var recorded := Record(item.index, Verified(verification));
      if recorded.Err? {
        return Err(recorded.error), verdict;
      }
      match verification {
        case Passed(_) =>
          return Ok(Continue), verdict;
        case Failed(_, _, _) =>
          var finding := FindingFromVerification(job.runId, verification, first, after);
          recorded := Record(item.index, FindingRaised(finding));
          if recorded.Err? {
            return Err(recorded.error), verdict;
          }
          return Ok(Stopped(CompletedFinding(finding))), verdict;
      }
    }

    /** One action item: observe, then execute the step. */
    method PerformStep(
        ghost n: nat, item: Item, first: Option<Graph>, ghost steps: nat)
      returns (r: Result<StepResult, Failure>, f: Option<Graph>)
      requires Booked(steps) && steps > 0 && item.Act?
      requires n < |Script(job)| && Script(job)[n] == item && SoFar(Script(job), n, events, first, calls)
      requires Checked(Script(job), n, events, verdicts)
      modifies this`events, this`calls, budget
      ensures r == Ok(Continue) ==> Checked(Script(job), n + 1, events, verdicts)
      ensures r != Ok(Continue) ==> CheckedUpTo(Script(job), n, events, verdicts)
      ensures OnlyTokensGrew(job.runId, old(budget.runs), budget.runs)
      ensures r == Ok(Continue) ==> SoFar(Script(job), n + 1, events, f, calls)
      ensures r != Ok(Continue) ==>
        && StoppedAt(Script(job), events, n, |old(events)|)
        && RunEnds(job, events, Stops(r)) && RunCalls(calls, events, Stops(r))
    {
      f := first;
      ghost var events0 := events;
      var observation := Capture(item.index);
      CheckedStays(Script(job), n, events0, events, verdicts);
      if observation.Err? {
        StopsBetween(job, n, events, first, calls, observation.error);
        return Err(observation.error), f;
      }
      f := Some(if first.Some? then first.value else observation.value);
      ghost var before := events;
      assert before[..|events0|] == events0;
      AllWellStays(calls, events0, events);
      r := ExecuteStep(item, observation.value, steps);
      StepMoves(job, n, events0, f.value, before, events, calls, r);
      ActIsNoCheck(Script(job), n, before, events, verdicts);
    }

    /** One check item: observe, then verify against the first observation of the run. */
    method PerformCheck(ghost n: nat, item: Item, first: Option<Graph>) returns (r: Result<StepResult, Failure>, f: Option<Graph>)
      requires job.runId in budget.runs && item.Check?
      requires n < |Script(job)| && Script(job)[n] == item && SoFar(Script(job), n, events, first, calls)
      requires Checked(Script(job), n, events, verdicts)
      modifies this`events, this`verdicts, budget
      ensures r == Ok(Continue) ==> Checked(Script(job), n + 1, events, verdicts)
      ensures r != Ok(Continue) ==> CheckedUpTo(Script(job), n, events, verdicts)
      ensures OnlyTokensGrew(job.runId, old(budget.runs), budget.runs)
      ensures r == Ok(Continue) ==> SoFar(Script(job), n + 1, events, f, calls)
      ensures r != Ok(Continue) ==>
        && StoppedAt(Script(job), events, n, |old(events)|)
        && RunEnds(job, events, Stops(r)) && RunCalls(calls, events, Stops(r))
    {
      f := first;
      ghost var events0 := events;
      var observation := Capture(item.index);
      CheckedStays(Script(job), n, events0, events, verdicts);
      if observation.Err? {
        StopsBetween(job, n, events, first, calls, observation.error);
        return Err(observation.error), f;
      }
      f := Some(if first.Some? then first.value else observation.value);
      ghost var before := events;
      assert before[..|events0|] == events0;
      ghost var verdicts1, verdict := verdicts, None;
      r, verdict := Verify(item, f.value, observation.value);
      if verdict.Some? {
        CheckIsAnswered(Script(job), n, before, events, verdicts1, verdict.value);
      }
      AllWellStays(calls, events0, events);
      CheckMoves(job, n, events0, f.value, observation.value, before, events, calls, r);
    }

    /** The run is booked as before `steps` more steps, and no other run was touched. */
    ghost predicate BookedSince(before: map<string, RunBudget>, steps: nat)
      reads budget
    {
      Booked(steps) && budget.runs - {job.runId} == before - {job.runId}
    }

    /** One planned step: count it, then perform or check it. */
    method PerformPlanned(plan: Plan, i: nat, first: Option<Graph>, ghost booked: map<string, RunBudget>)
      returns (r: Result<StepResult, Failure>, f: Option<Graph>)
      requires job.plan == Some(plan) && i < |plan.steps| && BookedSince(booked, i)
      requires SoFar(Script(job), i, events, first, calls) && Checked(Script(job), i, events, verdicts)
      modifies this`events, this`calls, this`verdicts, budget
      ensures budget.runs - {job.runId} == booked - {job.runId}
      ensures r == Ok(Continue) ==> Checked(Script(job), i + 1, events, verdicts)
      ensures r != Ok(Continue) ==> CheckedUpTo(Script(job), i, events, verdicts)
      ensures r == Ok(Continue) ==> BookedSince(booked, i + 1) && SoFar(Script(job), i + 1, events, f, calls)
      ensures r != Ok(Continue) ==>
        && StoppedAt(Script(job), events, i, |old(events)|)
        && RunEnds(job, events, Stops(r)) && RunCalls(calls, events, Stops(r))
    {
      f := first;
      var item := ItemOf(plan.steps[i], i);
      var now: real := *;
      var started := budget.BeforeStep(job.runId, IndexOf(plan.steps[i], i), now);
      if started.Err? {
        StopsBetween(job, i, events, first, calls, BudgetFailure(started.error));
        CheckedStays(Script(job), i, events, events, verdicts);
        return Err(BudgetFailure(started.error)), f;
      }
      assert BookedSince(booked, i + 1);
      if item.Check? {
        r, f := PerformCheck(i, item, first);
      } else {
        r, f := PerformStep(i, item, first, i + 1);
      }
    }

    /** The steps of the plan in order; without a verify step a last check of all expected claims. */
    method RunPlan(plan: Plan, ghost booked: map<string, RunBudget>)
      returns (r: Result<Completion, Failure>, current: Option<int>, ghost n: nat, ghost k: nat)
      requires job.plan == Some(plan) && events == [] && calls == [] && verdicts == [] && BookedSince(booked, 0)
      modifies this`events, this`calls, this`verdicts, budget
      ensures CheckedUpTo(Script(job), n, events, verdicts)
      ensures StoppedAt(Script(job), events, n, k) && current == TerminalIndex(job, n)
      ensures RunEnds(job, events, r) && RunCalls(calls, events, r)
      ensures budget.runs - {job.runId} == booked - {job.runId}
      ensures Min(n, |plan.steps|) <= JobLimits().steps
    {
      var steps := plan.steps;
      var first: Option<Graph> := None;
      var hasVerify := false;
      var i := 0;
      current := None;
      while i < |steps|
        invariant 0 <= i <= |steps|
        invariant hasVerify <==> exists j :: 0 <= j < i && steps[j].kind.VerifyStep?
        invariant current == if i == 0 then None else Some(IndexOf(steps[i - 1], i - 1))
        invariant BookedSince(booked, i)
        invariant SoFar(Script(job), i, events, first, calls) && Checked(Script(job), i, events, verdicts)
      {
        n, k := i, |events|;
        current := Some(IndexOf(steps[i], i));
        hasVerify := hasVerify || steps[i].kind.VerifyStep?;
        var result: Result<StepResult, Failure>;
        result, first := PerformPlanned(plan, i, first, booked);
        if result != Ok(Continue) {
          return Stops(result), current, n, k;
        }
        i := i + 1;
      }
      r, n, k := CheckLast(plan, hasVerify, first, booked);
    }

    /** A plan without a verify step gets one check of all its expected claims. */
    method CheckLast(plan: Plan, hasVerify: bool, first: Option<Graph>, ghost booked: map<string, RunBudget>)
      returns (r: Result<Completion, Failure>, ghost n: nat, ghost k: nat)
      requires job.plan == Some(plan) && BookedSince(booked, |plan.steps|) && (hasVerify <==> HasVerify(plan.steps))
      requires SoFar(Script(job), |plan.steps|, events, first, calls) && Checked(Script(job), |plan.steps|, events, verdicts)
      modifies this`events, this`verdicts, budget
      ensures CheckedUpTo(Script(job), n, events, verdicts)
      ensures StoppedAt(Script(job), events, n, k) && n >= |plan.steps|
      ensures RunEnds(job, events, r) && RunCalls(calls, events, r)
      ensures budget.runs - {job.runId} == booked - {job.runId}
    {
      n, k := |plan.steps|, |events|;
      var last := first;
      if !hasVerify {
        var result: Result<StepResult, Failure>;
        result, last := PerformCheck(|plan.steps|, Check(Some(LastIndex(plan.steps)), plan.expectedClaimIds), first);
        if result != Ok(Continue) {
          return Stops(result), n, k;
        }
      }
      n, k := |Script(job)|, |events|;
      StopsPassed(job, events, last, calls);
      CheckedStays(Script(job), n, events, events, verdicts);
      return Ok(CompletedPassed), n, k;
    }

    /** Without a plan: one action of the provider's own choice, then a check. */
    method RunObjectiveOnly(
        ghost booked: map<string, RunBudget>)
      returns (r: Result<Completion, Failure>, ghost n: nat, ghost k: nat)
      requires job.plan.None? && events == [] && calls == [] && verdicts == [] && BookedSince(booked, 0)
      modifies this`events, this`calls, this`verdicts, budget
      ensures CheckedUpTo(Script(job), n, events, verdicts)
      ensures StoppedAt(Script(job), events, n, k)
      ensures RunEnds(job, events, r) && RunCalls(calls, events, r)
      ensures budget.runs - {job.runId} == booked - {job.runId}
    {
      n, k := 0, 0;
      var now: real := *;
      var started := budget.BeforeStep(job.runId, 0, now);
      if started.Err? {
        StopsBetween(job, 0, events, None, calls, BudgetFailure(started.error));
        return Err(BudgetFailure(started.error)), n, k;
      }
      assert BookedSince(booked, 1);
      var result, first := PerformStep(0, Act(None, None), None, 1);
      assert BookedSince(booked, 1);
      if result != Ok(Continue) {
        return Stops(result), n, k;
      }
      n, k := 1, |events|;
      result, first := PerformCheck(1, Check(None, []), first);
      assert BookedSince(booked, 1);
      if result != Ok(Continue) {
        return Stops(result), n, k;
      }
      n, k := 2, |events|;
      StopsPassed(job, events, first, calls);
      CheckedStays(Script(job), n, events, events, verdicts);
      return Ok(CompletedPassed), n, k;
    }

    /** The terminal event lands, or the run ends without a completion. */
    method RecordTerminal(stepIndex: Option<int>, completion: Completion) returns (recorded: bool)
      modifies this`events
      ensures events == if recorded then old(events) + [Event(stepIndex, RunCompleted(TerminalOf(completion)))] else old(events)
    {
      recorded := *;
      if recorded {
        events := events + [Event(stepIndex, RunCompleted(TerminalOf(completion)))];
      }
    }

    /** The stages of the run, whatever comes of them. */
    method RunStages(ghost booked: map<string, RunBudget>)
      returns (r: Result<Completion, Failure>, current: Option<int>, ghost n: nat, ghost k: nat)
      requires events == [] && calls == [] && verdicts == [] && BookedSince(booked, 0)
      modifies this`events, this`calls, this`verdicts, budget
      ensures CheckedUpTo(Script(job), n, events, verdicts)
      ensures StoppedAt(Script(job), events, n, k) && current == TerminalIndex(job, n)
      ensures RunEnds(job, events, r) && RunCalls(calls, events, r)
      ensures job.plan.Some? ==> Min(n, |job.plan.value.steps|) <= JobLimits().steps
      ensures budget.runs - {job.runId} == booked - {job.runId}
    {
      if job.plan.None? {
        r, n, k := RunObjectiveOnly(booked);
        return r, None, n, k;
      }
      r, current, n, k := RunPlan(job.plan.value, booked);
    }

    /** Draw the completion from how the stages ended, and record it; an unexpected error stands for none. */
    method Close(
        result: Result<Completion, Failure>, current: Option<int>, ghost n: nat, ghost k: nat)
      returns (r: Result<Completion, RunError>)
      requires StoppedAt(Script(job), events, n, k) && current == TerminalIndex(job, n)
      requires RunEnds(job, events, result) && RunCalls(calls, events, result)
      requires job.plan.Some? ==> Min(n, |job.plan.value.steps|) <= JobLimits().steps
      modifies this`events
      ensures r.Ok? ==> CompletedRun(job, events, calls, n, k, r.value) && events[..|events| - 1] == old(events)
      ensures r.Err? ==> NoTerminal(events)
    {
      ghost var stages := events;
      NoTerminalInside(Script(job), stages, n, k);
      var completion := if result.Ok? then Some(result.value) else CompletionFromFailure(result.error);
      if completion.None? {
        return Err(Unexpected(result.error));
      }
      var recorded := RecordTerminal(current, completion.value);
      if !recorded {
        return Err(TerminalPersistenceFailed);
      }
      RunIsCompleted(job, stages, calls, result, n, k, completion.value);
      return Ok(completion.value);
    }

    /**
     Run the job.  A run that returns a completion has left a trace of its plan's language and, last
     and only once, the event that closes it and agrees with the completion.
     */
    method Run() returns (r: Result<Completion, RunError>, ghost n: nat, ghost k: nat)
      requires events == [] && calls == [] && verdicts == []
      modifies this`events, this`calls, this`verdicts, budget
      ensures budget.runs == old(budget.runs)
      ensures r.Ok? ==> CompletedRun(job, events, calls, n, k, r.value)
      ensures r.Ok? ==> CheckedUpTo(Script(job), n, events[..|events| - 1], verdicts)
      ensures r.Err? ==> NoTerminal(events)
    {
      n, k := 0, 0;
      var now: real := *;
      var begun := budget.Begin(job.runId, JobLimits(), now);
      if begun.Err? {
        return Err(BudgetRefused(begun.error)), n, k;
      }
      ghost var booked := budget.runs;
      var result: Result<Completion, Failure>, current: Option<int>;
      result, current, n, k := RunStages(booked);
      r := Close(result, current, n, k);
      budget.Finish(job.runId);
      BooksAreRestored(old(budget.runs), booked, job.runId);
    }
  }

  predicate NoTerminal(events: seq<Event>) {
    forall i :: 0 <= i < |events| ==> !events[i].stage.RunCompleted?
  }

  lemma {:induction false} BooksAreRestored(before: map<string, RunBudget>, booked: map<string, RunBudget>, runId: string)
    requires runId !in before && runId in booked && booked == before[runId := booked[runId]]
    ensures booked - {runId} == before
  {
  }

  lemma {:induction false} AuthorizedStays(call: Call, before: seq<Event>, events: seq<Event>)
    requires CallIsAuthorized(call, before) && before <= events
    ensures CallIsAuthorized(call, events)
  {
    assert before[call.at - 4..call.at] == events[call.at - 4..call.at];
  }

  /**
   What a run with a completion has left behind: a trace of its plan's language up to where it stopped,
   closed by the one terminal event, and a completion that agrees with the trace and with every call.
   */
  ghost predicate CompletedRun(job: Job, events: seq<Event>, calls: seq<Call>, n: nat, k: nat, completion: Completion) {
    && events != [] && events[|events| - 1] == Event(TerminalIndex(job, n), RunCompleted(TerminalOf(completion)))
    && var stages := events[..|events| - 1];
       && StoppedAt(Script(job), stages, n, k)
       && NoTerminal(stages)
       && Agrees(job, stages, completion)
       && (forall c :: c in calls ==> CallIsAuthorized(c, stages) && CallDecides(c, stages, completion))
       && (job.plan.Some? ==> Min(n, |job.plan.value.steps|) <= job.plan.value.limits.steps)
  }

  /** A run that passed had the verifier answer for every verify step of its plan, or for all expected claims without one. */
  lemma {:induction false} PassedRunCheckedEveryClaim(
      job: Job, events: seq<Event>, calls: seq<Call>, n: nat, k: nat, verdicts: seq<Verdict>, i: nat) returns (v: Verdict)
    requires CompletedRun(job, events, calls, n, k, CompletedPassed) && job.plan.Some?
    requires CheckedUpTo(Script(job), n, events[..|events| - 1], verdicts)
    requires var steps := job.plan.value.steps;
      if HasVerify(steps) then i < |steps| && steps[i].kind.VerifyStep? else i == |steps|
    ensures v in verdicts && v.at < |events| - 1 && events[v.at].stage == Verified(v.verification)
    ensures var plan := job.plan.value;
      v.item.claimIds == if i < |plan.steps| then plan.steps[i].kind.claimIds else plan.expectedClaimIds
  {
    StoppedShortIsNotPerformed(Script(job), events[..|events| - 1], n, k);
    v := EveryClaimIsChecked(job, events[..|events| - 1], verdicts, i);
  }

  lemma {:induction false} RunIsCompleted(
      job: Job, stages: seq<Event>, calls: seq<Call>, r: Result<Completion, Failure>, n: nat, k: nat, completion: Completion)
    requires StoppedAt(Script(job), stages, n, k) && RunEnds(job, stages, r) && RunCalls(calls, stages, r)
    requires Some(completion) == if r.Ok? then Some(r.value) else CompletionFromFailure(r.error)
    requires job.plan.Some? ==> Min(n, |job.plan.value.steps|) <= job.plan.value.limits.steps
    ensures var events := stages + [Event(TerminalIndex(job, n), RunCompleted(TerminalOf(completion)))];
      events[..|events| - 1] == stages && CompletedRun(job, events, calls, n, k, completion)
  {
    var terminal := Event(TerminalIndex(job, n), RunCompleted(TerminalOf(completion)));
    assert (stages + [terminal])[..|stages|] == stages;
    NoTerminalInside(Script(job), stages, n, k);
    CompletionAgrees(job, stages, calls, r, completion);
  }

  datatype RunError = BudgetRefused(code: BudgetErrorCode) | Unexpected(failure: Failure) | TerminalPersistenceFailed

  /** No event inside the stages closes the run. */
  lemma {:induction false} NoTerminalInside(items: seq<Item>, events: seq<Event>, n: nat, k: nat)
    requires StoppedAt(items, events, n, k)
    ensures NoTerminal(events)
  {
    PerformedHasNoTerminal(items[..n], events[..k]);
    forall i | 0 <= i < |events| ensures !events[i].stage.RunCompleted? {
      if i < k {
        assert events[i] == events[..k][i];
      } else {
        assert events[i] == events[k..][i - k];
      }
    }
  }

  lemma {:induction false} PerformedHasNoTerminal(items: seq<Item>, events: seq<Event>)
    requires Performed(items, events)
    ensures NoTerminal(events)
  {
    if items != [] {
      var cut := |events| - Length(items[|items| - 1]);
      PerformedHasNoTerminal(items[..|items| - 1], events[..cut]);
      forall i | 0 <= i < |events| ensures !events[i].stage.RunCompleted? {
        if i < cut {
          assert events[i] == events[..cut][i];
        } else {
          assert events[i] == events[cut..][i - cut];
        }
      }
    }
  }

  /** The completion drawn from how the stages ended agrees with the trace and with every executor call. */
  lemma {:induction false} CompletionAgrees(
      job: Job, events: seq<Event>, calls: seq<Call>, r: Result<Completion, Failure>, completion: Completion)
    requires RunEnds(job, events, r) && RunCalls(calls, events, r)
    requires Some(completion) == if r.Ok? then Some(r.value) else CompletionFromFailure(r.error)
    ensures Agrees(job, events, completion)
    ensures forall c :: c in calls ==> CallIsAuthorized(c, events) && CallDecides(c, events, completion)
  {
    StagesAgree(job, events, r, completion);
    forall i | 0 <= i < |calls| ensures CallDecides(calls[i], events, completion) {
      if !Succeeded(calls[i]) {
        CallAgrees(calls[i], events, r, completion);
      }
    }
  }

  lemma {:induction false} StagesAgree(job: Job, events: seq<Event>, r: Result<Completion, Failure>, completion: Completion)
    requires RunEnds(job, events, r)
    requires Some(completion) == if r.Ok? then Some(r.value) else CompletionFromFailure(r.error)
    ensures Agrees(job, events, completion)
  {
    assert r.Err? ==> completion.CompletedBlocked? || completion.CompletedError?;
  }

  lemma {:induction false} CallAgrees(call: Call, events: seq<Event>, r: Result<Completion, Failure>, completion: Completion)
    requires CallSettles(call, events, r) && !Succeeded(call)
    requires Some(completion) == if r.Ok? then Some(r.value) else CompletionFromFailure(r.error)
    ensures CallDecides(call, events, completion)
  {
  }
}
