/**
 The trace language of an execution run, given recursively by its plan, and what the last
 events of a trace say about the completion of the run.
 */
module ExecutionTrace {
  import opened Wrappers
  import opened ExecutionBudget

  datatype Graph = Graph(graphId: string, evidence: seq<string>)

  datatype Decision =
    | Navigate(path: string)
    | Click(node: string)
    | Input(node: string, valueRef: string)
    | Select(node: string, valueRef: string)
    | Scroll(target: Option<string>, direction: string, amount: string)
    | Window(node: string, operation: string)

  datatype PlanStep = PlanStep(stepIndex: Option<int>, kind: StepKind)

  datatype StepKind =
    | NavigateStep(path: string)
    | ClickStep
    | InputStep(valueRef: string)
    | SelectStep(valueRef: string)
    | ScrollStep(direction: string, amount: string)
    | VerifyStep(claimIds: seq<string>)

  datatype Plan = Plan(steps: seq<PlanStep>, expectedClaimIds: seq<string>, limits: Limits)

  datatype Job = Job(runId: string, plan: Option<Plan>)

  datatype Outcome = Outcome(ok: bool, errorCode: Option<string>)

  datatype Claim = Claim(expected: (string, string), observed: (string, string))

  datatype Verification = Passed(summary: string) | Failed(summary: string, severity: string, claims: seq<Claim>)

  datatype Finding = Finding(findingId: string, runId: string, summary: string, severity: string, evidence: seq<string>)

  datatype Completion =
    | CompletedPassed
    | CompletedFinding(finding: Finding)
    | CompletedBlocked(errorCode: string)
    | CompletedError(errorCode: string)

  datatype TerminalPayload =
    | TerminalPassed
    | TerminalFinding(findingId: string)
    | TerminalBlocked(errorCode: string)
    | TerminalError(errorCode: string)

  datatype Stage =
    | Observation(graph: Graph)
    | DecisionMade(decision: Decision)
    | ActionResolved(action: string)
    | PolicyAuthorized(reason: string)
    | PolicyDenied(reason: string)
    | ActionExecuted(outcome: Outcome)
    | Verified(verification: Verification)
    | FindingRaised(finding: Finding)
    | RunCompleted(payload: TerminalPayload)

  datatype Event = Event(stepIndex: Option<int>, stage: Stage)

  // ---------------------------------------------------------------- pure parts of the runtime

  predicate DecisionMatchesStep(decision: Decision, kind: StepKind) {
    match (decision, kind)
    case (Navigate(path), NavigateStep(planned)) => path == planned
    case (Click(_), ClickStep) => true
    case (Input(_, valueRef), InputStep(planned)) => valueRef == planned
    case (Select(_, valueRef), SelectStep(planned)) => valueRef == planned
    case (Scroll(_, direction, amount), ScrollStep(plannedDirection, plannedAmount)) =>
      direction == plannedDirection && amount == plannedAmount
    case _ => false
  }

  /** Each element once, where it occurs first. */
  function Unique(refs: seq<string>): (unique: seq<string>)
    ensures forall ref :: ref in unique <==> ref in refs
    ensures forall i, j :: 0 <= i < j < |unique| ==> unique[i] != unique[j]
  {
    if refs == [] then []
    else
      assert refs == refs[..|refs| - 1] + [refs[|refs| - 1]];
      var unique := Unique(refs[..|refs| - 1]);
      if refs[|refs| - 1] in unique then unique else unique + [refs[|refs| - 1]]
  }

  /** Where `ref` occurs first. */
  predicate FirstAt(refs: seq<string>, i: nat, ref: string) {
    i < |refs| && refs[i] == ref && ref !in refs[..i]
  }

  /** The elements stand in the order of their first occurrences. */
  lemma {:induction false} UniqueKeepsOrder(refs: seq<string>, i: nat, j: nat, a: nat, b: nat)
    requires i < |Unique(refs)| && j < |Unique(refs)|
    requires FirstAt(refs, a, Unique(refs)[i]) && FirstAt(refs, b, Unique(refs)[j])
    ensures i < j <==> a < b
  {
    var n := |refs| - 1;
    var init := refs[..n];
    if a < n && b < n {
      assert init[..a] == refs[..a] && init[..b] == refs[..b];
      assert init[a] in Unique(init) && init[b] in Unique(init);
      UniqueKeepsOrder(init, i, j, a, b);
    } else if a == n && b < n {
      assert init[b] in Unique(init);
    } else if b == n && a < n {
      assert init[a] in Unique(init);
    }
  }

  /** Both sides of each claim, as "graph:node". */
  function ClaimRefs(claims: seq<Claim>): seq<string> {
    if claims == [] then []
    else
      var last := claims[|claims| - 1];
      ClaimRefs(claims[..|claims| - 1])
      + [last.expected.0 + ":" + last.expected.1, last.observed.0 + ":" + last.observed.1]
  }

  lemma {:induction false} ClaimRefsAt(claims: seq<Claim>, i: nat)
    requires i < |claims|
    ensures |ClaimRefs(claims)| == 2 * |claims|
    ensures ClaimRefs(claims)[2 * i] == claims[i].expected.0 + ":" + claims[i].expected.1
    ensures ClaimRefs(claims)[2 * i + 1] == claims[i].observed.0 + ":" + claims[i].observed.1
  {
    var init := claims[..|claims| - 1];
    if init == [] {
      assert ClaimRefs(init) == [];
    } else {
      ClaimRefsAt(init, if i < |init| then i else 0);
    }
  }

  /** Both sides of every claim, then the evidence of both graphs, nothing twice. */
  function FindingFromVerification(runId: string, v: Verification, before: Graph, after: Graph): Finding
    requires v.Failed?
  {
    Finding(runId + ":verification", runId, v.summary, v.severity, Unique(ClaimRefs(v.claims) + before.evidence + after.evidence))
  }

  function FailedOutcome(outcome: Outcome, dispatched: bool): Completion {
    if dispatched || outcome.errorCode == Some("ActionOutcomeUnknown") then CompletedError("ActionOutcomeUnknown")
    else CompletedBlocked(if outcome.errorCode.Some? then outcome.errorCode.value else "ActionFailed")
  }

  function TerminalOf(completion: Completion): TerminalPayload {
    match completion
    case CompletedPassed => TerminalPassed
    case CompletedFinding(finding) => TerminalFinding(finding.findingId)
    case CompletedBlocked(errorCode) => TerminalBlocked(errorCode)
    case CompletedError(errorCode) => TerminalError(errorCode)
  }

  // ---------------------------------------------------------------- the language

  /** What a plan asks for in turn: an action, bound to a planned step or free, or a check of some claims. */
  datatype Item = Act(index: Option<int>, step: Option<StepKind>) | Check(index: Option<int>, claimIds: seq<string>)

  function IndexOf(step: PlanStep, ordinal: nat): int {
    if step.stepIndex.Some? then step.stepIndex.value else ordinal
  }

  function ItemOf(step: PlanStep, ordinal: nat): Item {
    if step.kind.VerifyStep? then Check(Some(IndexOf(step, ordinal)), step.kind.claimIds)
    else Act(Some(IndexOf(step, ordinal)), Some(step.kind))
  }

  function PlanItems(steps: seq<PlanStep>): (items: seq<Item>)
    ensures |items| == |steps|
    ensures forall i :: 0 <= i < |steps| ==> items[i] == ItemOf(steps[i], i)
  {
    if steps == [] then []
    else PlanItems(steps[..|steps| - 1]) + [ItemOf(steps[|steps| - 1], |steps| - 1)]
  }

  predicate HasVerify(steps: seq<PlanStep>) {
    exists i :: 0 <= i < |steps| && steps[i].kind.VerifyStep?
  }

  function LastIndex(steps: seq<PlanStep>): int {
    if steps == [] then 0 else IndexOf(steps[|steps| - 1], |steps| - 1)
  }

  /**
   The items of a job: those of its plan, and a final check of all expected claims when the plan has
   none; without a plan one free action, then a check.
   */
  function Script(job: Job): seq<Item> {
    match job.plan
    case None => [Act(None, None), Check(None, [])]
    case Some(plan) =>
      PlanItems(plan.steps) + if HasVerify(plan.steps) then [] else [Check(Some(LastIndex(plan.steps)), plan.expectedClaimIds)]
  }

  function Length(item: Item): nat {
    if item.Act? then 5 else 2
  }

  /** The events are the beginning of what an item may leave in the trace, well or badly ended. */
  predicate Follows(item: Item, events: seq<Event>) {
    && (forall i :: 0 <= i < |events| ==> events[i].stepIndex == item.index)
    && (|events| > 0 ==> events[0].stage.Observation?)
    && match item
       case Act(_, step) =>
         && |events| <= 5
         && (|events| > 1 ==> events[1].stage.DecisionMade?
                              && (step.Some? ==> DecisionMatchesStep(events[1].stage.decision, step.value)))
         && (|events| > 2 ==> events[2].stage.ActionResolved?)
         && (|events| > 3 ==> events[3].stage.PolicyAuthorized? || (events[3].stage.PolicyDenied? && |events| == 4))
         && (|events| > 4 ==> events[4].stage.ActionExecuted?)
       case Check(_, _) =>
         && |events| <= 3
         && (|events| > 1 ==> events[1].stage.Verified?)
         && (|events| > 2 ==> events[1].stage.verification.Failed? && events[2].stage.FindingRaised?)
  }

  /** The item ended well. */
  predicate Done(item: Item, events: seq<Event>) {
    && Follows(item, events) && |events| == Length(item)
    && match item
       case Act(_, _) => events[4].stage.outcome.ok
       case Check(_, _) => events[1].stage.verification.Passed?
  }

  /** The trace of a run that has performed all the items, one after the other. */
  predicate Performed(items: seq<Item>, events: seq<Event>) {
    if items == [] then events == []
    else
      var last := items[|items| - 1];
      var cut := |events| - Length(last);
      cut >= 0 && Performed(items[..|items| - 1], events[..cut]) && Done(last, events[cut..])
  }

  /** The run has performed `n` items in `k` events and stopped somewhere in the next one, or behind the last. */
  predicate StoppedAt(items: seq<Item>, events: seq<Event>, n: nat, k: nat) {
    && n <= |items| && k <= |events|
    && Performed(items[..n], events[..k])
    && if n < |items| then Follows(items[n], events[k..]) && !Done(items[n], events[k..]) else k == |events|
  }

  /** Item `n` was performed from event `k` on. */
  predicate DoneFrom(items: seq<Item>, events: seq<Event>, n: nat, k: nat)
    requires n < |items|
  {
    k + Length(items[n]) <= |events| && Performed(items[..n], events[..k]) && Done(items[n], events[k..k + Length(items[n])])
  }

  lemma {:induction false} DoneFromLonger(items: seq<Item>, events: seq<Event>, m: nat, cut: nat, n: nat, k: nat)
    requires n < m <= |items| && cut <= |events| && DoneFrom(items[..m], events[..cut], n, k)
    ensures DoneFrom(items, events, n, k)
  {
    var l := Length(items[n]);
    assert items[..m][..n] == items[..n];
    assert events[..cut][..k] == events[..k];
    assert events[..cut][k..k + l] == events[k..k + l];
  }

  lemma {:induction false} PerformedPrefix(items: seq<Item>, events: seq<Event>, n: nat)
    returns (k: nat)
    requires Performed(items, events) && n < |items|
    ensures DoneFrom(items, events, n, k)
  {
    var cut := |events| - Length(items[|items| - 1]);
    if n == |items| - 1 {
      k := cut;
      assert events[cut..] == events[k..k + Length(items[n])];
    } else {
      k := PerformedPrefix(items[..|items| - 1], events[..cut], n);
      DoneFromLonger(items, events, |items| - 1, cut, n, k);
    }
  }

  /** How far a list of items reaches is settled by the items alone. */
  lemma {:induction false} PerformedLength(items: seq<Item>, a: seq<Event>, b: seq<Event>)
    requires Performed(items, a) && Performed(items, b)
    ensures |a| == |b|
  {
    if items != [] {
      var last := items[|items| - 1];
      PerformedLength(items[..|items| - 1], a[..|a| - Length(last)], b[..|b| - Length(last)]);
    }
  }

  /** A trace reads in one way: a run that stopped short left no trace of a run that performed everything. */
  lemma {:induction false} StoppedShortIsNotPerformed(items: seq<Item>, events: seq<Event>, n: nat, k: nat)
    requires StoppedAt(items, events, n, k)
    ensures Performed(items, events) <==> n == |items|
  {
    if n < |items| && Performed(items, events) {
      var k' := PerformedPrefix(items, events, n);
      PerformedLength(items[..n], events[..k], events[..k']);
    } else if n == |items| {
      assert items[..n] == items && events[..k] == events;
    }
  }

  /** One more item done. */
  lemma {:induction false} PerformedNext(items: seq<Item>, n: nat, events: seq<Event>, k: nat)
    requires n < |items| && k <= |events|
    requires Performed(items[..n], events[..k]) && Done(items[n], events[k..])
    ensures Performed(items[..n + 1], events)
  {
    assert items[..n + 1][..n] == items[..n];
  }

  // ---------------------------------------------------------------- what the trace says about the completion

  /** The step index the terminal event carries: that of the last step begun, and none without a plan. */
  function TerminalIndex(job: Job, n: nat): Option<int> {
    match job.plan
    case None => None
    case Some(plan) =>
      if plan.steps == [] then None
      else
        var i := if n < |plan.steps| then n else |plan.steps| - 1;
        Some(IndexOf(plan.steps[i], i))
  }

  /** The finding of a run rests on the failed verification before it, the first observation of the run and the last. */
  predicate FindingIsJustified(runId: string, events: seq<Event>, finding: Finding) {
    && |events| >= 3
    && events[0].stage.Observation? && events[|events| - 3].stage.Observation?
    && events[|events| - 2].stage.Verified? && events[|events| - 2].stage.verification.Failed?
    && events[|events| - 1].stage == FindingRaised(finding)
    && finding == FindingFromVerification(
         runId, events[|events| - 2].stage.verification, events[0].stage.graph, events[|events| - 3].stage.graph)
  }

  /** The completion agrees with the events before the terminal one. */
  predicate Agrees(job: Job, events: seq<Event>, completion: Completion) {
    && (completion == CompletedPassed <==> Performed(Script(job), events))
    && (completion.CompletedFinding? <==> events != [] && events[|events| - 1].stage.FindingRaised?)
    && (completion.CompletedFinding? ==> FindingIsJustified(job.runId, events, completion.finding))
    && (events != [] && events[|events| - 1].stage.PolicyDenied? ==> completion == CompletedBlocked("PolicyDenied"))
  }

  // ---------------------------------------------------------------- calls of the executor

  /**
   One call of the action executor: the item and the action it was made for, the length of the
   trace then, what of the budget was used up, and how it ended.
   */
  datatype Call = Call(item: Item, at: nat, action: string, budget: RunBudget, dispatched: bool, result: Result<Outcome, Failure>)

  datatype Failure =
    | TargetFailure(errorCode: string, asError: bool)
    | BlockedFailure(errorCode: string)
    | BudgetFailure(code: BudgetErrorCode)
    | OutcomeUnknown
    | OtherFailure(reason: string)

  /**
   Right before the call come, in the same step, the observation, a decision that matches the plan,
   its resolution to this very action and the authorization; and neither steps nor tokens are used up.
   */
  predicate CallIsAuthorized(call: Call, events: seq<Event>) {
    && call.item.Act? && 4 <= call.at <= |events|
    && Follows(call.item, events[call.at - 4..call.at])
    && events[call.at - 2].stage == ActionResolved(call.action)
    && events[call.at - 1].stage.PolicyAuthorized?
    && 0 < call.budget.consumedSteps <= call.budget.limits.steps
    && call.budget.consumedTokens < call.budget.limits.modelTokens
  }

  predicate Succeeded(call: Call) {
    call.result.Ok? && call.result.value.ok
  }

  /** What a call that did not succeed makes of the run it is the last call of. */
  predicate CallDecides(call: Call, events: seq<Event>, completion: Completion) {
    && (completion.CompletedPassed? || completion.CompletedFinding? ==> Succeeded(call))
    && (call.result.Err? && call.dispatched ==> completion == CompletedError("ActionOutcomeUnknown"))
    && (call.result.Err? && !call.dispatched ==> CompletionFromFailure(call.result.error) == Some(completion))
    && (call.result.Ok? && !call.result.value.ok && call.at < |events| ==>
          completion == FailedOutcome(call.result.value, call.dispatched))
  }

  // ---------------------------------------------------------------- answers of the verifier

  /** What the verifier answered: the item it was asked for, the length of the trace then, and the two observations it was shown. */
  datatype Verdict = Verdict(item: Item, at: nat, first: Graph, after: Graph, verification: Verification)

  /** Asked right after the observation of its check, shown that and the first one of the run; its answer comes next in the trace. */
  predicate VerdictIsDue(verdict: Verdict, events: seq<Event>) {
    && verdict.item.Check? && 1 <= verdict.at <= |events|
    && events[0].stage == Observation(verdict.first)
    && events[verdict.at - 1] == Event(verdict.item.index, Observation(verdict.after))
    && (verdict.at < |events| ==> events[verdict.at] == Event(verdict.item.index, Verified(verdict.verification)))
  }

  /** The checks among the items, in order. */
  function ChecksIn(items: seq<Item>): seq<Item> {
    if items == [] then []
    else ChecksIn(items[..|items| - 1]) + if items[|items| - 1].Check? then [items[|items| - 1]] else []
  }

  function ItemsOf(verdicts: seq<Verdict>): seq<Item> {
    if verdicts == [] then [] else ItemsOf(verdicts[..|verdicts| - 1]) + [verdicts[|verdicts| - 1].item]
  }

  /** The verifier answered for exactly the checks among the first `n` items, and every answer is in the trace. */
  predicate Checked(items: seq<Item>, n: nat, events: seq<Event>, verdicts: seq<Verdict>)
    requires n <= |items|
  {
    && ItemsOf(verdicts) == ChecksIn(items[..n])
    && forall v :: v in verdicts ==> VerdictIsDue(v, events) && v.at < |events|
  }

  /** Where the run stopped the verifier may have been asked once more, for the check the run stopped in. */
  predicate CheckedUpTo(items: seq<Item>, n: nat, events: seq<Event>, verdicts: seq<Verdict>) {
    && n <= |items|
    && (|| ItemsOf(verdicts) == ChecksIn(items[..n])
        || (n < |items| && items[n].Check? && ItemsOf(verdicts) == ChecksIn(items[..n]) + [items[n]]))
    && forall v :: v in verdicts ==> VerdictIsDue(v, events) && (n == |items| ==> v.at < |events|)
  }

  lemma {:induction false} CheckedStays(items: seq<Item>, n: nat, before: seq<Event>, events: seq<Event>, verdicts: seq<Verdict>)
    requires n <= |items| && Checked(items, n, before, verdicts) && before <= events
    ensures Checked(items, n, events, verdicts) && CheckedUpTo(items, n, events, verdicts)
  {
    forall v | v in verdicts ensures VerdictIsDue(v, events) && v.at < |events| {
      assert VerdictIsDue(v, before);
    }
  }

  /** An action leaves the verifier alone. */
  lemma {:induction false} ActIsNoCheck(items: seq<Item>, n: nat, before: seq<Event>, events: seq<Event>, verdicts: seq<Verdict>)
    requires n < |items| && items[n].Act? && Checked(items, n, before, verdicts) && before <= events
    ensures Checked(items, n + 1, events, verdicts) && CheckedUpTo(items, n, events, verdicts)
  {
    CheckedStays(items, n, before, events, verdicts);
    assert items[..n + 1][..n] == items[..n];
  }

  /** A check is answered once, before its answer is recorded. */
  lemma {:induction false} CheckIsAnswered(
      items: seq<Item>, n: nat, before: seq<Event>, events: seq<Event>, verdicts: seq<Verdict>, verdict: Verdict)
    requires n < |items| && items[n] == verdict.item && verdict.item.Check?
    requires Checked(items, n, before, verdicts) && before <= events && VerdictIsDue(verdict, events)
    ensures CheckedUpTo(items, n, events, verdicts + [verdict])
    ensures verdict.at < |events| ==> Checked(items, n + 1, events, verdicts + [verdict])
  {
    CheckedStays(items, n, before, events, verdicts);
    assert items[..n + 1][..n] == items[..n];
    assert (verdicts + [verdict])[..|verdicts|] == verdicts;
  }

  lemma {:induction false} ChecksInHasAll(items: seq<Item>, i: nat)
    requires i < |items| && items[i].Check?
    ensures items[i] in ChecksIn(items)
  {
    if i < |items| - 1 {
      ChecksInHasAll(items[..|items| - 1], i);
    }
  }

  lemma {:induction false} ItemHasVerdict(verdicts: seq<Verdict>, item: Item) returns (v: Verdict)
    requires item in ItemsOf(verdicts)
    ensures v in verdicts && v.item == item
  {
    var last := verdicts[|verdicts| - 1];
    if last.item == item {
      v := last;
    } else {
      v := ItemHasVerdict(verdicts[..|verdicts| - 1], item);
    }
  }

  /**
   A run that performed its script asked the verifier about the claims of every verify step of its plan,
   or about all expected claims when the plan has none, and each answer is in the trace.
   */
  lemma {:induction false} EveryClaimIsChecked(job: Job, events: seq<Event>, verdicts: seq<Verdict>, i: nat) returns (v: Verdict)
    requires CheckedUpTo(Script(job), |Script(job)|, events, verdicts) && job.plan.Some?
    requires var steps := job.plan.value.steps;
      if HasVerify(steps) then i < |steps| && steps[i].kind.VerifyStep? else i == |steps|
    ensures v in verdicts && v.at < |events| && events[v.at].stage == Verified(v.verification)
    ensures var plan := job.plan.value;
      v.item.claimIds == if i < |plan.steps| then plan.steps[i].kind.claimIds else plan.expectedClaimIds
  {
    var items := Script(job);
    assert items[..|items|] == items;
    ChecksInHasAll(items, i);
    v := ItemHasVerdict(verdicts, items[i]);
    assert VerdictIsDue(v, events);
  }

  function BudgetCodeName(code: BudgetErrorCode): string {
    match code
    case ExecutionBudgetInvalid => "ExecutionBudgetInvalid"
    case ExecutionBudgetAlreadyActive => "ExecutionBudgetAlreadyActive"
    case ExecutionBudgetNotActive => "ExecutionBudgetNotActive"
    case StepBudgetExceeded => "StepBudgetExceeded"
    case WallClockBudgetExceeded => "WallClockBudgetExceeded"
    case ModelBudgetExceeded => "ModelBudgetExceeded"
    case ModelUsageUnavailable => "ModelUsageUnavailable"
  }

  function CodedCompletion(errorCode: string): Completion {
    if errorCode == "ModelUsageUnavailable" || errorCode == "ActionOutcomeUnknown" then CompletedError(errorCode)
    else CompletedBlocked(errorCode)
  }

  /** The completion an error of a stage stands for; an unexpected error stands for none. */
  function CompletionFromFailure(failure: Failure): Option<Completion> {
    match failure
    case TargetFailure(errorCode, asError) => Some(if asError then CompletedError(errorCode) else CompletedBlocked(errorCode))
    case BlockedFailure(errorCode) => Some(CodedCompletion(errorCode))
    case BudgetFailure(code) => Some(CodedCompletion(BudgetCodeName(code)))
    case OutcomeUnknown => Some(CodedCompletion("ActionOutcomeUnknown"))
    case OtherFailure(_) => None
  }
}
