/**
 The model gateway's structured invocation: a loop with one retry for a transient provider failure
 and one for output that does not match its schema, and the account of tokens it gives on every exit.
 */
module ModelGateway {
  import opened Wrappers
  import opened ExecutionBudget

  datatype UsageState = Available(usage: ModelUsage) | Unavailable(knownUsage: Option<ModelUsage>)

  datatype ProviderCode = AuthenticationFailed | InvalidRequest | RateLimited | TimedOut | ProviderUnavailable

  datatype ErrorCode =
    | FromProvider(code: ProviderCode)
    | InvalidStructuredOutput
    | CapabilityMismatch
    | InvalidTokenLimit
    | VisualInputRefused

  predicate IsTransient(code: ProviderCode) {
    code in {RateLimited, TimedOut, ProviderUnavailable}
  }

  /** What became of one call of the provider, with the usage that was reported for it. */
  datatype Attempt =
    | Failed(code: ProviderCode, usage: Option<ModelUsage>)
    | Answered(usage: Option<ModelUsage>, parse: ParseResult)
    | CutOff

  datatype ParseResult = Matches | SchemaMismatch | ParserThrew

  function Reported(a: Attempt): Option<ModelUsage> {
    match a
    case Failed(_, usage) => usage
    case Answered(usage, _) => usage
    case CutOff => None
  }

  // ---------------------------------------------------------------- the account

  predicate Determined(a: Attempt) {
    TotalTokens(Reported(a)).Some?
  }

  predicate AllDetermined(calls: seq<Attempt>) {
    forall i :: 0 <= i < |calls| ==> Determined(calls[i])
  }

  predicate AnyDetermined(calls: seq<Attempt>) {
    exists i :: 0 <= i < |calls| && Determined(calls[i])
  }

  /** The tokens of the calls that reported a determinable total. */
  function DeterminedTotal(calls: seq<Attempt>): nat {
    if calls == [] then 0
    else
      DeterminedTotal(calls[..|calls| - 1])
      + if Determined(calls[|calls| - 1]) then TotalTokens(Reported(calls[|calls| - 1])).value else 0
  }

  /** The state tells the truth about the calls made. */
  ghost predicate Accounts(calls: seq<Attempt>, state: UsageState) {
    && (state.Available? <==> calls != [] && AllDetermined(calls))
    && (state.Available? ==> state.usage.totalTokens == Some(DeterminedTotal(calls)))
    && (state.Unavailable? && AnyDetermined(calls) ==>
          state.knownUsage.Some? && state.knownUsage.value.totalTokens == Some(DeterminedTotal(calls)))
  }

  function AddField(current: Option<int>, next: Option<int>): Option<int> {
    match next
    case None => current
    case Some(n) => Some((if current.Some? then current.value else 0) + n)
  }

  function AddUsage(current: Option<ModelUsage>, next: ModelUsage): ModelUsage {
    var c := if current.Some? then current.value else ModelUsage(None, None, None);
    ModelUsage(AddField(c.inputTokens, next.inputTokens), AddField(c.outputTokens, next.outputTokens),
               AddField(c.totalTokens, next.totalTokens))
  }

  /** The four accumulators of the loop. */
  datatype Tally = Tally(usage: Option<ModelUsage>, total: nat, available: bool, known: bool)

  function Accumulate(t: Tally, next: Option<ModelUsage>): Tally {
    match next
    case None => t.(available := false)
    case Some(n) =>
      match TotalTokens(next)
      case None => Tally(Some(AddUsage(t.usage, n)), t.total, false, t.known)
      case Some(total) => Tally(Some(AddUsage(t.usage, n)), t.total + total, t.available, true)
  }

  function KnownUsage(t: Tally): Option<ModelUsage> {
    if t.known && t.usage.Some? then Some(t.usage.value.(totalTokens := Some(t.total))) else t.usage
  }

  function StateOf(t: Tally): UsageState {
    var known := KnownUsage(t);
    if t.available && known.Some? then Available(known.value) else Unavailable(known)
  }

  /** A gateway error is built from the known usage and whether any of it is missing. */
  function ErrorState(usage: Option<ModelUsage>, unavailable: bool): UsageState {
    if !unavailable && usage.Some? then Available(usage.value) else Unavailable(usage)
  }

  /** The accumulators say what the calls reported. */
  ghost predicate Tallied(calls: seq<Attempt>, t: Tally) {
    && t.total == DeterminedTotal(calls)
    && (t.available <==> AllDetermined(calls))
    && (t.known <==> AnyDetermined(calls))
    && (t.known ==> t.usage.Some?)
  }

  lemma {:induction false} DeterminedNext(calls: seq<Attempt>, a: Attempt)
    ensures AllDetermined(calls + [a]) <==> AllDetermined(calls) && Determined(a)
    ensures AnyDetermined(calls + [a]) <==> AnyDetermined(calls) || Determined(a)
    ensures DeterminedTotal(calls + [a]) == DeterminedTotal(calls) + if Determined(a) then TotalTokens(Reported(a)).value else 0
  {
    var next := calls + [a];
    assert next[..|calls|] == calls && next[|calls|] == a;
    assert forall i :: 0 <= i < |calls| ==> Determined(next[i]) == Determined(calls[i]);
    if AnyDetermined(calls) {
      var i :| 0 <= i < |calls| && Determined(calls[i]);
      assert Determined(next[i]);
    }
    if AllDetermined(next) {
      forall i | 0 <= i < |calls| ensures Determined(calls[i]) {
        assert Determined(next[i]);
      }
      assert Determined(next[|calls|]);
    }
    if Determined(a) {
      assert Determined(next[|calls|]);
    }
  }

  lemma {:induction false} TallyNext(calls: seq<Attempt>, t: Tally, a: Attempt)
    requires Tallied(calls, t)
    ensures Tallied(calls + [a], Accumulate(t, Reported(a)))
  {
    DeterminedNext(calls, a);
  }

  /** Whoever reports the accumulators, as a state or through a gateway error, gives a true account. */
  lemma {:induction false} TallyAccounts(calls: seq<Attempt>, t: Tally)
    requires Tallied(calls, t) && calls != []
    ensures Accounts(calls, StateOf(t))
    ensures ErrorState(KnownUsage(t), !t.available) == StateOf(t)
  {
    if AllDetermined(calls) {
      assert Determined(calls[0]);
    }
  }

  // ---------------------------------------------------------------- the loop

  datatype Exit =
    | Returned(state: UsageState)
    | GatewayError(code: ErrorCode, state: UsageState)
    | InvocationError(state: UsageState)
    | AbortError(state: UsageState)
    | RawAbort
    | DelayFailed

  predicate Retryable(a: Attempt) {
    (a.Failed? && IsTransient(a.code)) || (a.Answered? && a.parse == SchemaMismatch)
  }

  /** All but the last call were retried, one for a transient failure at most and one for its schema. */
  ghost predicate RetriesWereDue(calls: seq<Attempt>) {
    && |calls| <= 3
    && (forall i :: 0 <= i < |calls| - 1 ==> Retryable(calls[i]))
    && (forall i, j :: 0 <= i < j < |calls| - 1 ==> calls[i].Failed? != calls[j].Failed?)
  }

  /** All calls so far are to be retried, and the counters say which retries are used up. */
  ghost predicate Retried(calls: seq<Attempt>, transient: nat, schema: nat) {
    && transient <= 1 && schema <= 1 && |calls| == transient + schema
    && (forall i :: 0 <= i < |calls| ==> Retryable(calls[i]))
    && (forall i :: 0 <= i < |calls| ==> if calls[i].Failed? then transient == 1 else schema == 1)
    && (forall i, j :: 0 <= i < j < |calls| ==> calls[i].Failed? != calls[j].Failed?)
  }

  lemma {:induction false} RetriedOnceMore(calls: seq<Attempt>, transient: nat, schema: nat, a: Attempt)
    requires Retried(calls, transient, schema)
    ensures RetriesWereDue(calls) && RetriesWereDue(calls + [a])
    ensures Retryable(a) && a.Failed? && transient == 0 ==> Retried(calls + [a], 1, schema)
    ensures Retryable(a) && a.Answered? && schema == 0 ==> Retried(calls + [a], transient, 1)
  {
  }

  // ---------------------------------------------------------------- what the loop meets

  datatype Wait = WaitDone | WaitAborted | WaitFailed

  /**
   What one turn of the loop meets, as far as it comes: an aborted signal before the call, the call, an
   aborted signal right after it, the wait before a retry, and an aborted signal behind a parsed
   result.  Without a signal nothing is aborted and no call cut off.
   */
  datatype Turn = Turn(abortedBefore: bool, attempt: Attempt, abortedAfter: bool, wait: Wait, abortedAtEnd: bool)

  predicate Transient(a: Attempt) {
    a.Failed? && IsTransient(a.code)
  }

  /** The turn is followed by another one. */
  predicate GoesOn(t: Turn, transient: nat, schema: nat) {
    && !t.abortedAfter
    && (|| (Transient(t.attempt) && transient == 0 && t.wait.WaitDone?)
        || (t.attempt.Answered? && t.attempt.parse == SchemaMismatch && schema == 0))
  }

  /** The calls made from turn `k` on. */
  function CallsFrom(env: nat -> Turn, k: nat, transient: nat, schema: nat): seq<Attempt>
    decreases 2 - transient - schema
  {
    if env(k).abortedBefore then []
    else
      [env(k).attempt]
      + if transient + schema >= 2 || !GoesOn(env(k), transient, schema) then []
        else if env(k).attempt.Failed? then CallsFrom(env, k + 1, transient + 1, schema)
        else CallsFrom(env, k + 1, transient, schema + 1)
  }

  /** The last of `n` calls is the first transient failure, and the wait behind it breaks. */
  predicate DelayFails(env: nat -> Turn, n: nat) {
    n > 0 && var t := env(n - 1);
    Transient(t.attempt) && !t.abortedAfter && t.wait.WaitFailed? && forall i :: 0 <= i < n - 1 ==> !env(i).attempt.Failed?
  }

  /** The last of `n` calls brings a result, and no abort comes before it is returned. */
  predicate BringsResult(env: nat -> Turn, n: nat) {
    n > 0 && var t := env(n - 1);
    t.attempt.Answered? && t.attempt.parse == Matches && !t.abortedAfter && !t.abortedAtEnd
  }

  /** Abort while waiting for the retry, unless the wait itself fails. */
  method WaitForRetry(wait: Wait, tally: Tally, ghost calls: seq<Attempt>) returns (exit: Option<Exit>)
    requires Tallied(calls, tally) && calls != []
    ensures exit.None? <==> wait.WaitDone?
    ensures exit == Some(DelayFailed) <==> wait.WaitFailed?
    ensures wait.WaitAborted? ==> exit.value.AbortError? && Accounts(calls, exit.value.state)
  {
    TallyAccounts(calls, tally);
    match wait {
      case WaitAborted => return Some(AbortError(StateOf(tally)));
      case WaitFailed => return Some(DelayFailed);
      case WaitDone => return None;
    }
  }

  /** How a turn ends: with another turn to come, or with an exit that accounts for the calls unless the delay broke. */
  ghost predicate TurnEnds(t: Turn, transient: nat, schema: nat, calls: seq<Attempt>, exit: Option<Exit>) {
    && (exit.None? <==> GoesOn(t, transient, schema))
    && (exit == Some(DelayFailed) <==> Transient(t.attempt) && transient == 0 && !t.abortedAfter && t.wait.WaitFailed?)
    && (exit.Some? && exit.value.Returned? <==>
          t.attempt.Answered? && t.attempt.parse == Matches && !t.abortedAfter && !t.abortedAtEnd)
    && (exit.Some? ==> !exit.value.RawAbort? && (exit.value.DelayFailed? || Accounts(calls, exit.value.state)))
  }

  /** What follows a call: an exit that accounts for it, or one more turn. */
  method AfterCall(t: Turn, tally: Tally, transient: nat, schema: nat, ghost calls: seq<Attempt>) returns (exit: Option<Exit>)
    requires Tallied(calls, tally) && calls != [] && (t.attempt.CutOff? ==> !tally.available)
    ensures TurnEnds(t, transient, schema, calls, exit)
    ensures exit.Some? && exit.value.GatewayError? ==>
      || (t.attempt.Failed? && exit.value.code == FromProvider(t.attempt.code) && (!IsTransient(t.attempt.code) || transient >= 1))
      || (t.attempt.Answered? && exit.value.code == InvalidStructuredOutput && t.attempt.parse == SchemaMismatch && schema >= 1)
  {
    TallyAccounts(calls, tally);
    if t.attempt.CutOff? || t.abortedAfter {
      return Some(AbortError(StateOf(tally)));
    }
    match t.attempt {
      case Failed(code, _) =>
        if !IsTransient(code) || transient >= 1 {
          return Some(GatewayError(FromProvider(code), ErrorState(KnownUsage(tally), !tally.available)));
        }
        exit := WaitForRetry(t.wait, tally, calls);
      case Answered(_, Matches) =>
        return Some(if t.abortedAtEnd then AbortError(StateOf(tally)) else Returned(StateOf(tally)));
      case Answered(_, ParserThrew) =>
        return Some(InvocationError(StateOf(tally)));
      case Answered(_, SchemaMismatch) =>
        if schema >= 1 {
          return Some(GatewayError(InvalidStructuredOutput, ErrorState(KnownUsage(tally), !tally.available)));
        }
        return None;
    }
  }

  /** The loop stands before another turn: all its calls so far were retried, and it neither failed in a delay nor had a result. */
  ghost predicate Underway(env: nat -> Turn, calls: seq<Attempt>, transient: nat, schema: nat) {
    && Retried(calls, transient, schema)
    && calls + CallsFrom(env, |calls|, transient, schema) == CallsFrom(env, 0, 0, 0)
    && (forall i :: 0 <= i < |calls| ==> env(i).attempt == calls[i])
    && !DelayFails(env, |calls|) && !BringsResult(env, |calls|)
  }

  /** The loop made exactly the calls the environment leads to, and its exit is explained by them. */
  ghost predicate Explained(env: nat -> Turn, calls: seq<Attempt>, exit: Exit) {
    && RetriesWereDue(calls) && calls == CallsFrom(env, 0, 0, 0)
    && (forall i :: 0 <= i < |calls| ==> calls[i] == env(i).attempt)
    && (exit.RawAbort? <==> calls == [])
    && (calls != [] ==> exit.DelayFailed? || Accounts(calls, exit.state))
    && (exit.DelayFailed? <==> DelayFails(env, |calls|))
    && (exit.Returned? <==> BringsResult(env, |calls|))
  }

  lemma {:induction false} AbortedBefore(env: nat -> Turn, calls: seq<Attempt>, transient: nat, schema: nat, tally: Tally)
    requires Underway(env, calls, transient, schema) && env(|calls|).abortedBefore && Tallied(calls, tally)
    ensures Explained(env, calls, if calls == [] then RawAbort else AbortError(StateOf(tally)))
  {
    RetriedOnceMore(calls, transient, schema, CutOff);
    if calls != [] {
      TallyAccounts(calls, tally);
    }
  }

  /** One more call, and its turn. */
  lemma {:induction false} TurnTaken(env: nat -> Turn, calls: seq<Attempt>, transient: nat, schema: nat, exit: Option<Exit>)
    requires Underway(env, calls, transient, schema) && !env(|calls|).abortedBefore
    requires TurnEnds(env(|calls|), transient, schema, calls + [env(|calls|).attempt], exit)
    ensures var t := env(|calls|); var next := calls + [t.attempt];
      && (exit.Some? ==> Explained(env, next, exit.value))
      && (exit.None? ==>
            && transient + schema < 2
            && if t.attempt.Failed? then Underway(env, next, transient + 1, schema) else Underway(env, next, transient, schema + 1))
  {
    var t := env(|calls|);
    RetriedOnceMore(calls, transient, schema, t.attempt);
    assert forall i :: 0 <= i < |calls| ==> env(i).attempt.Failed? == calls[i].Failed?;
    if transient == 1 {
      assert calls[0].Failed? || (|calls| == 2 && calls[1].Failed?);
    }
    var next :=
      if t.attempt.Failed? then CallsFrom(env, |calls| + 1, transient + 1, schema)
      else CallsFrom(env, |calls| + 1, transient, schema + 1);
    assert calls + CallsFrom(env, |calls|, transient, schema)
        == (calls + [t.attempt]) + if GoesOn(t, transient, schema) then next else [];
  }

  predicate Accepted(structuredOutput: bool, maximumOutputTokens: Option<int>, visualInputAllowed: bool) {
    structuredOutput && (maximumOutputTokens.Some? ==> ValidLimit(maximumOutputTokens.value)) && visualInputAllowed
  }

  /**
   The invocation without its reporting, against any environment.  On every exit behind a call but
   one the state accounts for all calls made; a custom delay that fails is that one.
   */
  method RunStructured(structuredOutput: bool, maximumOutputTokens: Option<int>, visualInputAllowed: bool, env: nat -> Turn)
    returns (exit: Exit, calls: seq<Attempt>)
    ensures RetriesWereDue(calls)
    ensures calls == if Accepted(structuredOutput, maximumOutputTokens, visualInputAllowed) then CallsFrom(env, 0, 0, 0) else []
    ensures forall i :: 0 <= i < |calls| ==> calls[i] == env(i).attempt
    ensures exit.RawAbort? ==> calls == []
    ensures calls == [] ==>
      || exit.RawAbort?
      || exit == GatewayError(CapabilityMismatch, Unavailable(None)) || exit == GatewayError(InvalidTokenLimit, Unavailable(None))
      || exit == GatewayError(VisualInputRefused, Unavailable(None))
    ensures calls != [] ==> exit.DelayFailed? || Accounts(calls, exit.state)
    ensures exit.DelayFailed? <==> DelayFails(env, |calls|)
    ensures exit.Returned? <==> BringsResult(env, |calls|)
  {
    calls := [];
    if !structuredOutput {
      return GatewayError(CapabilityMismatch, Unavailable(None)), calls;
    }
    if maximumOutputTokens.Some? && !ValidLimit(maximumOutputTokens.value) {
      return GatewayError(InvalidTokenLimit, Unavailable(None)), calls;
    }
    if !visualInputAllowed {
      return GatewayError(VisualInputRefused, Unavailable(None)), calls;
    }
    exit, calls := RunAttempts(env);
  }

  /** The loop over calls and retries. */
  method RunAttempts(env: nat -> Turn) returns (exit: Exit, calls: seq<Attempt>)
    ensures Explained(env, calls, exit)
  {
    calls := [];
    var schemaAttempts: nat, transientAttempts: nat := 0, 0;
    var providerAttempts: nat := 0;
    var tally := Tally(None, 0, true, false);
    while true
      invariant Underway(env, calls, transientAttempts, schemaAttempts)
      invariant providerAttempts == |calls| && Tallied(calls, tally)
      decreases 2 - transientAttempts - schemaAttempts
    {
      var turn := env(providerAttempts);
      if turn.abortedBefore {
        AbortedBefore(env, calls, transientAttempts, schemaAttempts, tally);
        return if providerAttempts == 0 then RawAbort else AbortError(StateOf(tally)), calls;
      }
      providerAttempts := providerAttempts + 1;
      TallyNext(calls, tally, turn.attempt);
      tally := Accumulate(tally, Reported(turn.attempt));
      var after := AfterCall(turn, tally, transientAttempts, schemaAttempts, calls + [turn.attempt]);
      TurnTaken(env, calls, transientAttempts, schemaAttempts, after);
      calls := calls + [turn.attempt];
      if after.Some? {
        return after.value, calls;
      }
      if turn.attempt.Failed? {
        transientAttempts := transientAttempts + 1;
      } else {
        schemaAttempts := schemaAttempts + 1;
      }
    }
  }

  // ---------------------------------------------------------------- the invocation as callers see it

  datatype Outcome = Succeeded(state: UsageState) | Threw(state: UsageState)

  /** The error at hand carries no account: the delay broke, or the signal was aborted between the result and its use. */
  predicate AccountIsLost(env: nat -> Turn, n: nat, abortedBeforeUse: bool) {
    DelayFails(env, n) || (BringsResult(env, n) && abortedBeforeUse)
  }

  /**
   The invocation with its report.  An error that carries no state is wrapped in an empty one, so the
   account is lost when the delay fails or the signal is aborted between the result and its use; in
   those cases it is still true exactly when no call had a determinable total.
   */
  method InvokeStructured(
      structuredOutput: bool, maximumOutputTokens: Option<int>, visualInputAllowed: bool,
      env: nat -> Turn, abortedBeforeUse: bool, reportFails: bool)
    returns (outcome: Outcome, calls: seq<Attempt>)
    ensures RetriesWereDue(calls)
    ensures calls == if Accepted(structuredOutput, maximumOutputTokens, visualInputAllowed) then CallsFrom(env, 0, 0, 0) else []
    ensures forall i :: 0 <= i < |calls| ==> calls[i] == env(i).attempt
    ensures calls != [] ==>
      (Accounts(calls, outcome.state) <==> !AccountIsLost(env, |calls|, abortedBeforeUse) || !AnyDetermined(calls))
    ensures AccountIsLost(env, |calls|, abortedBeforeUse) ==> outcome == Threw(Unavailable(None))
    ensures outcome.Succeeded? <==> BringsResult(env, |calls|) && !abortedBeforeUse && !reportFails
  {
    var exit: Exit;
    exit, calls := RunStructured(structuredOutput, maximumOutputTokens, visualInputAllowed, env);
    var state := if exit.RawAbort? || exit.DelayFailed? then Unavailable(None) else exit.state;
    var succeeded := exit.Returned?;
    if succeeded && abortedBeforeUse {
      state, succeeded := Unavailable(None), false;
    }
    if calls != [] {
      NothingKnownIsTrue(calls);
    }
    // A report that fails, or is cut off, turns a success into an error with the same state.
    return if succeeded && !reportFails then Succeeded(state) else Threw(state), calls;
  }

  /** To say nothing is a true account exactly when nothing could be determined. */
  lemma {:induction false} NothingKnownIsTrue(calls: seq<Attempt>)
    requires calls != []
    ensures Accounts(calls, Unavailable(None)) <==> !AnyDetermined(calls)
  {
    if AllDetermined(calls) {
      assert Determined(calls[0]);
    }
  }

  /** An answer of 10 tokens that does not match its schema, then a rate limit whose delay breaks: the 10 tokens are lost. */
  lemma {:induction false} BrokenDelayLosesTokens()
    ensures var env := (k: nat) =>
        if k == 0 then Turn(false, Answered(Some(ModelUsage(None, None, Some(10))), SchemaMismatch), false, WaitDone, false)
        else Turn(false, Failed(RateLimited, None), false, WaitFailed, false);
      var calls := CallsFrom(env, 0, 0, 0);
      && |calls| == 2 && DeterminedTotal(calls) == 10
      && AccountIsLost(env, |calls|, false) && !Accounts(calls, Unavailable(None))
  {
    var env := (k: nat) =>
        if k == 0 then Turn(false, Answered(Some(ModelUsage(None, None, Some(10))), SchemaMismatch), false, WaitDone, false)
        else Turn(false, Failed(RateLimited, None), false, WaitFailed, false);
    var calls := CallsFrom(env, 0, 0, 0);
    assert CallsFrom(env, 1, 0, 1) == [env(1).attempt];
    assert calls == [env(0).attempt, env(1).attempt] && calls[..1] == [env(0).attempt] && calls[..1][..0] == [];
    assert DeterminedTotal(calls[..1][..0]) == 0 && DeterminedTotal(calls[..1]) == 10;
    assert Determined(calls[0]);
    NothingKnownIsTrue(calls);
  }
}
