/**
 The loop that offers pending mission dispatches to their bound runners: it looks for a durable lease
 before it offers, authorizes the connection, and backs off from an attempt that does not go through.
 */
module MissionDispatch {
  import opened Wrappers

  datatype Job = Job(jobId: string, runId: string, projectId: string, policyExpiresAt: int, policyApproved: bool, payload: string)

  /** `job` is missing when the stored job does not parse. */
  datatype Dispatch = Dispatch(
    attemptId: string, runnerJobId: string, runId: string, runnerId: string, requiredCapabilities: set<string>,
    job: Option<Job>, version: nat)

  datatype Lease = Lease(job: Job, runnerId: string, lost: bool)

  datatype Runner = Runner(runnerId: string, tenant: Option<string>, projectIds: set<string>, capabilities: set<string>)

  datatype BlockedReason =
    | PolicyInvalid
    | LeaseIdentityMismatch
    | LeaseLost
    | RunnerBindingMismatch
    | TenantScopeMismatch
    | ProjectScopeMismatch
    | CapabilityMismatch
    | DispatchConflict

  datatype PendingReason =
    | RunnerOffline
    | RunnerUnavailable
    | AcceptancePersistenceFailed
    | BlockPersistenceFailed
    | Cancelled
    | DeadlineExceeded
    | BackingOff

  /** `StillBlocking` is no outcome of the source: it stands for a call that is not over after the rounds it was watched for. */
  datatype Outcome = Accepted | Pending(reason: PendingReason, retryAfter: int) | Blocked(cause: BlockedReason) | StillBlocking

  datatype OfferError = CapabilityRefused | LeaseActive | PolicyMissing | RunConflict | Unavailable

  /** An offer as it was made: to whom, when, and of what. */
  datatype Offer = Offer(job: Job, runner: Runner, at: int, requiredCapabilities: set<string>)

  datatype Receipt = FreshlyAccepted | AlreadyActive

  datatype Status = PendingRow | AcceptedRow(receipt: Receipt) | BlockedRow

  /** The row of a dispatch in the outbox; `attemptPending` says whether the attempt it belongs to still awaits its dispatch. */
  datatype Row = Row(status: Status, version: nat, attemptPending: bool)

  datatype Marking = Marked | Conflict | NotFound | MarkingFailed

  // ---------------------------------------------------------------- delays

  function Power2(n: nat): nat {
    if n == 0 then 1 else 2 * Power2(n - 1)
  }

  function RetryDelay(initial: nat, maximum: nat, failures: nat): nat
    requires failures > 0
  {
    var delay := initial * Power2(failures - 1);
    if delay < maximum then delay else maximum
  }

  lemma {:induction false} Power2Grows(n: nat, m: nat)
    requires n <= m
    ensures 1 <= Power2(n) <= Power2(m)
    decreases m
  {
    if n < m {
      Power2Grows(n, m - 1);
    } else if n > 0 {
      Power2Grows(n - 1, m - 1);
    }
  }

  lemma {:induction false} TimesGrows(c: nat, a: nat, b: nat)
    requires a <= b
    ensures c * a <= c * b
  {
    if c > 0 {
      TimesGrows(c - 1, a, b);
      assert c * a == (c - 1) * a + a && c * b == (c - 1) * b + b;
    }
  }

  /** Delays stay between the initial and the maximal one and never shrink from one failure to a later one. */
  lemma {:induction false} DelaysAreBoundedAndGrow(initial: nat, maximum: nat, failures: nat, later: nat)
    requires 0 < initial <= maximum && 0 < failures <= later
    ensures initial <= RetryDelay(initial, maximum, failures) <= RetryDelay(initial, maximum, later) <= maximum
  {
    Power2Grows(0, failures - 1);
    Power2Grows(failures - 1, later - 1);
    TimesGrows(initial, 1, Power2(failures - 1));
    TimesGrows(initial, Power2(failures - 1), Power2(later - 1));
  }

  // ---------------------------------------------------------------- what an offer and an acceptance need

  /** The dispatch's own ids are those of its job. */
  predicate NamesItsJob(d: Dispatch) {
    d.job.Some? && d.job.value.jobId == d.runnerJobId && d.job.value.runId == d.runId
  }

  predicate Authorized(d: Dispatch, tenant: string, runner: Runner) {
    && d.job.Some? && runner.runnerId == d.runnerId && runner.tenant == Some(tenant)
    && d.job.value.projectId in runner.projectIds && d.requiredCapabilities <= runner.capabilities
  }

  /** What entitles the loop to an offer: no lease yet, the bound runner with the right scope, an unexpired policy. */
  predicate OfferIsDue(d: Dispatch, tenant: string, offer: Offer, leases: map<string, Lease>) {
    && NamesItsJob(d) && d.job.value.policyApproved && offer.job == d.job.value && offer.requiredCapabilities == d.requiredCapabilities
    && Authorized(d, tenant, offer.runner) && offer.at < d.job.value.policyExpiresAt
    && d.runId !in leases
  }

  /** A lease of exactly this dispatch. */
  predicate LeaseFits(d: Dispatch, leases: map<string, Lease>) {
    && NamesItsJob(d) && d.runId in leases
    && leases[d.runId].job == d.job.value && leases[d.runId].runnerId == d.runnerId && !leases[d.runId].lost
  }

  // ---------------------------------------------------------------- the outbox

  /** What the outbox answers to a mark asked for under the version the dispatch was read with. */
  function Answer(rows: map<string, Row>, attemptId: string, version: nat, status: Status): Marking {
    if attemptId !in rows then NotFound
    else if rows[attemptId] == Row(PendingRow, version, true) then Marked
    else if rows[attemptId].status == status && rows[attemptId].version == version + 1 then Marked
    else Conflict
  }

  /** What other users of the outbox may make of a row: settle it once. */
  predicate Evolves(row: Row, row': Row) {
    || row' == row
    || (row.status.PendingRow? && row.attemptPending && !row'.status.PendingRow? && row'.version == row.version + 1 && !row'.attemptPending)
  }

  /** A conflict stays one, whatever happens to the row. */
  lemma {:induction false} ConflictPersists(history: seq<Row>, attemptId: string, version: nat, status: Status, n: nat)
    requires n < |history| && !status.PendingRow? && Answer(map[attemptId := history[0]], attemptId, version, status).Conflict?
    requires forall i :: 0 <= i < |history| - 1 ==> Evolves(history[i], history[i + 1])
    ensures Answer(map[attemptId := history[n]], attemptId, version, status).Conflict?
  {
    if n > 0 {
      ConflictPersists(history, attemptId, version, status, n - 1);
      assert Evolves(history[n - 1], history[n - 1 + 1]);
    }
  }

  /** The run's lease is there and is not one of this dispatch. */
  predicate LeaseMisfits(d: Dispatch, leases: map<string, Lease>) {
    d.job.Some? && d.runId in leases && !LeaseFits(d, leases)
  }

  predicate NoFailure(fails: nat -> bool, from: nat, to: nat) {
    forall k :: from <= k < to ==> !fails(k)
  }

  /**
   After this many rounds of mark and lookup, beginning with store call number `calls`, blocking is not over: the row is
   stale, the lease does not fit, and no store call failed.
   */
  predicate BlocksOn(
      d: Dispatch, rows: map<string, Row>, leases: map<string, Lease>, fails: nat -> bool, calls: nat, rounds: nat)
  {
    rounds == 0
    || (Answer(rows, d.attemptId, d.version, BlockedRow).Conflict? && LeaseMisfits(d, leases) && NoFailure(fails, calls, calls + 2 * rounds))
  }

  /** Blocking never ends exactly when the row is stale, the lease does not fit, and no store call ever fails. */
  lemma {:induction false} BlockingNeverEnds(
      d: Dispatch, rows: map<string, Row>, leases: map<string, Lease>, fails: nat -> bool, calls: nat)
    ensures (forall rounds: nat :: BlocksOn(d, rows, leases, fails, calls, rounds)) <==>
      && Answer(rows, d.attemptId, d.version, BlockedRow).Conflict? && LeaseMisfits(d, leases)
      && forall k: nat :: calls <= k ==> !fails(k)
  {
    if forall rounds: nat :: BlocksOn(d, rows, leases, fails, calls, rounds) {
      assert BlocksOn(d, rows, leases, fails, calls, 1);
      forall k: nat | calls <= k ensures !fails(k) {
        assert BlocksOn(d, rows, leases, fails, calls, k - calls + 1);
      }
    }
  }

  /** The row was accepted behind the loop's back, and the lease has been lost since: blocking goes on for ever. */
  lemma {:induction false} LostLeaseBlocksForEver(job: Job, runnerId: string, rounds: nat)
    ensures var d := Dispatch("attempt", job.jobId, job.runId, runnerId, {}, Some(job), 1);
      BlocksOn(d, map["attempt" := Row(AcceptedRow(FreshlyAccepted), 2, false)], map[job.runId := Lease(job, runnerId, true)],
               k => false, 0, rounds)
  {
  }

  // ---------------------------------------------------------------- the environment

  /**
   Core's durable leases, the outbox, the last reading of the clock, and a history of the offers made.
   `fails` says which of the calls to a store, counted by `calls`, break down.
   */
  class Environment {
    const fails: nat -> bool
    var calls: nat
    var leases: map<string, Lease>
    var rows: map<string, Row>
    var clock: int
    ghost var offers: seq<Offer>
    ghost var leasedAt: seq<set<string>>

    constructor (rows: map<string, Row>, fails: nat -> bool)
      ensures leases == map[] && offers == [] && this.rows == rows && this.fails == fails && Recorded()
    {
      this.rows, this.fails, calls, clock := rows, fails, 0, 0;
      leases, offers, leasedAt := map[], [], [{}];
    }

    /** `leasedAt` has the runs with a lease before each offer, and those with one now. */
    ghost predicate Recorded()
      reads this
    {
      && |leasedAt| == |offers| + 1 && leasedAt[|offers|] == leases.Keys
      && (forall i, j :: 0 <= i <= j < |leasedAt| ==> leasedAt[i] <= leasedAt[j])
      && (forall i :: 0 <= i < |offers| ==> offers[i].job.runId !in leasedAt[i])
    }

    method Now() returns (now: int)
      modifies this`clock
      ensures now == clock
    {
      clock := *;
      now := clock;
    }

    /** The runner may take the lease, and may do so even if its answer is lost. */
    method MakeOffer(offer: Offer) returns (r: Result<(string, string), OfferError>)
      requires offer.job.runId !in leases
      modifies this`leases, this`offers, this`leasedAt
      ensures old(Recorded()) ==> Recorded()
      ensures offers == old(offers) + [offer]
      ensures leases == old(leases) || leases == old(leases)[offer.job.runId := Lease(offer.job, offer.runner.runnerId, false)]
      ensures r == Ok((offer.job.jobId, offer.job.runId)) ==> offer.job.runId in leases
    {
      offers := offers + [offer];
      var taken: bool := *;
      if taken {
        leases := leases[offer.job.runId := Lease(offer.job, offer.runner.runnerId, false)];
      }
      leasedAt := leasedAt + [leases.Keys];
      if * {
        var error: OfferError := *;
        return Err(error);
      }
      if taken {
        return Ok((offer.job.jobId, offer.job.runId));
      }
      var ids: (string, string) := *;
      return if ids == (offer.job.jobId, offer.job.runId) then Err(Unavailable) else Ok(ids);
    }

    /** Reach a store, or fail to. */
    method Reach() returns (reached: bool)
      modifies this`calls
      ensures reached == !fails(old(calls)) && calls == old(calls) + 1
    {
      reached := !fails(calls);
      calls := calls + 1;
    }

    /** The row is moved by compare and swap on its version; the same mark again is answered as if it were new. */
    method Mark(attemptId: string, version: nat, status: Status) returns (r: Marking)
      requires !status.PendingRow?
      modifies this`calls, this`rows
      ensures calls == old(calls) + 1
      ensures r == if fails(old(calls)) then MarkingFailed else Answer(old(rows), attemptId, version, status)
      ensures r.Marked? ==> attemptId in rows && rows[attemptId].status == status && rows[attemptId].version == version + 1
      ensures !r.Marked? ==> rows == old(rows)
      ensures forall a :: a in old(rows) ==> a in rows && Evolves(old(rows)[a], rows[a])
    {
      var reached := Reach();
      if !reached {
        return MarkingFailed;
      }
      if attemptId !in rows {
        return NotFound;
      }
      var current := rows[attemptId];
      if !current.status.PendingRow? && current.status.BlockedRow? == status.BlockedRow? {
        return if current.version == version + 1 && current.status == status then Marked else Conflict;
      }
      if !current.status.PendingRow? || current.version != version {
        return Conflict;
      }
      if !current.attemptPending {
        return Conflict;
      }
      rows := rows[attemptId := Row(status, version + 1, false)];
      return Marked;
    }
  }

  datatype Backoff = Backoff(failures: nat, notBefore: int)

  // ---------------------------------------------------------------- the loop

  class MissionDispatchLoop {
    const tenant: string
    const env: Environment
    const initialBackoff: nat
    const maximumBackoff: nat
    var backoff: map<string, Backoff>

    constructor (tenant: string, env: Environment, initialBackoff: nat, maximumBackoff: nat)
      requires 0 < initialBackoff <= maximumBackoff
      ensures Valid() && this.tenant == tenant && this.env == env && backoff == map[]
    {
      this.tenant, this.env, this.initialBackoff, this.maximumBackoff := tenant, env, initialBackoff, maximumBackoff;
      backoff := map[];
    }

    ghost predicate Valid()
      reads this
    {
      0 < initialBackoff <= maximumBackoff && forall a :: a in backoff ==> backoff[a].failures > 0
    }

    /** The delay last given to the attempt, if it has not succeeded since. */
    function LastDelay(attemptId: string): nat
      reads this
      requires Valid()
    {
      if attemptId in backoff then RetryDelay(initialBackoff, maximumBackoff, backoff[attemptId].failures) else initialBackoff
    }

    /** One failure more: the delay is in bounds and no shorter than the last one, and nothing happens before it is over. */
    method RecordBackoff(attemptId: string) returns (retryAfter: nat)
      requires Valid()
      modifies this, env`clock
      ensures Valid() && attemptId in backoff && (forall a :: a != attemptId ==> (a in backoff <==> a in old(backoff)))
      ensures initialBackoff <= retryAfter <= maximumBackoff && old(LastDelay(attemptId)) <= retryAfter
      ensures retryAfter == LastDelay(attemptId) && backoff[attemptId].notBefore == env.clock + retryAfter
    {
      var failures := (if attemptId in backoff then backoff[attemptId].failures else 0) + 1;
      var now := env.Now();
      retryAfter := RetryDelay(initialBackoff, maximumBackoff, failures);
      DelaysAreBoundedAndGrow(initialBackoff, maximumBackoff, if failures == 1 then 1 else failures - 1, failures);
      backoff := backoff[attemptId := Backoff(failures, now + retryAfter)];
    }

    /** The outbox has the row of the dispatch settled, one version on. */
    ghost predicate SettledRow(d: Dispatch, accepted: bool)
      reads env
    {
      && d.attemptId in env.rows && env.rows[d.attemptId].version == d.version + 1
      && if accepted then env.rows[d.attemptId].status.AcceptedRow? else env.rows[d.attemptId].status.BlockedRow?
    }

    /**
     The outcome is what the outbox and the leases say: accepted only with a lease of its own, blocked
     only when so marked, and pending with the delay now on record, counted from the last clock reading.
     */
    ghost predicate Settled(d: Dispatch, r: Outcome)
      reads this, env
    {
      && Valid()
      && (r.Accepted? ==> LeaseFits(d, env.leases) && SettledRow(d, true) && d.attemptId !in backoff)
      && (r.Blocked? ==> SettledRow(d, false) && d.attemptId !in backoff)
      && (r.Pending? ==> r.reason != BackingOff)
      && (r.Pending? && r.reason != Cancelled ==>
            && d.attemptId in backoff && r.retryAfter == LastDelay(d.attemptId)
            && backoff[d.attemptId].notBefore == env.clock + r.retryAfter
            && initialBackoff <= r.retryAfter <= maximumBackoff)
    }

    /** A delay given is no shorter than the one before. */
    predicate NoShorter(r: Outcome, lastDelay: nat) {
      r.Pending? && r.reason !in {BackingOff, Cancelled} ==> lastDelay <= r.retryAfter
    }

    method Defer(d: Dispatch, reason: PendingReason) returns (r: Outcome)
      requires Valid() && reason !in {BackingOff, Cancelled}
      modifies this, env`clock
      ensures Settled(d, r) && NoShorter(r, old(LastDelay(d.attemptId))) && r.Pending? && r.reason == reason
    {
      var retryAfter := RecordBackoff(d.attemptId);
      return Pending(reason, retryAfter);
    }

    method Accept(d: Dispatch, receipt: Receipt) returns (r: Outcome)
      requires Valid() && LeaseFits(d, env.leases)
      modifies this, env`calls, env`rows, env`clock
      ensures Settled(d, r) && NoShorter(r, old(LastDelay(d.attemptId)))
      ensures !r.Accepted? ==> r.Pending? && r.reason == AcceptancePersistenceFailed
      ensures r.Accepted? <==>
        !env.fails(old(env.calls)) && Answer(old(env.rows), d.attemptId, d.version, AcceptedRow(receipt)).Marked?
    {
      var marking := env.Mark(d.attemptId, d.version, AcceptedRow(receipt));
      if !marking.Marked? {
        r := Defer(d, AcceptancePersistenceFailed);
        return;
      }
      backoff := backoff - {d.attemptId};
      return Accepted;
    }

    /**
     Mark the row blocked.  A conflict looks for a lease once more, and a lease that does not fit
     blocks again, under the version the dispatch was once read with.  The call is watched for a number of rounds:
     however many these are, it is still blocking exactly when the row is stale, the lease does not fit and no
     store call failed.
     */
    method Block(d: Dispatch, reason: BlockedReason, rounds: nat) returns (r: Outcome)
      requires Valid()
      modifies this, env`calls, env`rows, env`clock
      ensures Settled(d, r) && NoShorter(r, old(LastDelay(d.attemptId)))
      ensures r.StillBlocking? <==> BlocksOn(d, old(env.rows), env.leases, env.fails, old(env.calls), rounds)
      ensures r.StillBlocking? ==> env.rows == old(env.rows) && backoff == old(backoff)
      ensures r.Blocked? ==> r.cause == reason || LeaseMisfits(d, env.leases)
      decreases rounds, 1
    {
      if rounds == 0 {
        return StillBlocking;
      }
      var marking := env.Mark(d.attemptId, d.version, BlockedRow);
      if marking.Marked? {
        backoff := backoff - {d.attemptId};
        return Blocked(reason);
      }
      if marking.Conflict? && d.job.Some? {
        var reached := env.Reach();
        if reached {
          var existing := AcceptExistingLease(d, d.job.value, rounds - 1);
          if existing.Some? {
            return existing.value;
          }
        }
      }
      r := Defer(d, BlockPersistenceFailed);
    }

    /** A lease of the run settles the dispatch: it is accepted if the lease is its own, and blocked if not. */
    method AcceptExistingLease(d: Dispatch, job: Job, rounds: nat) returns (r: Option<Outcome>)
      requires Valid() && d.job == Some(job)
      modifies this, env`calls, env`rows, env`clock
      ensures Valid() && (r.None? <==> d.runId !in env.leases)
      ensures r.None? ==> backoff == old(backoff) && env.rows == old(env.rows) && env.calls == old(env.calls)
      ensures r.Some? ==> Settled(d, r.value) && NoShorter(r.value, old(LastDelay(d.attemptId)))
      ensures r.Some? && r.value.Blocked? ==> !LeaseFits(d, env.leases)
      ensures r == Some(StillBlocking) <==>
        LeaseMisfits(d, env.leases) && BlocksOn(d, old(env.rows), env.leases, env.fails, old(env.calls), rounds)
      ensures r == Some(StillBlocking) ==> env.rows == old(env.rows) && backoff == old(backoff)
      decreases rounds, 2
    {
      if d.runId !in env.leases {
        return None;
      }
      var lease := env.leases[d.runId];
      if lease.job.jobId != d.runnerJobId || lease.job.runId != d.runId || lease.runnerId != d.runnerId || lease.job != job {
        var blocked := Block(d, LeaseIdentityMismatch, rounds);
        return Some(blocked);
      }
      if lease.lost {
        var blocked := Block(d, LeaseLost, rounds);
        return Some(blocked);
      }
      var accepted := Accept(d, AlreadyActive);
      return Some(accepted);
    }

    method PreOfferStopped(d: Dispatch, aborted: bool, deadline: Option<int>) returns (r: Option<Outcome>)
      requires Valid()
      modifies this, env`clock
      ensures Valid() && (r.None? ==> backoff == old(backoff))
      ensures r.Some? ==> r.value.Pending? && r.value.reason in {Cancelled, DeadlineExceeded}
      ensures r.Some? ==> Settled(d, r.value) && NoShorter(r.value, old(LastDelay(d.attemptId)))
      ensures aborted ==> r == Some(Pending(Cancelled, 0))
      ensures r.None? && deadline.Some? ==> env.clock < deadline.value
    {
      if aborted {
        return Some(Pending(Cancelled, 0));
      }
      if deadline.Some? {
        var now := env.Now();
        if now >= deadline.value {
          var deferred := Defer(d, DeadlineExceeded);
          return Some(deferred);
        }
      }
      return None;
    }

    /** Who is on the other end of the connection; anything but the bound runner in scope blocks the dispatch. */
    method AuthorizeConnection(d: Dispatch, job: Job, runner: Runner, rounds: nat) returns (r: Option<Outcome>)
      requires Valid() && d.job == Some(job)
      modifies this, env`calls, env`rows, env`clock
      ensures Valid() && (r.None? <==> Authorized(d, tenant, runner))
      ensures r.None? ==> backoff == old(backoff) && env.rows == old(env.rows)
      ensures r.Some? ==> Settled(d, r.value) && NoShorter(r.value, old(LastDelay(d.attemptId)))
      ensures r == Some(StillBlocking) && rounds > 0 ==> LeaseMisfits(d, env.leases)
    {
      var blocked: Outcome;
      if runner.runnerId != d.runnerId {
        blocked := Block(d, RunnerBindingMismatch, rounds);
        return Some(blocked);
      }
      if runner.tenant != Some(tenant) {
        blocked := Block(d, TenantScopeMismatch, rounds);
        return Some(blocked);
      }
      if job.projectId !in runner.projectIds {
        blocked := Block(d, ProjectScopeMismatch, rounds);
        return Some(blocked);
      }
      if !(d.requiredCapabilities <= runner.capabilities) {
        blocked := Block(d, CapabilityMismatch, rounds);
        return Some(blocked);
      }
      return None;
    }

    /** Make the offer and settle what comes of it; a lost answer is looked up in the leases. */
    method OfferTo(d: Dispatch, job: Job, runner: Runner, nowMs: int, rounds: nat) returns (r: Outcome)
      requires Valid() && d.job == Some(job) && OfferIsDue(d, tenant, Offer(job, runner, nowMs, d.requiredCapabilities), env.leases)
      modifies this, env
      ensures Settled(d, r) && NoShorter(r, old(LastDelay(d.attemptId)))
      ensures env.offers == old(env.offers) + [Offer(job, runner, nowMs, d.requiredCapabilities)]
      ensures old(env.leases).Keys <= env.leases.Keys && (old(env.Recorded()) ==> env.Recorded())
    {
      var answer := env.MakeOffer(Offer(job, runner, nowMs, d.requiredCapabilities));
      match answer {
        case Ok(ids) =>
          if ids.0 != d.runnerJobId || ids.1 != d.runId {
            r := Block(d, LeaseIdentityMismatch, rounds);
          } else {
            r := Accept(d, FreshlyAccepted);
          }
        case Err(error) =>
          var reached := env.Reach();
          if reached {
            var reconciled := AcceptExistingLease(d, job, rounds);
            if reconciled.Some? {
              return reconciled.value;
            }
          }
          match error {
            case CapabilityRefused => r := Block(d, CapabilityMismatch, rounds);
            case LeaseActive => r := Block(d, DispatchConflict, rounds);
            case PolicyMissing => r := Block(d, PolicyInvalid, rounds);
            case RunConflict => r := Block(d, DispatchConflict, rounds);
            case Unavailable => r := Defer(d, RunnerUnavailable);
          }
      }
    }

    /**
     One turn for one dispatch.  It makes at most one offer, and only one that is due; while the attempt
     backs off nothing happens at all, and a turn that is still blocking met a lease that does not fit.
     */
    method DispatchOne(
        d: Dispatch, connection: Option<Runner>, aborted: bool, deadline: Option<int>, rounds: nat)
      returns (r: Outcome)
      requires Valid()
      modifies this, env
      ensures Valid() && old(env.leases).Keys <= env.leases.Keys && (old(env.Recorded()) ==> env.Recorded())
      ensures r.Pending? && r.reason == BackingOff ==>
        && d.attemptId in old(backoff) && r.retryAfter == old(backoff)[d.attemptId].notBefore - env.clock > 0 && backoff == old(backoff)
        && env.offers == old(env.offers) && env.rows == old(env.rows) && env.leases == old(env.leases)
      ensures !(r.Pending? && r.reason == BackingOff) ==> Settled(d, r) && NoShorter(r, old(LastDelay(d.attemptId)))
      ensures env.offers != old(env.offers) ==>
        && |env.offers| == |old(env.offers)| + 1 && old(env.offers) < env.offers
        && OfferIsDue(d, tenant, env.offers[|old(env.offers)|], old(env.leases))
        && (d.attemptId in old(backoff) ==> old(backoff)[d.attemptId].notBefore <= env.offers[|old(env.offers)|].at)
    {
      var nowMs := env.Now();
      if d.attemptId in backoff && backoff[d.attemptId].notBefore > nowMs {
        return Pending(BackingOff, backoff[d.attemptId].notBefore - nowMs);
      }
      if d.job.None? {
        r := Block(d, PolicyInvalid, rounds);
        return;
      }
      var job := d.job.value;
      if job.jobId != d.runnerJobId || job.runId != d.runId {
        r := Block(d, LeaseIdentityMismatch, rounds);
        return;
      }
      if !job.policyApproved {
        r := Block(d, PolicyInvalid, rounds);
        return;
      }
      var existing := AcceptExistingLease(d, job, rounds);
      if existing.Some? {
        return existing.value;
      }
      if job.policyExpiresAt <= nowMs {
        r := Block(d, PolicyInvalid, rounds);
        return;
      }
      if connection.None? {
        r := Defer(d, RunnerOffline);
        return;
      }
      var refused := AuthorizeConnection(d, job, connection.value, rounds);
      if refused.Some? {
        return refused.value;
      }
      var stopped := PreOfferStopped(d, aborted, deadline);
      if stopped.Some? {
        return stopped.value;
      }
      r := OfferTo(d, job, connection.value, nowMs, rounds);
    }

    /**
     One cycle over the pending dispatches, of this loop or of one started after a crash.  A run whose lease
     existed before the cycle, or came to exist in it, is not offered again.  A dispatch that is still
     blocking keeps the cycle from every one behind it.
     */
    method RunOnce(dispatches: seq<Dispatch>, connections: map<string, Runner>, aborted: bool, deadline: Option<int>, rounds: nat)
      returns (results: seq<Outcome>)
      requires Valid() && env.Recorded()
      modifies this, env
      ensures Valid() && env.Recorded() && |results| <= |dispatches|
      ensures |results| < |dispatches| ==> results != [] && results[|results| - 1].StillBlocking?
      ensures forall i :: 0 <= i < |results| - 1 ==> !results[i].StillBlocking?
      ensures old(env.offers) <= env.offers && old(env.leases).Keys <= env.leases.Keys
      ensures forall k :: |old(env.offers)| <= k < |env.offers| ==> env.offers[k].job.runId !in old(env.leases)
    {
      results := [];
      var i := 0;
      while i < |dispatches|
        invariant 0 <= i <= |dispatches| && |results| == i && Valid() && env.Recorded()
        invariant forall j :: 0 <= j < i ==> !results[j].StillBlocking?
        invariant old(env.offers) <= env.offers && old(env.leases).Keys <= env.leases.Keys
        invariant forall k :: |old(env.offers)| <= k < |env.offers| ==> env.offers[k].job.runId !in old(env.leases)
      {
        var d := dispatches[i];
        var result: Outcome;
        var stopped := PreOfferStopped(d, aborted, deadline);
        if stopped.Some? {
          result := stopped.value;
        } else {
          result := DispatchOne(d, if d.runnerId in connections then Some(connections[d.runnerId]) else None, aborted, deadline, rounds);
        }
        results := results + [result];
        if result.StillBlocking? {
          return;
        }
        i := i + 1;
      }
    }
  }

  /** Over the whole history of offers no run was offered while it had a lease. */
  lemma {:induction false} NoOfferOnceLeased(env: Environment, j: nat, k: nat)
    requires env.Recorded() && j < k < |env.offers|
    requires env.offers[j].job.runId in env.leasedAt[j + 1]
    ensures env.offers[k].job.runId != env.offers[j].job.runId
  {
    assert env.leasedAt[j + 1] <= env.leasedAt[k];
  }
}
