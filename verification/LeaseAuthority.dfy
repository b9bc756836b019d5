/**
 The runner's authority to act under a lease: a window of monotonic time that renewals move
 forward, and that a refusal, a failure, a timeout or a refused action closes for good.
 */
module LeaseAuthority {
  import opened Wrappers

  // ---------------------------------------------------------------- the window as a value

  datatype Window = Window(deadline: int, expiry: int, baselineWall: int, closed: bool)

  function WindowFrom(duration: int, margin: int, receivedAt: int, wall: int, closed: bool): Window {
    Window(receivedAt + duration - margin, receivedAt + duration, wall, closed)
  }

  predicate MayStart(w: Window, now: int, wall: int) {
    !w.closed && now < w.deadline && w.baselineWall <= wall
  }

  /** How long the controller waits before a renewal, and again for its answer. */
  function IntervalOf(duration: int): int {
    if duration / 3 < 1 then 1 else duration / 3
  }

  /**
   Authority ends before the lease Core granted does exactly when the window was reset no more
   than the margin after the grant.
   */
  lemma {:induction false} AuthorityFitsLease(duration: int, margin: int, grantedAt: int, receivedAt: int, wall: int)
    ensures (forall now :: MayStart(WindowFrom(duration, margin, receivedAt, wall, false), now, wall) ==> now < grantedAt + duration)
      <==> receivedAt - grantedAt <= margin
  {
    if receivedAt - grantedAt > margin {
      assert MayStart(WindowFrom(duration, margin, receivedAt, wall, false), grantedAt + duration, wall);
    }
  }

  /** An expired window starts nothing, until it is renewed, exactly when the margin is not negative. */
  lemma {:induction false} ExpiredWindowStartsNothing(duration: int, margin: int, receivedAt: int, wall: int)
    ensures var w := WindowFrom(duration, margin, receivedAt, wall, false);
      (forall now, wall' :: w.expiry <= now ==> !MayStart(w, now, wall')) <==> 0 <= margin
  {
    var w := WindowFrom(duration, margin, receivedAt, wall, false);
    if margin < 0 {
      assert MayStart(w, w.expiry, wall);
    }
  }

  /** Two rounds of waiting fit into the lease exactly when it lasts at least 3 ms. */
  lemma {:induction false} TwoIntervalsFit(duration: int)
    requires duration > 0
    ensures 2 * IntervalOf(duration) < duration <==> duration >= 3
    ensures duration >= 3 ==> 3 * IntervalOf(duration) <= duration
  {
  }

  /**
   A refused start is final exactly when the window is closed or past its deadline.  A wall clock
   that jumped back and forth again gives the permission back, other than the comment on the
   class says.
   */
  lemma {:induction false} RefusalIsFinal(w: Window, now: int, wall: int)
    requires !MayStart(w, now, wall)
    ensures (forall now', wall' :: now' >= now ==> !MayStart(w, now', wall')) <==> w.closed || now >= w.deadline
  {
    if !w.closed && now < w.deadline {
      assert MayStart(w, now, w.baselineWall);
    }
  }

  lemma {:induction false} WallClockRefusalIsTakenBack()
    ensures var w := WindowFrom(30_000, 2_000, 0, 100, false); !MayStart(w, 5, 99) && MayStart(w, 6, 100)
  {
  }

  // ---------------------------------------------------------------- the window of the runner

  class LeaseWindow {
    const duration: int
    const margin: int
    var deadline: int
    var expiry: int
    var baselineWall: int
    var closed: bool

    function Value(): Window
      reads this
    {
      Window(deadline, expiry, baselineWall, closed)
    }

    constructor (duration: int, margin: int, now: int, wall: int)
      ensures this.duration == duration && this.margin == margin
      ensures Value() == WindowFrom(duration, margin, now, wall, false)
    {
      this.duration, this.margin := duration, margin;
      deadline, expiry, baselineWall, closed := now + duration - margin, now + duration, wall, false;
    }

    /** Closing outlives a renewal. */
    method Renew(now: int, wall: int)
      modifies this
      ensures Value() == WindowFrom(duration, margin, now, wall, old(closed))
    {
      deadline := now + duration - margin;
      expiry := now + duration;
      baselineWall := wall;
    }

    method Close()
      modifies this
      ensures Value() == old(Value()).(closed := true)
    {
      closed := true;
    }

    method MayStartAction(now: int, wall: int) returns (r: bool)
      ensures r == MayStart(Value(), now, wall)
    {
      if closed {
        return false;
      }
      if now >= deadline {
        return false;
      }
      if wall < baselineWall {
        return false;
      }
      return true;
    }

    method HasExpired(now: int) returns (r: bool)
      ensures r <==> expiry <= now
      ensures r && deadline <= expiry ==> forall now', wall :: now <= now' ==> !MayStart(Value(), now', wall)
    {
      return now >= expiry;
    }
  }

  // ---------------------------------------------------------------- the life of an accepted lease

  datatype RenewalPc =
    | Waiting(until: int)
    | Renewing(sentAt: int, until: int)
    | Ended

  datatype LeaseError = LeaseExpired | LeaseRenewalTimeout | RenewalRefused | CallerAborted

  /**
   One accepted lease: the window, the renewal loop, cut into the pieces it runs without waiting,
   and the checks the runtime makes in between.  The methods may be called in any order that
   `requires` allows; `Tick` lets time pass.  The last fields are bookkeeping: when the window was last
   reset, when Core made the grant behind that reset, until when Core holds the lease to be good,
   the grant behind a renewal under way, and whether every timer so far fired when it was due.
   */
  class AcceptedLeaseLifecycle {
    const window: LeaseWindow
    const interval: int
    var now: int
    var pc: RenewalPc
    var callerAborted: bool
    var stopped: bool
    var executionAborted: Option<LeaseError>
    var reset: int
    var grant: int
    var coreExpiry: int
    var underWay: Option<int>
    var exact: bool
    var renewed: bool

    /** Core granted the lease at `grantedAt`; its acceptance arrives now. */
    constructor (duration: int, margin: int, grantedAt: int, now: int, wall: int)
      requires grantedAt <= now
      ensures Valid() && fresh(window) && window.duration == duration && window.margin == margin
      ensures grant == grantedAt && reset == now == this.now && exact && !renewed && executionAborted.None?
    {
      window := new LeaseWindow(duration, margin, now, wall);
      interval := IntervalOf(duration);
      this.now := now;
      pc := Waiting(now + IntervalOf(duration));
      callerAborted, stopped, executionAborted := false, false, None;
      reset, grant, coreExpiry, underWay, exact, renewed := now, grantedAt, grantedAt + duration, None, true, false;
    }

    ghost predicate Valid()
      reads this, window
    {
      && interval == IntervalOf(window.duration)
      && window.deadline == reset + window.duration - window.margin
      && window.expiry == reset + window.duration
      && grant <= reset <= now && grant + window.duration <= coreExpiry
      && (window.closed <==> executionAborted.Some?)
      && (underWay.Some? ==> pc.Renewing? && pc.sentAt <= underWay.value <= now && underWay.value + window.duration <= coreExpiry)
      && (pc.Renewing? ==> pc.until == pc.sentAt + interval && pc.sentAt <= now)
      && (exact ==> OnTime())
    }

    /** With exact timers no wait is overdue, and a renewal was answered within the interval. */
    ghost predicate OnTime()
      reads this
    {
      && (pc.Waiting? ==> pc.until == reset + interval && now <= pc.until)
      && (pc.Renewing? ==> pc.sentAt == reset + interval && now <= pc.until)
      && (renewed ==> reset - grant <= interval)
    }

    predicate RenewalAborted()
      reads this
    {
      callerAborted || stopped
    }

    /** Time passes; the timers stay exact as long as it does not pass the one that is due next. */
    method Tick(to: int)
      requires Valid() && to >= now
      modifies this`now, this`exact
      ensures Valid() && now == to
      ensures exact == (old(exact) && (pc.Waiting? || pc.Renewing? ==> to <= pc.until))
    {
      now := to;
      exact := exact && (pc.Waiting? || pc.Renewing? ==> to <= pc.until);
    }

    /** Close the window and abort the execution. */
    method Fail(error: LeaseError)
      requires Valid()
      modifies window, this`pc, this`executionAborted, this`underWay
      ensures Valid() && window.closed && pc == Ended && underWay == None
      ensures executionAborted == if old(executionAborted).Some? then old(executionAborted) else Some(error)
    {
      window.Close();
      if executionAborted.None? {
        executionAborted := Some(error);
      }
      pc, underWay := Ended, None;
    }

    /** The wait before a renewal is over, or was cut short by the end of the run. */
    method DelayEnds() returns (error: Option<LeaseError>)
      requires Valid() && pc.Waiting? && (pc.until <= now || RenewalAborted())
      modifies window, this`pc, this`executionAborted, this`underWay
      ensures Valid() && (old(window.closed) ==> window.closed)
      ensures error.Some? ==> error == Some(LeaseExpired) && window.closed && pc == Ended
      ensures error.Some? <==> !RenewalAborted() && window.expiry <= now
      ensures error.None? ==> window.closed == old(window.closed)
      ensures error.None? ==> pc == if RenewalAborted() then Ended else Renewing(now, now + interval)
      ensures error.Some? && exact ==> window.duration < 3
    {
      if RenewalAborted() {
        pc := Ended;
        return None;
      }
      var expired := window.HasExpired(now);
      if expired {
        Fail(LeaseExpired);
        return Some(LeaseExpired);
      }
      pc := Renewing(now, now + interval);
      return None;
    }

    /** Core extends the lease, before any answer is on its way. */
    method CoreGrants()
      requires Valid() && pc.Renewing? && underWay.None?
      modifies this`underWay, this`coreExpiry
      ensures Valid() && underWay == Some(now) && coreExpiry >= old(coreExpiry)
    {
      underWay := Some(now);
      if coreExpiry < now + window.duration {
        coreExpiry := now + window.duration;
      }
    }

    /** The answer arrives before the timeout fires. */
    method Renewed(wall: int)
      requires Valid() && pc.Renewing? && underWay.Some?
      modifies window, this`pc, this`reset, this`grant, this`underWay, this`renewed
      ensures Valid() && reset == now && grant == old(underWay).value && renewed
      ensures window.closed == old(window.closed)
      ensures pc == if RenewalAborted() then Ended else Waiting(now + interval)
      ensures exact ==> reset - old(reset) <= 2 * interval && reset - grant <= interval
    {
      window.Renew(now, wall);
      reset, grant, underWay, renewed := now, underWay.value, None, true;
      pc := if RenewalAborted() then Ended else Waiting(now + interval);
    }

    /** Core refuses, or the call fails. */
    method RenewalFails()
      requires Valid() && pc.Renewing?
      modifies window, this`pc, this`executionAborted, this`underWay
      ensures Valid() && window.closed && pc == Ended && executionAborted.Some?
    {
      Fail(RenewalRefused);
    }

    /** No answer within the interval; a late one finds nobody waiting. */
    method RenewalTimesOut()
      requires Valid() && pc.Renewing? && pc.until <= now
      modifies window, this`pc, this`executionAborted, this`underWay
      ensures Valid() && window.closed && pc == Ended && executionAborted.Some?
    {
      Fail(LeaseRenewalTimeout);
    }

    /** The run is over; the renewal loop notices at its next turn. */
    method Stop()
      requires Valid()
      modifies this`stopped
      ensures Valid() && stopped
    {
      stopped := true;
    }

    method CallerAborts()
      requires Valid()
      modifies this`callerAborted
      ensures Valid() && callerAborted
    {
      callerAborted := true;
    }

    /**
     Asked right before a side effect.  A yes is given only while Core still holds the lease to be
     good, provided the window was reset within the margin after Core's grant; that the renewals see
     to themselves when timers are exact and the margin is no shorter than the interval; and with
     exact timers no margin is needed as long as the renewal loop runs and the acceptance was not
     later than two intervals before the end of the lease.  A no closes the window for good.
     */
    method AssertActionActive(wall: int) returns (r: Result<(), LeaseError>)
      requires Valid()
      modifies window, this`executionAborted
      ensures Valid() && (old(window.closed) ==> r.Err? && window.closed)
      ensures r.Ok? <==> !callerAborted && MayStart(old(window.Value()), now, wall)
      ensures r.Ok? ==> window.Value() == old(window.Value()) && executionAborted == old(executionAborted)
      ensures r.Err? && !callerAborted ==> window.closed && Some(r.error) == executionAborted
      ensures r.Ok? && reset - grant <= window.margin ==> now < coreExpiry
      ensures r.Ok? && exact && renewed && interval <= window.margin ==> now < coreExpiry
      ensures r.Ok? && exact && pc != Ended && window.duration >= 3 && (renewed || reset - grant <= window.duration - 2 * interval) ==>
        now <= coreExpiry
    {
      TwoIntervals();
      if callerAborted {
        return Err(CallerAborted);
      }
      if executionAborted.Some? {
        return Err(executionAborted.value);
      }
      var may := window.MayStartAction(now, wall);
      if !may {
        window.Close();
        executionAborted := Some(LeaseExpired);
        return Err(LeaseExpired);
      }
      return Ok(());
    }

    /** Asked before and after every other operation under the lease. */
    method AssertLeaseActive() returns (r: Result<(), LeaseError>)
      requires Valid()
      modifies window, this`executionAborted
      ensures Valid() && (old(window.closed) ==> r.Err? && window.closed)
      ensures r.Ok? <==> !callerAborted && !old(window.closed) && now < window.expiry
      ensures r.Ok? ==> window.Value() == old(window.Value()) && executionAborted == old(executionAborted)
      ensures r.Err? && !callerAborted ==> window.closed && Some(r.error) == executionAborted
      ensures r == Err(LeaseExpired) && old(executionAborted).None? && exact && pc != Ended ==> window.duration < 3
    {
      TwoIntervals();
      if callerAborted {
        return Err(CallerAborted);
      }
      if executionAborted.Some? {
        return Err(executionAborted.value);
      }
      var expired := window.HasExpired(now);
      if expired {
        window.Close();
        executionAborted := Some(LeaseExpired);
        return Err(LeaseExpired);
      }
      return Ok(());
    }

    /** Some step of some party; the result is set when it authorized an action. */
    method AnyStep() returns (authorized: Option<Authorization>)
      requires Valid()
      modifies this, window
      ensures Valid() && (exact ==> old(exact))
      ensures old(window.closed) ==> authorized.None? && window.closed
      ensures old(renewed) ==> renewed
      ensures !renewed ==> reset == old(reset) && grant == old(grant)
      ensures authorized.Some? && exact && interval <= window.margin && (renewed || reset - grant <= window.margin) ==>
        authorized.value.at < authorized.value.coreExpiry
    {
      authorized := None;
      var time: int, wall: int := *, *;
      if {
        case time >= now => Tick(time);
        case pc.Waiting? && (pc.until <= now || RenewalAborted()) => var _ := DelayEnds();
        case pc.Renewing? && underWay.None? => CoreGrants();
        case pc.Renewing? && underWay.Some? => Renewed(wall);
        case pc.Renewing? => RenewalFails();
        case pc.Renewing? && pc.until <= now => RenewalTimesOut();
        case true => Stop();
        case true => CallerAborts();
        case true => var _ := AssertLeaseActive();
        case true =>
          var yes := AssertActionActive(wall);
          if yes.Ok? {
            authorized := Some(Authorization(now, coreExpiry));
          }
      }
    }

    /** With exact timers the loop comes round before the lease has run out twice over. */
    lemma {:induction false} TwoIntervals()
      requires Valid()
      ensures window.duration >= 3 ==> 2 * interval < window.duration && 3 * interval <= window.duration
      ensures exact && pc != Ended ==> now <= reset + 2 * interval
    {
    }
  }

  /** A yes to an action: when it was given, and until when Core held the lease to be good. */
  datatype Authorization = Authorization(at: int, coreExpiry: int)

  /**
   Any history of an accepted lease.  While timers are exact and the margin covers both the interval
   and the delay of the acceptance, every action is authorized before Core's expiry; and a
   window closed at the start, or on the way, never opens again.
   */
  method AnyHistory(lease: AcceptedLeaseLifecycle, length: nat) returns (authorized: seq<Authorization>)
    requires lease.Valid() && !lease.renewed && lease.exact
    modifies lease, lease.window
    ensures lease.Valid()
    ensures lease.exact && lease.interval <= lease.window.margin && old(lease.reset - lease.grant) <= lease.window.margin ==>
      forall a :: a in authorized ==> a.at < a.coreExpiry
    ensures old(lease.window.closed) ==> authorized == [] && lease.window.closed
  {
    authorized := [];
    ghost var delay := lease.reset - lease.grant;
    ghost var safe := lease.interval <= lease.window.margin && delay <= lease.window.margin;
    var i := 0;
    while i < length
      invariant 0 <= i <= length
      invariant lease.Valid() && (!lease.renewed ==> lease.reset - lease.grant == delay)
      invariant lease.exact && safe ==> forall a :: a in authorized ==> a.at < a.coreExpiry
      invariant old(lease.window.closed) ==> authorized == [] && lease.window.closed
    {
      var step := lease.AnyStep();
      if step.Some? {
        authorized := authorized + [step.value];
      }
      i := i + 1;
    }
  }
}
