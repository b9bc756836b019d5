/**
 The desktop companion's broker of one-time permits: approval gate, pause and emergency-stop
 latches, and the permit store.  Its promises are about histories, so the companion keeps one.
 */
module CompanionPermits {
  import opened Wrappers

  const U64_MAX: nat := 0xFFFF_FFFF_FFFF_FFFF

  datatype Risk = Normal | ExternalSideEffect | Destructive | ProductionForbidden

  datatype RiskPolicy = AutoNormal | RequiresApproval | Forbidden

  function Policy(risk: Risk): RiskPolicy {
    match risk
    case Normal => AutoNormal
    case ExternalSideEffect => RequiresApproval
    case Destructive => RequiresApproval
    case ProductionForbidden => Forbidden
  }

  datatype Binding = Binding(
    sessionId: string, runId: string, actionId: string, actionDigest: string, graphId: string, risk: Risk)

  datatype ApprovalOutcome = HumanApproved | HumanDenied | HumanTimedOut

  datatype Decision = Approved | Denied | TimedOut | DecisionPaused | DecisionStopped

  datatype PermitError =
    | UnknownToken
    | AlreadyConsumed
    | Expired
    | BindingMismatch
    | EmergencyStopped
    | Paused
    | ProductionForbiddenError

  datatype StoredPermit = StoredPermit(binding: Binding, expiresAt: nat, consumed: bool)

  function SaturatingAdd(a: nat, b: nat): nat {
    if a + b > U64_MAX then U64_MAX else a + b
  }

  // ---------------------------------------------------------------- histories

  /** What happened to a companion; the approver's answer is there when a human was asked. */
  datatype Happening =
    | Issued(token: string, binding: Binding, expiresAt: nat, requestedRisk: Risk, human: Option<ApprovalOutcome>)
    | Authorized(token: string, presented: Binding, at: nat)
    | PauseAsked
    | ResumeAsked
    | Stopped
    | Reset

  function StoppedAfter(history: seq<Happening>): bool {
    if history == [] then false
    else
      match history[|history| - 1]
      case Stopped => true
      case Reset => false
      case _ => StoppedAfter(history[..|history| - 1])
  }

  /** Neither pause nor resume has any effect on a stopped session. */
  function PausedAfter(history: seq<Happening>): bool {
    if history == [] then false
    else
      var before := history[..|history| - 1];
      match history[|history| - 1]
      case PauseAsked => !StoppedAfter(before) || PausedAfter(before)
      case ResumeAsked => StoppedAfter(before) && PausedAfter(before)
      case Stopped => false
      case Reset => false
      case _ => PausedAfter(before)
  }

  predicate Ends(h: Happening) {
    h.Stopped? || h.Reset?
  }

  predicate IssuedAt(history: seq<Happening>, i: nat, token: string) {
    i < |history| && history[i].Issued? && history[i].token == token
  }

  predicate AuthorizedAt(history: seq<Happening>, i: nat, token: string) {
    i < |history| && history[i].Authorized? && history[i].token == token
  }

  /** No stop and no reset after place `i`. */
  ghost predicate Undisturbed(history: seq<Happening>, i: nat) {
    forall j :: i < j < |history| ==> !Ends(history[j])
  }

  ghost predicate Spent(history: seq<Happening>, token: string) {
    exists j: nat :: AuthorizedAt(history, j, token)
  }

  /** The permit issued at place `i` is one for this token and this binding, still to be used at `at`. */
  ghost predicate Usable(history: seq<Happening>, i: nat, token: string, presented: Binding, at: nat) {
    && IssuedAt(history, i, token) && Undisturbed(history, i) && !Spent(history, token)
    && history[i].binding == presented && at < history[i].expiresAt
  }

  /** The history as a whole gives leave to authorize. */
  ghost predicate GivesLeave(history: seq<Happening>, token: string, presented: Binding, at: nat) {
    && !StoppedAfter(history) && !PausedAfter(history)
    && presented.risk != ProductionForbidden
    && exists i: nat :: Usable(history, i, token, presented, at)
  }

  ghost predicate FreshTokens(history: seq<Happening>) {
    forall i: nat, j: nat, token :: IssuedAt(history, i, token) && IssuedAt(history, j, token) ==> i == j
  }

  /** Every authorization had leave from what went before, and no permit was issued against the policy. */
  ghost predicate Sound(history: seq<Happening>) {
    && FreshTokens(history)
    && (forall j :: 0 <= j < |history| && history[j].Authorized? ==>
          GivesLeave(history[..j], history[j].token, history[j].presented, history[j].at))
    && (forall i :: 0 <= i < |history| && history[i].Issued? ==> IssueAllowed(history[..i], history[i]))
  }

  ghost predicate IssueAllowed(before: seq<Happening>, h: Happening)
    requires h.Issued?
  {
    && !StoppedAfter(before) && !PausedAfter(before)
    && match Policy(h.requestedRisk)
       case AutoNormal => h.human.None?
       case RequiresApproval => h.human == Some(HumanApproved)
       case Forbidden => false
  }

  lemma {:induction false} SpentTokenIsNotAuthorized(history: seq<Happening>, j: nat, k: nat, token: string)
    requires Sound(history) && AuthorizedAt(history, j, token) && j < k < |history|
    ensures !AuthorizedAt(history, k, token)
  {
    assert AuthorizedAt(history[..k], j, token);
  }

  /** One token, one action, however often it is presented. */
  lemma {:induction false} TokenIsAuthorizedAtMostOnce(history: seq<Happening>, j: nat, k: nat, token: string)
    requires Sound(history) && AuthorizedAt(history, j, token) && AuthorizedAt(history, k, token)
    ensures j == k
  {
    if j < k {
      SpentTokenIsNotAuthorized(history, j, k, token);
    } else if k < j {
      SpentTokenIsNotAuthorized(history, k, j, token);
    }
  }

  /** An authorized action is the one the permit was issued for, before it expired and in the same undisturbed session. */
  lemma {:induction false} AuthorizationIsJustified(history: seq<Happening>, j: nat) returns (i: nat)
    requires Sound(history) && j < |history| && history[j].Authorized?
    ensures i < j && IssuedAt(history, i, history[j].token) && history[i].binding == history[j].presented
    ensures history[j].at < history[i].expiresAt && history[j].presented.risk != ProductionForbidden
    ensures forall k :: i <= k <= j ==> !Ends(history[k])
    ensures forall i': nat :: IssuedAt(history, i', history[j].token) ==> i' == i
  {
    var before := history[..j];
    assert GivesLeave(before, history[j].token, history[j].presented, history[j].at);
    i :| Usable(before, i, history[j].token, history[j].presented, history[j].at);
    forall k | i <= k <= j ensures !Ends(history[k]) {
      if i < k < j {
        assert before[k] == history[k];
      }
    }
    assert IssuedAt(history, i, history[j].token);
  }

  /** After a stop nothing is authorized and nothing issued until a reset. */
  lemma {:induction false} NothingAfterStopUntilReset(history: seq<Happening>, s: nat, j: nat)
    requires Sound(history) && s < j < |history| && history[s].Stopped?
    requires forall k :: s < k < j ==> !history[k].Reset?
    ensures !history[j].Authorized? && !history[j].Issued?
  {
    StopLasts(history, s, j);
  }

  lemma {:induction false} StopLasts(history: seq<Happening>, s: nat, j: nat)
    requires s < j <= |history| && history[s].Stopped? && forall k :: s < k < j ==> !history[k].Reset?
    ensures StoppedAfter(history[..j])
  {
    assert history[..j][..j - 1] == history[..j - 1];
    if s < j - 1 {
      StopLasts(history, s, j - 1);
    }
  }

  /** A stop latches: the session is stopped exactly when some stop has no reset behind it. */
  lemma {:induction false} StoppedMeansNoResetSince(history: seq<Happening>)
    ensures StoppedAfter(history) <==> exists s :: 0 <= s < |history| && StoppedSince(history, s)
    decreases |history|
  {
    if history != [] {
      var n := |history| - 1;
      var before := history[..n];
      StoppedMeansNoResetSince(before);
      forall s | 0 <= s < n ensures StoppedSince(history, s) <==> StoppedSince(before, s) && !history[n].Reset? {
        if StoppedSince(history, s) {
          forall k | s < k < n ensures !before[k].Reset? {
            assert before[k] == history[k];
          }
        }
      }
      assert StoppedSince(history, n) <==> history[n].Stopped?;
    }
  }

  predicate StoppedSince(history: seq<Happening>, s: nat)
    requires s < |history|
  {
    history[s].Stopped? && forall k :: s < k < |history| ==> !history[k].Reset?
  }

  /** Paused exactly since a pause of a session not stopped, with no resume, stop or reset behind it. */
  lemma {:induction false} PausedMeansNoResumeSince(history: seq<Happening>)
    ensures PausedAfter(history) <==> exists p :: 0 <= p < |history| && PausedSince(history, p)
    ensures PausedAfter(history) ==> !StoppedAfter(history)
    decreases |history|
  {
    if history != [] {
      var n := |history| - 1;
      var before := history[..n];
      PausedMeansNoResumeSince(before);
      forall p | 0 <= p < n
        ensures PausedSince(history, p) <==> PausedSince(before, p) && !Ends(history[n]) && !history[n].ResumeAsked?
      {
        assert before[..p] == history[..p];
        if PausedSince(history, p) {
          forall k | p < k < n ensures !Ends(before[k]) && !before[k].ResumeAsked? {
            assert before[k] == history[k];
          }
        }
      }
      assert PausedSince(history, n) <==> history[n].PauseAsked? && !StoppedAfter(before);
    }
  }

  predicate PausedSince(history: seq<Happening>, p: nat)
    requires p < |history|
  {
    && history[p].PauseAsked? && !StoppedAfter(history[..p])
    && forall k :: p < k < |history| ==> !Ends(history[k]) && !history[k].ResumeAsked?
  }

  /** A permit does not outlive its session: issued before a stop or reset, it authorizes nothing after it. */
  lemma {:induction false} PermitDiesWithItsSession(history: seq<Happening>, i: nat, end: nat, j: nat, token: string)
    requires Sound(history) && IssuedAt(history, i, token) && i < end < j < |history| && Ends(history[end])
    ensures !AuthorizedAt(history, j, token)
  {
    if AuthorizedAt(history, j, token) {
      var i' := AuthorizationIsJustified(history, j);
      assert false;
    }
  }

  lemma {:induction false} UnissuedIsUnauthorized(history: seq<Happening>, token: string)
    requires Sound(history) && forall i: nat :: !IssuedAt(history, i, token)
    ensures forall j: nat :: !AuthorizedAt(history, j, token)
  {
    forall j: nat ensures !AuthorizedAt(history, j, token) {
      if AuthorizedAt(history, j, token) {
        var i := AuthorizationIsJustified(history, j);
        assert false;
      }
    }
  }

  // ---------------------------------------------------------------- who was asked

  /** What the caller of the broker can check before it asks: a permit for more than the normal is asked for as such. */
  predicate AskedAsRisky(h: Happening)
    requires h.Issued?
  {
    h.binding.risk != Normal ==> h.requestedRisk != Normal
  }

  /** A human said yes before the action at place `j` was authorized. */
  ghost predicate ApprovedBefore(history: seq<Happening>, j: nat)
    requires j < |history| && history[j].Authorized?
  {
    exists i: nat :: i < j && IssuedAt(history, i, history[j].token) && history[i].human == Some(HumanApproved)
  }

  ghost predicate RiskyActionsWereApproved(history: seq<Happening>) {
    forall j :: 0 <= j < |history| && history[j].Authorized? && history[j].presented.risk != Normal ==> ApprovedBefore(history, j)
  }

  ghost predicate UsedPermitsWereAskedAsRisky(history: seq<Happening>) {
    forall i :: 0 <= i < |history| && history[i].Issued? && Spent(history, history[i].token) ==> AskedAsRisky(history[i])
  }

  /** A human was behind a permit exactly when the request named more than the normal risk. */
  lemma {:induction false} HumanIsAskedByRequestedRisk(history: seq<Happening>, i: nat)
    requires Sound(history) && i < |history| && history[i].Issued?
    ensures history[i].human == Some(HumanApproved) <==> history[i].requestedRisk != Normal
  {
    assert IssueAllowed(history[..i], history[i]);
  }

  /** Every risky action was approved exactly when every permit used was asked for under a risk other than the normal one. */
  lemma {:induction false} RiskyActionWasApproved(history: seq<Happening>)
    requires Sound(history)
    ensures RiskyActionsWereApproved(history) <==> UsedPermitsWereAskedAsRisky(history)
  {
    forall j | 0 <= j < |history| && history[j].Authorized? && history[j].presented.risk != Normal
      ensures UsedPermitsWereAskedAsRisky(history) ==> ApprovedBefore(history, j)
    {
      var i := AuthorizationIsJustified(history, j);
      HumanIsAskedByRequestedRisk(history, i);
      assert AuthorizedAt(history, j, history[i].token);
    }
    if RiskyActionsWereApproved(history) {
      forall i | 0 <= i < |history| && history[i].Issued? && Spent(history, history[i].token) ensures AskedAsRisky(history[i]) {
        var j: nat :| AuthorizedAt(history, j, history[i].token);
        var i' := AuthorizationIsJustified(history, j);
        assert IssuedAt(history, i, history[j].token);
        HumanIsAskedByRequestedRisk(history, i);
      }
    }
  }

  /** A request that names the normal risk gets a permit for any other, and no human has seen it. */
  lemma {:induction false} UnnamedRiskIsNotApproved(binding: Binding)
    requires binding.risk != Normal && binding.risk != ProductionForbidden
    ensures var history := [Issued("t", binding, 1, Normal, None), Authorized("t", binding, 0)];
      Sound(history) && !ApprovedBefore(history, 1) && !RiskyActionsWereApproved(history)
  {
    var history := [Issued("t", binding, 1, Normal, None), Authorized("t", binding, 0)];
    assert history[..0] == [] && history[..1] == [history[0]] && history[..1][..0] == [];
    assert Usable(history[..1], 0, "t", binding, 0);
    assert !StoppedAfter(history[..1]) && !PausedAfter(history[..1]) by {
      assert history[..1][|history[..1]| - 1].Issued?;
    }
    assert GivesLeave(history[..1], "t", binding, 0);
    assert IssueAllowed(history[..0], history[0]);
    forall i: nat | i < 1 && IssuedAt(history, i, "t") ensures history[i].human != Some(HumanApproved) {
    }
  }

  // ---------------------------------------------------------------- the latches

  class SessionControl {
    var emergencyStopped: bool
    var paused: bool

    constructor ()
      ensures !emergencyStopped && !paused
    {
      emergencyStopped, paused := false, false;
    }

    method Pause()
      modifies this
      ensures emergencyStopped == old(emergencyStopped) && paused == (old(paused) || !emergencyStopped)
    {
      if !emergencyStopped {
        paused := true;
      }
    }

    method Resume()
      modifies this
      ensures emergencyStopped == old(emergencyStopped) && paused == (old(paused) && emergencyStopped)
    {
      if !emergencyStopped {
        paused := false;
      }
    }

    method EmergencyStop()
      modifies this
      ensures emergencyStopped && !paused
    {
      emergencyStopped, paused := true, false;
    }

    method ResetLatches()
      modifies this
      ensures !emergencyStopped && !paused
    {
      emergencyStopped, paused := false, false;
    }
  }

  // ---------------------------------------------------------------- the store

  /** Entries are kept under the hash of the token, which stands for the token itself. */
  class PermitStore {
    const defaultTtl: nat
    var entries: map<string, StoredPermit>

    constructor (defaultTtl: nat)
      ensures this.defaultTtl == defaultTtl && entries == map[]
    {
      this.defaultTtl := defaultTtl;
      entries := map[];
    }

    method Issue(token: string, binding: Binding, now: nat) returns (expiresAt: nat)
      modifies this
      ensures expiresAt <= now + defaultTtl && (expiresAt < now + defaultTtl ==> expiresAt == U64_MAX)
      ensures expiresAt <= U64_MAX
      ensures entries == old(entries)[token := StoredPermit(binding, expiresAt, false)]
    {
      expiresAt := SaturatingAdd(now, defaultTtl);
      entries := entries[token := StoredPermit(binding, expiresAt, false)];
    }

    /** A token is used up by a full match and by nothing else. */
    method Consume(control: SessionControl, token: string, presented: Binding, now: nat) returns (r: Result<(), PermitError>)
      modifies this
      ensures r.Ok? <==>
        && !control.emergencyStopped && !control.paused && presented.risk != ProductionForbidden
        && token in old(entries) && !old(entries)[token].consumed
        && now < old(entries)[token].expiresAt && old(entries)[token].binding == presented
      ensures r.Ok? ==> entries == old(entries)[token := old(entries)[token].(consumed := true)]
      ensures r.Err? ==> entries == old(entries)
      ensures control.emergencyStopped ==> r == Err(EmergencyStopped)
      ensures !control.emergencyStopped && control.paused ==> r == Err(Paused)
      ensures !control.emergencyStopped && !control.paused ==>
        && (r == Err(ProductionForbiddenError) <==> presented.risk == ProductionForbidden)
        && (r == Err(UnknownToken) <==> presented.risk != ProductionForbidden && token !in entries)
        && (r == Err(AlreadyConsumed) <==>
              presented.risk != ProductionForbidden && token in old(entries) && old(entries)[token].consumed)
        && (r == Err(Expired) <==>
              presented.risk != ProductionForbidden && token in entries && !entries[token].consumed && entries[token].expiresAt <= now)
    {
      if control.emergencyStopped {
        return Err(EmergencyStopped);
      }
      if control.paused {
        return Err(Paused);
      }
      if presented.risk == ProductionForbidden {
        return Err(ProductionForbiddenError);
      }
      if token !in entries {
        return Err(UnknownToken);
      }
      var entry := entries[token];
      if entry.consumed {
        return Err(AlreadyConsumed);
      }
      if now >= entry.expiresAt {
        return Err(Expired);
      }
      if entry.binding != presented {
        return Err(BindingMismatch);
      }
      entries := entries[token := entry.(consumed := true)];
      return Ok(());
    }

    method InvalidateAll()
      modifies this
      ensures entries == map[]
    {
      entries := map[];
    }
  }

  // ---------------------------------------------------------------- the broker

  datatype PermitRequestOutcome = PermitIssued(token: string, expiresAt: nat) | Rejected(decision: Decision)

  /** The store holds exactly the permits of the undisturbed end of the history, marked when spent. */
  ghost predicate StoreMatches(history: seq<Happening>, entries: map<string, StoredPermit>) {
    && (forall token :: token in entries ==>
          exists i: nat :: IssuedAt(history, i, token) && EntryMatches(history, i, entries[token]))
    && (forall i: nat :: i < |history| && history[i].Issued? && Undisturbed(history, i) ==> history[i].token in entries)
  }

  ghost predicate EntryMatches(history: seq<Happening>, i: nat, entry: StoredPermit)
    requires i < |history| && history[i].Issued?
  {
    && Undisturbed(history, i)
    && entry.binding == history[i].binding && entry.expiresAt == history[i].expiresAt
    && (entry.consumed <==> Spent(history, history[i].token))
  }

  class Companion {
    var sessionId: string
    const control: SessionControl
    const permits: PermitStore
    ghost var history: seq<Happening>

    constructor (sessionId: string, ttl: nat)
      ensures Valid() && fresh(control) && fresh(permits) && history == [] && this.sessionId == sessionId
    {
      this.sessionId := sessionId;
      control := new SessionControl();
      permits := new PermitStore(ttl);
      history := [];
    }

    ghost predicate Valid()
      reads this, control, permits
    {
      && control.emergencyStopped == StoppedAfter(history)
      && control.paused == PausedAfter(history)
      && Sound(history)
      && StoreMatches(history, permits.entries)
    }

    /** The latches first, then the policy, and only a risk that requires it reaches the human. */
    method Decide(risk: Risk, answer: ApprovalOutcome) returns (decision: Decision, asked: bool)
      ensures decision == Approved <==>
        && !control.emergencyStopped && !control.paused
        && (risk == Normal || (risk != ProductionForbidden && answer == HumanApproved))
      ensures asked <==> !control.emergencyStopped && !control.paused && Policy(risk) == RequiresApproval
      ensures control.emergencyStopped <==> decision == DecisionStopped
      ensures decision == DecisionPaused <==> !control.emergencyStopped && control.paused
      ensures decision == TimedOut ==> asked && answer == HumanTimedOut
    {
      asked := false;
      if control.emergencyStopped {
        return DecisionStopped, asked;
      }
      if control.paused {
        return DecisionPaused, asked;
      }
      match Policy(risk) {
        case Forbidden => return Denied, asked;
        case AutoNormal => return Approved, asked;
        case RequiresApproval =>
          asked := true;
          match answer {
            case HumanApproved => return Approved, asked;
            case HumanDenied => return Denied, asked;
            case HumanTimedOut => return TimedOut, asked;
          }
      }
    }

    /** `answer` is what a human would say if asked, `token` the random token a permit would get. */
    method RequestPermit(
        risk: Risk, binding: Binding, answer: ApprovalOutcome, token: string, now: nat)
      returns (r: PermitRequestOutcome)
      requires Valid() && forall i: nat :: !IssuedAt(history, i, token)
      modifies this`history, permits
      ensures Valid()
      ensures r.PermitIssued? ==> r.token == token && r.expiresAt <= now + permits.defaultTtl
      ensures r.PermitIssued? ==> history == old(history) + [Issued(token, binding, r.expiresAt, risk,
        if Policy(risk) == RequiresApproval then Some(answer) else None)]
      ensures r.Rejected? ==> history == old(history) && permits.entries == old(permits.entries)
      ensures r.PermitIssued? <==>
        && !StoppedAfter(old(history)) && !PausedAfter(old(history))
        && (risk == Normal || (risk != ProductionForbidden && answer == HumanApproved))
    {
      var decision, asked := Decide(risk, answer);
      if decision != Approved {
        return Rejected(decision);
      }
      var expiresAt := permits.Issue(token, binding, now);
      ghost var issued := Issued(token, binding, expiresAt, risk, if asked then Some(answer) else None);
      IssueNext(history, old(permits.entries), issued, permits.entries);
      history := history + [issued];
      return PermitIssued(token, expiresAt);
    }

    /** An action is authorized exactly when the history gives leave; a refusal changes nothing. */
    method AuthorizeAction(token: string, presented: Binding, now: nat) returns (r: Result<(), PermitError>)
      requires Valid()
      modifies this`history, permits
      ensures Valid()
      ensures r.Ok? <==> GivesLeave(old(history), token, presented, now)
      ensures history == if r.Ok? then old(history) + [Authorized(token, presented, now)] else old(history)
      ensures r.Err? ==> permits.entries == old(permits.entries)
    {
      StoreGivesLeave(history, permits.entries, token, presented, now);
      ghost var before := history;
      r := permits.Consume(control, token, presented, now);
      if r.Ok? {
        history := history + [Authorized(token, presented, now)];
        SoundNext(before, history[|before|]);
        ConsumeMatches(before, old(permits.entries), token, presented, now);
      }
    }

    method Pause()
      requires Valid()
      modifies this`history, control
      ensures Valid() && history == old(history) + [PauseAsked]
    {
      ghost var before := history;
      assert StoreMatches(before, permits.entries);
      PauseNext(before);
      control.Pause();
      history := history + [PauseAsked];
      SoundNext(before, PauseAsked);
      LatchMatches(before, permits.entries, PauseAsked);
    }

    method Resume()
      requires Valid()
      modifies this`history, control
      ensures Valid() && history == old(history) + [ResumeAsked]
    {
      control.Resume();
      ghost var before := history;
      history := history + [ResumeAsked];
      SoundNext(before, ResumeAsked);
      LatchMatches(before, permits.entries, ResumeAsked);
    }

    method EmergencyStop()
      requires Valid()
      modifies this`history, control, permits
      ensures Valid() && history == old(history) + [Stopped] && permits.entries == map[]
    {
      control.EmergencyStop();
      permits.InvalidateAll();
      ghost var before := history;
      history := history + [Stopped];
      SoundNext(before, Stopped);
    }

    method ResetSession(newSessionId: string)
      requires Valid()
      modifies this, control, permits
      ensures Valid() && history == old(history) + [Reset] && permits.entries == map[] && sessionId == newSessionId
    {
      control.ResetLatches();
      permits.InvalidateAll();
      sessionId := newSessionId;
      ghost var before := history;
      history := history + [Reset];
      SoundNext(before, Reset);
    }
  }

  // ---------------------------------------------------------------- how one happening keeps the invariant

  lemma {:induction false} SoundNext(history: seq<Happening>, h: Happening)
    requires Sound(history)
    requires h.Issued? ==> IssueAllowed(history, h) && forall i: nat :: !IssuedAt(history, i, h.token)
    requires h.Authorized? ==> GivesLeave(history, h.token, h.presented, h.at)
    ensures Sound(history + [h])
    ensures (history + [h])[..|history|] == history
  {
    var next := history + [h];
    assert next[..|history|] == history;
    forall i: nat, token | IssuedAt(next, i, token) && i < |history| ensures IssuedAt(history, i, token) {
    }
    forall j | 0 <= j < |history| ensures next[..j] == history[..j] && next[j] == history[j] {
    }
  }

  lemma {:induction false} PauseNext(history: seq<Happening>)
    ensures StoppedAfter(history + [PauseAsked]) == StoppedAfter(history)
    ensures PausedAfter(history + [PauseAsked]) == (PausedAfter(history) || !StoppedAfter(history))
  {
    assert (history + [PauseAsked])[..|history|] == history;
  }

  lemma {:induction false} SpentNext(history: seq<Happening>, h: Happening, token: string)
    ensures Spent(history + [h], token) <==> Spent(history, token) || (h.Authorized? && h.token == token)
  {
    if Spent(history, token) {
      var j: nat :| AuthorizedAt(history, j, token);
      assert AuthorizedAt(history + [h], j, token);
    }
    if h.Authorized? && h.token == token {
      assert AuthorizedAt(history + [h], |history|, token);
    }
    if Spent(history + [h], token) {
      var j: nat :| AuthorizedAt(history + [h], j, token);
      assert j < |history| ==> AuthorizedAt(history, j, token);
    }
  }

  lemma {:induction false} UndisturbedNext(history: seq<Happening>, h: Happening, i: nat)
    requires i < |history|
    ensures Undisturbed(history + [h], i) <==> Undisturbed(history, i) && !Ends(h)
  {
    var next := history + [h];
    assert next[|history|] == h;
    if Undisturbed(next, i) {
      forall j | i < j < |history| ensures !Ends(history[j]) {
        assert next[j] == history[j];
      }
    }
  }

  lemma {:induction false} EntryMatchesNext(history: seq<Happening>, i: nat, entry: StoredPermit, h: Happening)
    requires i < |history| && history[i].Issued? && EntryMatches(history, i, entry)
    requires !Ends(h)
    ensures h.Authorized? && h.token == history[i].token ==> EntryMatches(history + [h], i, entry.(consumed := true))
    ensures !(h.Authorized? && h.token == history[i].token) ==> EntryMatches(history + [h], i, entry)
  {
    UndisturbedNext(history, h, i);
    SpentNext(history, h, history[i].token);
  }

  lemma {:induction false} LatchMatches(history: seq<Happening>, entries: map<string, StoredPermit>, h: Happening)
    requires StoreMatches(history, entries) && (h.PauseAsked? || h.ResumeAsked?)
    ensures StoreMatches(history + [h], entries)
  {
    var next := history + [h];
    forall token | token in entries ensures exists i: nat :: IssuedAt(next, i, token) && EntryMatches(next, i, entries[token]) {
      var i: nat :| IssuedAt(history, i, token) && EntryMatches(history, i, entries[token]);
      EntryMatchesNext(history, i, entries[token], h);
      assert IssuedAt(next, i, token);
    }
    forall i: nat | i < |next| && next[i].Issued? && Undisturbed(next, i) ensures next[i].token in entries {
      UndisturbedNext(history, h, i);
    }
  }

  lemma {:induction false} IssueNext(
      history: seq<Happening>, entries: map<string, StoredPermit>, h: Happening, entries': map<string, StoredPermit>)
    requires Sound(history) && StoreMatches(history, entries) && h.Issued? && IssueAllowed(history, h)
    requires forall i: nat :: !IssuedAt(history, i, h.token)
    requires entries' == entries[h.token := StoredPermit(h.binding, h.expiresAt, false)]
    ensures Sound(history + [h]) && StoreMatches(history + [h], entries')
    ensures StoppedAfter(history + [h]) == StoppedAfter(history) && PausedAfter(history + [h]) == PausedAfter(history)
  {
    SoundNext(history, h);
    UnissuedIsUnauthorized(history, h.token);
    IssueMatches(history, entries, h, entries');
  }

  lemma {:induction false} IssueMatches(
      history: seq<Happening>, entries: map<string, StoredPermit>, h: Happening, entries': map<string, StoredPermit>)
    requires StoreMatches(history, entries) && h.Issued?
    requires forall i: nat :: !IssuedAt(history, i, h.token) && !AuthorizedAt(history, i, h.token)
    requires entries' == entries[h.token := StoredPermit(h.binding, h.expiresAt, false)]
    ensures StoreMatches(history + [h], entries')
  {
    var next := history + [h];
    SpentNext(history, h, h.token);
    assert IssuedAt(next, |history|, h.token) && EntryMatches(next, |history|, entries'[h.token]);
    forall token | token in entries' && token != h.token
      ensures exists i: nat :: IssuedAt(next, i, token) && EntryMatches(next, i, entries'[token])
    {
      var i: nat :| IssuedAt(history, i, token) && EntryMatches(history, i, entries[token]);
      EntryMatchesNext(history, i, entries[token], h);
      assert IssuedAt(next, i, token);
    }
    forall i: nat | i < |next| && next[i].Issued? && Undisturbed(next, i) ensures next[i].token in entries' {
      if i < |history| {
        UndisturbedNext(history, h, i);
      }
    }
  }

  lemma {:induction false} ConsumeMatches(
      history: seq<Happening>, entries: map<string, StoredPermit>, token: string, presented: Binding, at: nat)
    requires StoreMatches(history, entries) && token in entries
    ensures StoreMatches(history + [Authorized(token, presented, at)], entries[token := entries[token].(consumed := true)])
  {
    var h := Authorized(token, presented, at);
    var next := history + [h];
    var entries' := entries[token := entries[token].(consumed := true)];
    forall t | t in entries' ensures exists i: nat :: IssuedAt(next, i, t) && EntryMatches(next, i, entries'[t]) {
      var i: nat :| IssuedAt(history, i, t) && EntryMatches(history, i, entries[t]);
      EntryMatchesNext(history, i, entries[t], h);
      assert IssuedAt(next, i, t);
    }
    forall i: nat | i < |next| && next[i].Issued? && Undisturbed(next, i) ensures next[i].token in entries' {
      UndisturbedNext(history, h, i);
    }
  }

  /** Looking the token up in the store answers the question about the history. */
  lemma {:induction false} StoreGivesLeave(
      history: seq<Happening>, entries: map<string, StoredPermit>, token: string, presented: Binding, at: nat)
    requires FreshTokens(history) && StoreMatches(history, entries)
    ensures (exists i: nat :: Usable(history, i, token, presented, at)) <==>
      token in entries && !entries[token].consumed && at < entries[token].expiresAt && entries[token].binding == presented
  {
    if token in entries {
      var i: nat :| IssuedAt(history, i, token) && EntryMatches(history, i, entries[token]);
      assert Usable(history, i, token, presented, at) <==>
        !entries[token].consumed && at < entries[token].expiresAt && entries[token].binding == presented;
    }
  }
}
