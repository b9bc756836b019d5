/**
 The stop-request mailbox of the local launcher: one canonical file name that
 publishers and supervisors fight over with link, rename and rm.

 Every file-system call is one atomic step of some process, and processes
 interleave freely.  A file is known by its inode, so that a marker keeps its
 identity while it moves between names.  `where` is bookkeeping: it records where
 each inode was put by the steps, and no step ever looks at it.
 */
module StopMailbox {
  import opened Wrappers

  datatype Topology = Topology(supervisorPid: nat, corePid: nat, runnerPid: nat, startedAt: string)

  /** A stop request; `requestedAt` is the instant its text denotes. */
  datatype Marker = Marker(topology: Topology, requestedAt: int)

  /** What a file holds, as far as the stop-request schema is concerned. */
  datatype Content = Malformed | Valid(marker: Marker)

  type Inode = nat
  type Pid = nat

  predicate SameTopology(left: Topology, right: Topology) {
    && left.supervisorPid == right.supervisorPid
    && left.corePid == right.corePid
    && left.runnerPid == right.runnerPid
    && left.startedAt == right.startedAt
  }

  predicate StopRequestMatchesTopology(marker: Marker, topology: Topology, now: int, maximumAgeMs: int) {
    && SameTopology(marker.topology, topology)
    && marker.requestedAt <= now
    && now - marker.requestedAt <= maximumAgeMs
  }

  /** Where a publish call stands; each constructor is the file-system call to be made next. */
  datatype PublishPc =
    | LinkingOwn
    | Renaming
    | Reading(claimed: Inode)
    | Relinking(claimed: Inode, existing: Marker)
    | Removing(claimed: Inode, parsed: Option<Marker>)
    | Rechecking
    | Deciding(current: Option<Content>)
    | CleaningUp(ok: bool)
    | Returned
    | Thrown

  /** A publish call is named by the inode of the temporary file it wrote. */
  datatype Publisher = Publisher(marker: Marker, pc: PublishPc)

  datatype ClaimPc =
    | ClaimReading
    | ClaimComparing(marker: Marker)
    | ClaimRemoving(state: Option<Topology>, result: bool)

  /** A claim whose rename succeeded; the claim file holds `inode`. */
  datatype Claimant = Claimant(inode: Inode, topology: Topology, now: int, maximumAgeMs: int, pc: ClaimPc)

  /** A claim that returned after taking a file. */
  datatype ClaimRecord = ClaimRecord(
    inode: Inode, topology: Topology, now: int, maximumAgeMs: int, state: Option<Topology>, result: bool)

  datatype Place =
    | AtCanonical
    | Unpublished            // only at the temporary name of its own publish call
    | Withdrawn              // the temporary name was removed and the file never published
    | Taken(call: Inode)     // renamed away by a publisher that has not relinked it yet
    | AtClaim(pid: Pid)      // renamed away by a supervisor that has not returned yet
    | Claimed(index: nat)    // used up by the claim with this index
    | Displaced(other: Inode) // could not be put back because `other` stood at the canonical name
    | Discarded              // thrown away by a publisher that could not parse it

  datatype State = State(
    canonical: Option<Inode>,
    content: map<Inode, Content>,
    publishers: map<Inode, Publisher>,
    claimants: map<Pid, Claimant>,
    runtimeState: Option<Topology>,
    claims: seq<ClaimRecord>,
    where: map<Inode, Place>)

  /** At the start nobody is active; the canonical name may hold anything. */
  ghost predicate Init(s: State) {
    && s.publishers == map[] && s.claimants == map[] && s.claims == []
    && match s.canonical
       case None => s.content == map[] && s.where == map[]
       case Some(i) => s.content.Keys == {i} && s.where == map[i := AtCanonical]
  }

  datatype Step =
    | BeginPublish(tmp: Inode, marker: Marker)
    | Publish(call: Inode, renameFails: bool)
    | BeginClaim(pid: Pid, topology: Topology, now: int, maximumAgeMs: int)
    | Claim(pid: Pid)
    | WriteRuntimeState(state: Option<Topology>)

  predicate Finished(pc: PublishPc) {
    pc.Returned? || pc.Thrown?
  }

  predicate Enabled(s: State, step: Step) {
    match step
    case BeginPublish(tmp, _) => tmp !in s.content
    case Publish(call, _) => call in s.publishers && !Finished(s.publishers[call].pc)
    case BeginClaim(pid, _, _, _) => pid !in s.claimants && s.canonical.Some?
    case Claim(pid) => pid in s.claimants
    case WriteRuntimeState(_) => true
  }

  /** Reading a name; every name a process holds has a file behind it, see `Inv`. */
  function Read(s: State, i: Inode): Content {
    if i in s.content then s.content[i] else Malformed
  }

  function Parse(content: Content): Option<Marker> {
    match content
    case Malformed => None
    case Valid(marker) => Some(marker)
  }

  /** The file-system call a publisher makes next, lines 77 to 111 of the source. */
  function ApplyPublish(s: State, call: Inode, renameFails: bool): State
    requires Enabled(s, Publish(call, renameFails))
  {
    var p := s.publishers[call];
    match p.pc
    case LinkingOwn =>
      if s.canonical.None? then
        s.(canonical := Some(call), where := s.where[call := AtCanonical],
           publishers := s.publishers[call := p.(pc := CleaningUp(true))])
      else
        s.(publishers := s.publishers[call := p.(pc := Renaming)])
    case Renaming =>
      if s.canonical.None? || renameFails then
        s.(publishers := s.publishers[call := p.(pc := LinkingOwn)])
      else
        s.(canonical := None, where := s.where[s.canonical.value := Taken(call)],
           publishers := s.publishers[call := p.(pc := Reading(s.canonical.value))])
    case Reading(i) =>
      (match Parse(Read(s, i))
       case None =>
         s.(where := s.where[i := Discarded], publishers := s.publishers[call := p.(pc := Removing(i, None))])
       case Some(m) =>
         s.(publishers := s.publishers[call := p.(pc := Relinking(i, m))]))
    case Relinking(i, m) =>
      if s.canonical.None? then
        s.(canonical := Some(i), where := s.where[i := AtCanonical],
           publishers := s.publishers[call := p.(pc := Removing(i, Some(m)))])
      else
        s.(where := s.where[i := Displaced(s.canonical.value)],
           publishers := s.publishers[call := p.(pc := Removing(i, Some(m)))])
    case Removing(i, parsed) =>
      var pc :=
        if parsed.None? then LinkingOwn
        else if SameTopology(parsed.value.topology, p.marker.topology) then Rechecking
        else CleaningUp(false);
      s.(publishers := s.publishers[call := p.(pc := pc)],
         where := if pc == CleaningUp(false) then s.where[call := Withdrawn] else s.where)
    case Rechecking =>
      var current := if s.canonical.None? then None else Some(Read(s, s.canonical.value));
      s.(publishers := s.publishers[call := p.(pc := Deciding(current))])
    case Deciding(current) =>
      if current.Some? && current.value.Valid? && SameTopology(current.value.marker.topology, p.marker.topology) then
        s.(publishers := s.publishers[call := p.(pc := CleaningUp(true))], where := s.where[call := Withdrawn])
      else
        s.(publishers := s.publishers[call := p.(pc := LinkingOwn)])
    case CleaningUp(ok) =>
      s.(publishers := s.publishers[call := p.(pc := if ok then Returned else Thrown)])
    case Returned => s
    case Thrown => s
  }

  /** The file-system call a supervisor makes next, lines 129 to 138 of the source. */
  function ApplyClaim(s: State, pid: Pid): State
    requires Enabled(s, Claim(pid))
  {
    var c := s.claimants[pid];
    match c.pc
    case ClaimReading =>
      var pc := match Parse(Read(s, c.inode))
        case None => ClaimRemoving(None, false)
        case Some(m) => ClaimComparing(m);
      s.(claimants := s.claimants[pid := c.(pc := pc)])
    case ClaimComparing(m) =>
      var result := s.runtimeState.Some? && SameTopology(s.runtimeState.value, c.topology)
                    && StopRequestMatchesTopology(m, c.topology, c.now, c.maximumAgeMs);
      s.(claimants := s.claimants[pid := c.(pc := ClaimRemoving(s.runtimeState, result))])
    case ClaimRemoving(state, result) =>
      s.(claimants := s.claimants - {pid},
         claims := s.claims + [ClaimRecord(c.inode, c.topology, c.now, c.maximumAgeMs, state, result)],
         where := s.where[c.inode := Claimed(|s.claims|)])
  }

  function Apply(s: State, step: Step): State
    requires Enabled(s, step)
  {
    match step
    case BeginPublish(tmp, marker) =>
      s.(content := s.content[tmp := Valid(marker)], where := s.where[tmp := Unpublished],
         publishers := s.publishers[tmp := Publisher(marker, LinkingOwn)])
    case Publish(call, renameFails) => ApplyPublish(s, call, renameFails)
    case BeginClaim(pid, topology, now, maximumAgeMs) =>
      s.(canonical := None, where := s.where[s.canonical.value := AtClaim(pid)],
         claimants := s.claimants[pid := Claimant(s.canonical.value, topology, now, maximumAgeMs, ClaimReading)])
    case Claim(pid) => ApplyClaim(s, pid)
    case WriteRuntimeState(state) => s.(runtimeState := state)
  }

  ghost predicate IsRun(run: seq<State>, steps: seq<Step>) {
    && |run| == |steps| + 1
    && Init(run[0])
    && forall n :: 0 <= n < |steps| ==> StepTaken(run, steps, n)
  }

  predicate StepTaken(run: seq<State>, steps: seq<Step>, n: nat)
    requires |run| == |steps| + 1 && n < |steps|
  {
    Enabled(run[n], steps[n]) && run[n + 1] == Apply(run[n], steps[n])
  }

  // ---------------------------------------------------------------- the invariant

  predicate Placed(s: State, i: Inode, place: Place) {
    i in s.where && s.where[i] == place
  }

  /** The call still owns its temporary file and has published nothing. */
  predicate OwnFilePending(pc: PublishPc) {
    !pc.CleaningUp? && !Finished(pc)
  }

  ghost predicate PublisherInv(s: State, call: Inode) {
    call in s.publishers &&
    var p := s.publishers[call];
    && call in s.content && s.content[call] == Valid(p.marker)
    && (OwnFilePending(p.pc) <==> Placed(s, call, Unpublished))
    && match p.pc {
         case Reading(i) => i in s.content && Placed(s, i, Taken(call))
         case Relinking(i, m) => i in s.content && Placed(s, i, Taken(call)) && s.content[i] == Valid(m)
         case Removing(i, parsed) => i in s.content && Parse(s.content[i]) == parsed
         case _ => true
       }
  }

  ghost predicate PlaceInv(s: State, i: Inode) {
    i in s.where && i in s.content &&
    match s.where[i]
    case AtCanonical => s.canonical == Some(i)
    case Unpublished => i in s.publishers && OwnFilePending(s.publishers[i].pc)
    case Withdrawn => i in s.publishers && !OwnFilePending(s.publishers[i].pc)
    case Taken(call) =>
      && call in s.publishers
      && (s.publishers[call].pc == Reading(i)
          || (s.publishers[call].pc.Relinking? && s.publishers[call].pc.claimed == i))
    case AtClaim(pid) => pid in s.claimants && s.claimants[pid].inode == i
    case Claimed(k) => k < |s.claims| && s.claims[k].inode == i
    case Displaced(other) => other in s.content && s.content[other].Valid? && other != i
    case Discarded => s.content[i].Malformed?
  }

  ghost predicate ClaimantInv(s: State, pid: Pid) {
    pid in s.claimants &&
    var c := s.claimants[pid];
    && c.inode in s.content && Placed(s, c.inode, AtClaim(pid))
    && match c.pc {
         case ClaimReading => true
         case ClaimComparing(m) => s.content[c.inode] == Valid(m)
         case ClaimRemoving(state, result) =>
           result ==> Justified(s, c.inode, c.topology, c.now, c.maximumAgeMs, state)
       }
  }

  /** What a true answer of a claim rests on. */
  predicate Justified(s: State, i: Inode, topology: Topology, now: int, maximumAgeMs: int, state: Option<Topology>) {
    && i in s.content && s.content[i].Valid?
    && StopRequestMatchesTopology(s.content[i].marker, topology, now, maximumAgeMs)
    && state.Some? && SameTopology(state.value, topology)
  }

  ghost predicate RecordInv(s: State, k: nat, r: ClaimRecord) {
    && Placed(s, r.inode, Claimed(k))
    && (r.result ==> Justified(s, r.inode, r.topology, r.now, r.maximumAgeMs, r.state))
  }

  ghost predicate NamesInv(s: State) {
    && s.where.Keys == s.content.Keys
    && (s.canonical.Some? ==> Placed(s, s.canonical.value, AtCanonical))
    // Only the file that stood there at the start can be malformed, and while it stands nothing has moved.
    && (s.canonical.Some? && Read(s, s.canonical.value).Malformed? ==>
          && (forall i :: i in s.where && i != s.canonical.value ==> s.where[i] == Unpublished)
          && (forall call :: call in s.publishers ==>
                s.publishers[call].pc == LinkingOwn || s.publishers[call].pc == Renaming))
  }

  ghost predicate PublishersInv(s: State) {
    forall call :: call in s.publishers ==> PublisherInv(s, call)
  }

  ghost predicate PlacesInv(s: State) {
    forall i :: i in s.content ==> PlaceInv(s, i)
  }

  ghost predicate ClaimsInv(s: State) {
    && (forall pid :: pid in s.claimants ==> ClaimantInv(s, pid))
    && (forall k :: 0 <= k < |s.claims| ==> RecordInv(s, k, s.claims[k]))
  }

  ghost predicate Inv(s: State) {
    NamesInv(s) && PublishersInv(s) && PlacesInv(s) && ClaimsInv(s)
  }

  // ---------------------------------------------------------------- each step keeps the invariant

  /** A publisher's step concerns its own record and at most one file, which nobody else answers for. */
  ghost predicate Local(s: State, s': State, call: Inode, x: Inode) {
    && call in s.publishers && call in s'.publishers && x in s.content && x in s.where && x in s'.where
    && s' == s.(canonical := s'.canonical, publishers := s.publishers[call := s'.publishers[call]],
                where := s.where[x := s'.where[x]])
    && s'.publishers[call].marker == s.publishers[call].marker
    && (s'.where[x] != s.where[x] ==>
          || s.where[x] == AtCanonical || s.where[x] == Taken(call)
          || (x == call && s.where[x] == Unpublished))
    && s'.canonical ==
         (if s'.where[x] == AtCanonical then Some(x) else if s.where[x] == AtCanonical then None else s.canonical)
    && (s'.where[x] == AtCanonical ==> s.canonical == None || s.canonical == Some(x))
    && PublisherInv(s', call)
    && PlaceInv(s', x) && PlaceInv(s', call)
    && (forall i :: i in s'.where && s'.where[i] == Taken(call) ==> PlaceInv(s', i))
    && NamesInv(s')
  }

  lemma {:induction false} LocalPublishers(s: State, s': State, call: Inode, x: Inode)
    requires Inv(s) && Local(s, s', call, x)
    ensures PublishersInv(s')
  {
    forall c | c in s'.publishers ensures PublisherInv(s', c) {
      assert PublisherInv(s, c);
    }
  }

  lemma {:induction false} LocalPlaces(s: State, s': State, call: Inode, x: Inode)
    requires Inv(s) && Local(s, s', call, x)
    ensures PlacesInv(s')
  {
    forall i | i in s'.content ensures PlaceInv(s', i) {
      assert PlaceInv(s, i) && PlaceInv(s, x);
    }
  }

  lemma {:induction false} LocalClaims(s: State, s': State, call: Inode, x: Inode)
    requires Inv(s) && Local(s, s', call, x)
    ensures ClaimsInv(s')
  {
    forall pid | pid in s'.claimants ensures ClaimantInv(s', pid) {
      assert ClaimantInv(s, pid);
    }
  }

  /** The file a publisher's next call moves, or its own when it moves none. */
  function Moved(s: State, call: Inode): Inode
    requires call in s.publishers
  {
    match s.publishers[call].pc
    case Renaming => if s.canonical.Some? then s.canonical.value else call
    case Reading(i) => i
    case Relinking(i, _) => i
    case _ => call
  }

  lemma {:induction false} OwnFileIsLocal(s: State, call: Inode, renameFails: bool)
    requires Inv(s) && Enabled(s, Publish(call, renameFails))
    requires s.publishers[call].pc.LinkingOwn? || s.publishers[call].pc.Renaming?
    ensures Local(s, ApplyPublish(s, call, renameFails), call, Moved(s, call))
  {
    assert PublisherInv(s, call) && PlaceInv(s, call);
    TakenFiles(s, call, renameFails);
  }

  lemma {:induction false} ReadingIsLocal(s: State, call: Inode, renameFails: bool)
    requires Inv(s) && Enabled(s, Publish(call, renameFails)) && s.publishers[call].pc.Reading?
    ensures Local(s, ApplyPublish(s, call, renameFails), call, Moved(s, call))
  {
    assert PublisherInv(s, call) && PlaceInv(s, call) && PlaceInv(s, Moved(s, call));
    TakenFiles(s, call, renameFails);
  }

  lemma {:induction false} RelinkingIsLocal(s: State, call: Inode, renameFails: bool)
    requires Inv(s) && Enabled(s, Publish(call, renameFails)) && s.publishers[call].pc.Relinking?
    ensures Local(s, ApplyPublish(s, call, renameFails), call, Moved(s, call))
  {
    assert PublisherInv(s, call) && PlaceInv(s, call) && PlaceInv(s, Moved(s, call));
    TakenFiles(s, call, renameFails);
  }

  lemma {:induction false} ClosingIsLocal(s: State, call: Inode, renameFails: bool)
    requires Inv(s) && Enabled(s, Publish(call, renameFails))
    requires var pc := s.publishers[call].pc; pc.Rechecking? || pc.Deciding?
    ensures Local(s, ApplyPublish(s, call, renameFails), call, Moved(s, call))
  {
    assert PublisherInv(s, call) && PlaceInv(s, call);
    TakenFiles(s, call, renameFails);
  }

  lemma {:induction false} CleaningUpIsLocal(s: State, call: Inode, renameFails: bool)
    requires Inv(s) && Enabled(s, Publish(call, renameFails)) && s.publishers[call].pc.CleaningUp?
    ensures Local(s, ApplyPublish(s, call, renameFails), call, Moved(s, call))
  {
    assert PublisherInv(s, call) && PlaceInv(s, call);
    TakenFiles(s, call, renameFails);
  }

  lemma {:induction false} RemovingIsLocal(s: State, call: Inode, renameFails: bool)
    requires Inv(s) && Enabled(s, Publish(call, renameFails)) && s.publishers[call].pc.Removing?
    ensures Local(s, ApplyPublish(s, call, renameFails), call, Moved(s, call))
  {
    assert PublisherInv(s, call) && PlaceInv(s, call);
    TakenFiles(s, call, renameFails);
  }

  /** A publisher has at most one file in its hands, the one its program counter names. */
  lemma {:induction false} TakenFiles(s: State, call: Inode, renameFails: bool)
    requires Inv(s) && Enabled(s, Publish(call, renameFails))
    ensures var s' := ApplyPublish(s, call, renameFails);
      forall i :: i in s'.where && s'.where[i] == Taken(call) ==> PlaceInv(s', i)
  {
    var s' := ApplyPublish(s, call, renameFails);
    forall i | i in s'.where && s'.where[i] == Taken(call) ensures PlaceInv(s', i) {
      assert PublisherInv(s, call) && PlaceInv(s, i);
    }
  }

  lemma {:induction false} PublishKeepsInv(s: State, call: Inode, renameFails: bool)
    requires Inv(s) && Enabled(s, Publish(call, renameFails))
    ensures Inv(ApplyPublish(s, call, renameFails))
  {
    var s', x := ApplyPublish(s, call, renameFails), Moved(s, call);
    match s.publishers[call].pc {
      case LinkingOwn => OwnFileIsLocal(s, call, renameFails);
      case Renaming => OwnFileIsLocal(s, call, renameFails);
      case Reading(_) => ReadingIsLocal(s, call, renameFails);
      case Relinking(_, _) => RelinkingIsLocal(s, call, renameFails);
      case Removing(_, _) => RemovingIsLocal(s, call, renameFails);
      case CleaningUp(_) => CleaningUpIsLocal(s, call, renameFails);
      case _ => ClosingIsLocal(s, call, renameFails);
    }
    LocalPublishers(s, s', call, x);
    LocalPlaces(s, s', call, x);
    LocalClaims(s, s', call, x);
  }

  lemma {:induction false} ClaimKeepsFiles(s: State, pid: Pid)
    requires Inv(s) && Enabled(s, Claim(pid))
    ensures NamesInv(ApplyClaim(s, pid)) && PublishersInv(ApplyClaim(s, pid)) && PlacesInv(ApplyClaim(s, pid))
  {
    var s' := ApplyClaim(s, pid);
    assert ClaimantInv(s, pid);
    forall c | c in s'.publishers ensures PublisherInv(s', c) {
      assert PublisherInv(s, c);
    }
    forall i | i in s'.content ensures PlaceInv(s', i) {
      assert PlaceInv(s, i);
    }
  }

  lemma {:induction false} ClaimKeepsInv(s: State, pid: Pid)
    requires Inv(s) && Enabled(s, Claim(pid))
    ensures Inv(ApplyClaim(s, pid))
  {
    ClaimKeepsFiles(s, pid);
    var s' := ApplyClaim(s, pid);
    assert ClaimantInv(s, pid);
    forall p | p in s'.claimants ensures ClaimantInv(s', p) {
      assert ClaimantInv(s, p);
    }
  }

  lemma {:induction false} BeginPublishKeepsInv(s: State, tmp: Inode, marker: Marker)
    requires Inv(s) && Enabled(s, BeginPublish(tmp, marker))
    ensures Inv(Apply(s, BeginPublish(tmp, marker)))
  {
    var s' := Apply(s, BeginPublish(tmp, marker));
    assert PublisherInv(s', tmp) && PlaceInv(s', tmp);
    forall c | c in s'.publishers && c != tmp ensures PublisherInv(s', c) {
      assert PublisherInv(s, c);
    }
    forall i | i in s'.content && i != tmp ensures PlaceInv(s', i) {
      assert PlaceInv(s, i);
    }
    forall pid | pid in s'.claimants ensures ClaimantInv(s', pid) {
      assert ClaimantInv(s, pid);
    }
  }

  lemma {:induction false} BeginClaimKeepsInv(s: State, step: Step)
    requires Inv(s) && step.BeginClaim? && Enabled(s, step)
    ensures Inv(Apply(s, step))
  {
    var s', x := Apply(s, step), s.canonical.value;
    assert PlaceInv(s, x) && PlaceInv(s', x);
    forall c | c in s'.publishers ensures PublisherInv(s', c) {
      assert PublisherInv(s, c);
    }
    forall i | i in s'.content && i != x ensures PlaceInv(s', i) {
      assert PlaceInv(s, i);
    }
    forall pid | pid in s'.claimants && pid != step.pid ensures ClaimantInv(s', pid) {
      assert ClaimantInv(s, pid);
    }
  }

  lemma {:induction false} StepKeepsInv(s: State, step: Step)
    requires Inv(s) && Enabled(s, step)
    ensures Inv(Apply(s, step))
  {
    match step
    case BeginPublish(tmp, marker) => BeginPublishKeepsInv(s, tmp, marker);
    case Publish(call, renameFails) => PublishKeepsInv(s, call, renameFails);
    case BeginClaim(_, _, _, _) => BeginClaimKeepsInv(s, step);
    case Claim(pid) => ClaimKeepsInv(s, pid);
    case WriteRuntimeState(_) => WriteRuntimeStateKeepsInv(s, step);
  }

  lemma {:induction false} WriteRuntimeStateKeepsInv(s: State, step: Step)
    requires Inv(s) && step.WriteRuntimeState?
    ensures Inv(Apply(s, step))
  {
    var s' := Apply(s, step);
    assert forall c :: c in s'.publishers ==> PublisherInv(s, c) && PublisherInv(s', c);
    assert forall i :: i in s'.content ==> PlaceInv(s, i) && PlaceInv(s', i);
    assert forall pid :: pid in s'.claimants ==> ClaimantInv(s, pid) && ClaimantInv(s', pid);
  }

  lemma {:induction false} RunKeepsInv(run: seq<State>, steps: seq<Step>, n: nat)
    requires IsRun(run, steps) && n < |run|
    ensures Inv(run[n])
  {
    if n > 0 {
      RunKeepsInv(run, steps, n - 1);
      assert StepTaken(run, steps, n - 1);
      StepKeepsInv(run[n - 1], steps[n - 1]);
    }
  }

  // ---------------------------------------------------------------- what the mailbox promises

  /** However publishers and supervisors interleave, no two claims ever take the same marker. */
  lemma {:induction false} MarkerIsClaimedAtMostOnce(run: seq<State>, steps: seq<Step>, n: nat, j: nat, k: nat)
    requires IsRun(run, steps) && n < |run| && j < k < |run[n].claims|
    ensures run[n].claims[j].inode != run[n].claims[k].inode
  {
    RunKeepsInv(run, steps, n);
    assert RecordInv(run[n], j, run[n].claims[j]) && RecordInv(run[n], k, run[n].claims[k]);
  }

  /** A claim of this file stands before its comparison with the state on record. */
  predicate Compares(s: State, pid: Pid, i: Inode, topology: Topology) {
    pid in s.claimants && s.claimants[pid].inode == i && s.claimants[pid].topology == topology && s.claimants[pid].pc.ClaimComparing?
  }

  /** During the claim of this file, before run[n], this state was on record. */
  ghost predicate WasOnRecord(run: seq<State>, n: nat, i: Inode, topology: Topology, state: Option<Topology>) {
    exists m: nat, pid :: m < n < |run| && Compares(run[m], pid, i, topology) && run[m].runtimeState == state
  }

  /** A true answer comes out of a comparison, and a record out of an answer. */
  lemma {:induction false} TrueAnswerWasCompared(s: State, step: Step)
    requires Inv(s) && Enabled(s, step)
    ensures var s' := Apply(s, step);
      && (forall pid :: pid in s'.claimants && s'.claimants[pid].pc.ClaimRemoving? && s'.claimants[pid].pc.result ==>
            (pid in s.claimants && s.claimants[pid] == s'.claimants[pid])
            || (Compares(s, pid, s'.claimants[pid].inode, s'.claimants[pid].topology) && s'.claimants[pid].pc.state == s.runtimeState))
      && (s'.claims == s.claims
          || (step.Claim? && step.pid in s.claimants
              && var c := s.claimants[step.pid];
                 c.pc.ClaimRemoving?
                 && s'.claims == s.claims + [ClaimRecord(c.inode, c.topology, c.now, c.maximumAgeMs, c.pc.state, c.pc.result)]))
  {
    if step.Publish? {
      assert ApplyPublish(s, step.call, step.renameFails).claimants == s.claimants;
    }
  }

  lemma {:induction false} StillOnRecord(run: seq<State>, n: nat, i: Inode, topology: Topology, state: Option<Topology>)
    requires n + 1 < |run| && WasOnRecord(run, n, i, topology, state)
    ensures WasOnRecord(run, n + 1, i, topology, state)
  {
    var m: nat, pid :| m < n && Compares(run[m], pid, i, topology) && run[m].runtimeState == state;
    assert m < n + 1;
  }

  lemma {:induction false} TrueAnswersSawTheirState(run: seq<State>, steps: seq<Step>, n: nat)
    requires IsRun(run, steps) && n < |run|
    ensures forall pid :: pid in run[n].claimants && run[n].claimants[pid].pc.ClaimRemoving? && run[n].claimants[pid].pc.result ==>
      WasOnRecord(run, n, run[n].claimants[pid].inode, run[n].claimants[pid].topology, run[n].claimants[pid].pc.state)
    ensures forall k :: 0 <= k < |run[n].claims| && run[n].claims[k].result ==>
      WasOnRecord(run, n, run[n].claims[k].inode, run[n].claims[k].topology, run[n].claims[k].state)
  {
    if n > 0 {
      var s, s' := run[n - 1], run[n];
      TrueAnswersSawTheirState(run, steps, n - 1);
      RunKeepsInv(run, steps, n - 1);
      assert StepTaken(run, steps, n - 1);
      TrueAnswerWasCompared(s, steps[n - 1]);
      forall pid | pid in s'.claimants && s'.claimants[pid].pc.ClaimRemoving? && s'.claimants[pid].pc.result
        ensures WasOnRecord(run, n, s'.claimants[pid].inode, s'.claimants[pid].topology, s'.claimants[pid].pc.state)
      {
        var c := s'.claimants[pid];
        if pid in s.claimants && s.claimants[pid] == c {
          StillOnRecord(run, n - 1, c.inode, c.topology, c.pc.state);
        } else {
          assert Compares(run[n - 1], pid, c.inode, c.topology);
        }
      }
      forall k | 0 <= k < |s'.claims| && s'.claims[k].result
        ensures WasOnRecord(run, n, s'.claims[k].inode, s'.claims[k].topology, s'.claims[k].state)
      {
        StillOnRecord(run, n - 1, s'.claims[k].inode, s'.claims[k].topology, s'.claims[k].state);
      }
    }
  }

  /** A supervisor stops only for a fresh marker of its own topology, and that topology was on record at an instant of the claim. */
  lemma {:induction false} TrueClaimIsJustified(run: seq<State>, steps: seq<Step>, n: nat, k: nat)
    requires IsRun(run, steps) && n < |run| && k < |run[n].claims| && run[n].claims[k].result
    ensures var r := run[n].claims[k];
      Justified(run[n], r.inode, r.topology, r.now, r.maximumAgeMs, r.state) && WasOnRecord(run, n, r.inode, r.topology, r.state)
    ensures var i := run[n].claims[k].inode;
      run[0].canonical == Some(i) ||
      (i in run[n].publishers && run[n].content[i] == Valid(run[n].publishers[i].marker))
  {
    RunKeepsInv(run, steps, n);
    assert RecordInv(run[n], k, run[n].claims[k]);
    FilesComeFromCalls(run, steps, n);
    TrueAnswersSawTheirState(run, steps, n);
    if run[n].claims[k].inode in run[n].publishers {
      assert PublisherInv(run[n], run[n].claims[k].inode);
    }
  }

  lemma {:induction false} FilesComeFromCalls(run: seq<State>, steps: seq<Step>, n: nat)
    requires IsRun(run, steps) && n < |run|
    ensures run[n].content.Keys == run[0].content.Keys + run[n].publishers.Keys
  {
    if n > 0 {
      FilesComeFromCalls(run, steps, n - 1);
      assert StepTaken(run, steps, n - 1);
      StepBringsFile(run[n - 1], steps[n - 1]);
    }
  }

  /** Only the beginning of a publish call brings a new file, and it brings the call with it. */
  lemma {:induction false} StepBringsFile(s: State, step: Step)
    requires Enabled(s, step)
    ensures var added := if step.BeginPublish? then {step.tmp} else {};
      && Apply(s, step).content.Keys == s.content.Keys + added
      && Apply(s, step).publishers.Keys == s.publishers.Keys + added
  {
    match step {
      case Publish(call, renameFails) => PublishBringsNothing(s, call, renameFails);
      case BeginPublish(tmp, marker) =>
        assert Apply(s, step).content == s.content[tmp := Valid(marker)];
      case _ =>
    }
  }

  lemma {:induction false} PublishBringsNothing(s: State, call: Inode, renameFails: bool)
    requires Enabled(s, Publish(call, renameFails))
    ensures ApplyPublish(s, call, renameFails).content == s.content
    ensures ApplyPublish(s, call, renameFails).publishers.Keys == s.publishers.Keys
  {
  }

  /**
   A valid marker is never thrown away.  It stands at the canonical name, or some call
   still in progress has it in hand and will put it back or use it, or exactly one claim
   used it up, or it met another valid marker when it was to be put back, or its own call
   never published it.
   */
  lemma {:induction false} ValidMarkerIsNeverLost(run: seq<State>, steps: seq<Step>, n: nat, i: Inode)
    requires IsRun(run, steps) && n < |run| && i in run[n].content && run[n].content[i].Valid?
    ensures var s := run[n];
      || s.canonical == Some(i)
      || (exists call :: call in s.publishers && (s.publishers[call].pc == Reading(i)
            || s.publishers[call].pc == Relinking(i, s.content[i].marker)))
      || (exists pid :: pid in s.claimants && s.claimants[pid].inode == i)
      || (exists k :: 0 <= k < |s.claims| && s.claims[k].inode == i)
      || (i in s.where && s.where[i].Displaced? && Read(s, s.where[i].other).Valid? && s.where[i].other != i)
      || (i in s.publishers && i in s.where && (s.where[i].Unpublished? || s.where[i].Withdrawn?))
  {
    RunKeepsInv(run, steps, n);
    var s := run[n];
    assert PlaceInv(s, i);
    if s.where[i].Taken? {
      assert PublisherInv(s, s.where[i].call);
    }
  }

  /** The step that lets go of a taken marker puts it back, unless a valid marker stands there at that instant. */
  lemma {:induction false} TakenMarkerIsPutBack(run: seq<State>, steps: seq<Step>, n: nat, i: Inode, call: Inode)
    requires IsRun(run, steps) && n < |steps|
    requires Placed(run[n], i, Taken(call)) && !Placed(run[n + 1], i, Taken(call))
    requires Read(run[n], i).Valid?
    ensures
      || run[n + 1].canonical == Some(i)
      || (run[n].canonical.Some? && run[n].canonical.value != i && Read(run[n], run[n].canonical.value).Valid?)
  {
    assert StepTaken(run, steps, n);
    RunKeepsInv(run, steps, n);
    RunKeepsInv(run, steps, n + 1);
    var s := run[n];
    assert PlaceInv(s, i) && PublisherInv(s, call) && PlaceInv(run[n + 1], i);
    if steps[n].Publish? {
      assert PublisherInv(s, steps[n].call);
    }
  }

  // ---------------------------------------------------------------- what a publish call saw

  predicate Stood(s: State, marker: Marker, same: bool) {
    && s.canonical.Some? && Read(s, s.canonical.value).Valid?
    && SameTopology(Read(s, s.canonical.value).marker.topology, marker.topology) == same
  }

  /** At some instant of the call, up to run[n], a marker of its topology (or of another one) stood at the canonical name. */
  ghost predicate Saw(run: seq<State>, n: nat, call: Inode, same: bool) {
    exists k :: 0 <= k <= n < |run| && call in run[k].publishers && Stood(run[k], run[k].publishers[call].marker, same)
  }

  /** The file the call renamed away stood at the canonical name at some instant of the call. */
  ghost predicate SawFile(run: seq<State>, n: nat, call: Inode, i: Inode) {
    exists k :: 0 <= k <= n < |run| && call in run[k].publishers && run[k].canonical == Some(i)
  }

  ghost predicate Witnessed(run: seq<State>, n: nat, call: Inode)
    requires n < |run|
  {
    call in run[n].publishers ==>
      var p := run[n].publishers[call];
      match p.pc
      case Reading(i) => SawFile(run, n, call, i)
      case Relinking(i, _) => SawFile(run, n, call, i)
      case Removing(i, _) => SawFile(run, n, call, i)
      case Deciding(Some(Valid(m))) => SameTopology(m.topology, p.marker.topology) ==> Saw(run, n, call, true)
      case CleaningUp(ok) => Saw(run, n, call, ok)
      case Returned => Saw(run, n, call, true)
      case Thrown => Saw(run, n, call, false)
      case _ => true
  }

  /** Files keep their content and calls keep their marker. */
  ghost predicate Carried(s: State, s': State) {
    && (forall i :: i in s.content ==> i in s'.content && s'.content[i] == s.content[i])
    && (forall c :: c in s.publishers ==> c in s'.publishers && s'.publishers[c].marker == s.publishers[c].marker)
  }

  lemma {:induction false} CarriedOn(s: State, s': State, s'': State)
    requires Carried(s, s') && Carried(s', s'')
    ensures Carried(s, s'')
  {
  }

  lemma {:induction false} NothingIsRewritten(run: seq<State>, steps: seq<Step>, k: nat, n: nat)
    requires IsRun(run, steps) && k <= n < |run|
    ensures Carried(run[k], run[n])
  {
    if k < n {
      NothingIsRewritten(run, steps, k, n - 1);
      RunCarriesOn(run, steps, n - 1);
      CarriedOn(run[k], run[n - 1], run[n]);
    }
  }

  lemma {:induction false} RunCarriesOn(run: seq<State>, steps: seq<Step>, n: nat)
    requires IsRun(run, steps) && n < |steps|
    ensures Carried(run[n], run[n + 1])
  {
    assert StepTaken(run, steps, n);
    RunKeepsInv(run, steps, n);
    StepRewritesNothing(run[n], steps[n]);
  }

  lemma {:induction false} StepRewritesNothing(s: State, step: Step)
    requires Inv(s) && Enabled(s, step)
    ensures Carried(s, Apply(s, step))
  {
    forall c | c in s.publishers
      ensures c in Apply(s, step).publishers && Apply(s, step).publishers[c].marker == s.publishers[c].marker
    {
      if !(step.Publish? && step.call == c) {
        OthersLeaveTheCallAlone(s, step, c);
      }
    }
  }

  /** Having seen a valid file of some topology is having seen a marker of that topology. */
  lemma {:induction false} FileIsMarker(run: seq<State>, steps: seq<Step>, n: nat, call: Inode, i: Inode)
    requires IsRun(run, steps) && n < |run| && SawFile(run, n, call, i)
    requires i in run[n].content && run[n].content[i].Valid? && call in run[n].publishers
    ensures Saw(run, n, call, SameTopology(run[n].content[i].marker.topology, run[n].publishers[call].marker.topology))
  {
    var k :| 0 <= k <= n < |run| && call in run[k].publishers && run[k].canonical == Some(i);
    NothingIsRewritten(run, steps, k, n);
    RunKeepsInv(run, steps, k);
    assert Stood(run[k], run[k].publishers[call].marker,
        SameTopology(run[n].content[i].marker.topology, run[n].publishers[call].marker.topology));
  }

  lemma {:induction false} StillSaw(run: seq<State>, n: nat, call: Inode)
    requires 0 < n < |run|
    ensures forall same :: Saw(run, n - 1, call, same) ==> Saw(run, n, call, same)
    ensures forall i: Inode :: SawFile(run, n - 1, call, i) ==> SawFile(run, n, call, i)
  {
    forall same | Saw(run, n - 1, call, same) ensures Saw(run, n, call, same) {
      var k :| 0 <= k <= n - 1 && call in run[k].publishers && Stood(run[k], run[k].publishers[call].marker, same);
      assert 0 <= k <= n;
    }
    forall i: Inode | SawFile(run, n - 1, call, i) ensures SawFile(run, n, call, i) {
      var k :| 0 <= k <= n - 1 && call in run[k].publishers && run[k].canonical == Some(i);
      assert 0 <= k <= n;
    }
  }

  lemma {:induction false} CallsSawTheirWitness(run: seq<State>, steps: seq<Step>, n: nat, call: Inode)
    requires IsRun(run, steps) && n < |run|
    ensures Witnessed(run, n, call)
  {
    assert n > 0 ==> StepTaken(run, steps, n - 1);
    if n > 0 && call in run[n - 1].publishers {
      CallsSawTheirWitness(run, steps, n - 1, call);
      RunKeepsInv(run, steps, n - 1);
      if steps[n - 1].Publish? && steps[n - 1].call == call {
        OwnStepWitnessed(run, steps, n, call);
      } else {
        OthersLeaveTheCallAlone(run[n - 1], steps[n - 1], call);
        UntouchedStaysWitnessed(run, n, call);
      }
    } else if n > 0 && call in run[n].publishers {
      NewCallLinksFirst(run[n - 1], steps[n - 1], call);
    }
  }

  lemma {:induction false} NewCallLinksFirst(s: State, step: Step, call: Inode)
    requires Enabled(s, step) && call !in s.publishers && call in Apply(s, step).publishers
    ensures Apply(s, step).publishers[call].pc == LinkingOwn
  {
    StepBringsFile(s, step);
  }

  lemma {:induction false} UntouchedStaysWitnessed(run: seq<State>, n: nat, call: Inode)
    requires 0 < n < |run| && call in run[n - 1].publishers && call in run[n].publishers
    requires run[n].publishers[call] == run[n - 1].publishers[call] && Witnessed(run, n - 1, call)
    ensures Witnessed(run, n, call)
  {
    StillSaw(run, n, call);
  }

  lemma {:induction false} OthersLeaveTheCallAlone(s: State, step: Step, call: Inode)
    requires Inv(s) && Enabled(s, step) && call in s.publishers && !(step.Publish? && step.call == call)
    ensures call in Apply(s, step).publishers && Apply(s, step).publishers[call] == s.publishers[call]
  {
    assert PublisherInv(s, call);
  }

  lemma {:induction false} OwnStepWitnessed(run: seq<State>, steps: seq<Step>, n: nat, call: Inode)
    requires IsRun(run, steps) && 0 < n < |run| && call in run[n - 1].publishers
    requires steps[n - 1].Publish? && steps[n - 1].call == call
    requires Inv(run[n - 1]) && Witnessed(run, n - 1, call)
    ensures Witnessed(run, n, call)
  {
    StillSaw(run, n, call);
    assert StepTaken(run, steps, n - 1);
    var s, s' := run[n - 1], run[n];
    var p := s.publishers[call];
    assert PublisherInv(s, call);
    match p.pc
    case LinkingOwn =>
      if s.canonical.None? {
        assert Stood(s', s'.publishers[call].marker, true);
      }
    case Renaming =>
      if s'.publishers[call].pc.Reading? {
        assert s.canonical == Some(s'.publishers[call].pc.claimed);
        assert SawFile(run, n - 1, call, s'.publishers[call].pc.claimed);
      }
    case Removing(i, parsed) =>
      if parsed.Some? {
        FileIsMarker(run, steps, n - 1, call, i);
      }
    case Rechecking =>
      var current := s'.publishers[call].pc.current;
      if current.Some? && current.value.Valid? && SameTopology(current.value.marker.topology, p.marker.topology) {
        assert Stood(s, p.marker, true);
        assert Saw(run, n - 1, call, true);
      }
    case _ =>
  }

  /** `publishStopRequest` returns only if a marker of its topology stood at the canonical name during the call. */
  lemma {:induction false} ReturningCallSawItsTopology(run: seq<State>, steps: seq<Step>, n: nat, call: Inode)
    requires IsRun(run, steps) && n < |run| && call in run[n].publishers && run[n].publishers[call].pc.Returned?
    ensures Saw(run, n, call, true)
  {
    CallsSawTheirWitness(run, steps, n, call);
  }

  /** It refuses only if a marker of a different topology stood there during the call. */
  lemma {:induction false} RefusingCallSawAnotherTopology(run: seq<State>, steps: seq<Step>, n: nat, call: Inode)
    requires IsRun(run, steps) && n < |run| && call in run[n].publishers && run[n].publishers[call].pc.Thrown?
    ensures Saw(run, n, call, false)
  {
    CallsSawTheirWitness(run, steps, n, call);
  }
}
