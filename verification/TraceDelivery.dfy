/**
 Trace events are numbered and spooled before they are sent, and deleted from the spool only
 when Core has confirmed them.
 */
module TraceDelivery {
  import opened Wrappers
  import opened CoreEvidence
  import opened RunnerSpool

  function Max(a: nat, b: nat): nat {
    if a < b then b else a
  }

  // ---------------------------------------------------------------- the delivery invariant

  /**
   `recorded` are the events whose append succeeded.  Core has a prefix of them, the spool has the
   rest and possibly some that Core has already.
   */
  ghost predicate Delivery(recorded: seq<TraceEvent>, runId: string, spooled: seq<TraceEvent>, log: seq<TraceEvent>) {
    && Numbered(recorded, runId)
    && log <= recorded
    && |spooled| <= |recorded|
    && spooled == recorded[|recorded| - |spooled|..]
    && |recorded| <= |log| + |spooled|
  }

  /** The events a pump at `cursor` would send next. */
  function NextBatch(spooled: seq<TraceEvent>, cursor: nat, limit: BatchLimit): seq<TraceEvent> {
    Window(EventsFrom(spooled, cursor), limit, 0, 0)
  }

  lemma {:induction false} EventsFromSuffix(recorded: seq<TraceEvent>, runId: string, d: nat, from: nat)
    requires Numbered(recorded, runId) && d <= |recorded|
    ensures EventsFrom(recorded[d..], from)
         == if from <= d then recorded[d..] else if from <= |recorded| then recorded[from - 1..] else []
    decreases |recorded| - d
  {
    if d < |recorded| {
      EventsFromSuffix(recorded, runId, d + 1, from);
      assert recorded[d..][1..] == recorded[d + 1..];
    }
  }

  lemma {:induction false} InsertAtEnd(events: seq<TraceEvent>, event: TraceEvent)
    requires forall i :: 0 <= i < |events| ==> events[i].sequenceNumber < event.sequenceNumber
    ensures InsertEvent(events, event) == events + [event]
  {
    if events != [] {
      InsertAtEnd(events[1..], event);
    }
  }

  /** Core's answer to the first event of a stretch: a repetition, the next event, or a refusal. */
  lemma {:induction false} IngestStep(
      recorded: seq<TraceEvent>, runId: string, n: nat, acknowledged: set<Ref>, a: nat, b: nat, next: nat)
    requires Numbered(recorded, runId) && n <= |recorded| && a < b <= |recorded| && a <= n
    ensures IngestAll(recorded[..n], acknowledged, recorded[a..b], next) ==
      if !(recorded[a].refs <= acknowledged) then (recorded[..n], Err(ArtifactUnacknowledged))
      else if a < n then IngestAll(recorded[..n], acknowledged, recorded[a + 1..b], n + 1)
      else IngestAll(recorded[..n + 1], acknowledged, recorded[a + 1..b], n + 2)
  {
    var batch := recorded[a..b];
    assert batch[0] == recorded[a] && batch[1..] == recorded[a + 1..b];
    EventAtNumber(recorded[..n], 1, a + 1);
    if a == n {
      assert recorded[..n] + [recorded[a]] == recorded[..n + 1];
    }
  }

  /**
   Core's answer to any stretch of the recorded events that starts no later than its log ends:
   it has the recorded events up to the end of the stretch, or up to the first event that refers
   to an artifact it does not hold.
   */
  lemma {:induction false} IngestExtendsPrefix(
      recorded: seq<TraceEvent>, runId: string, n: nat, acknowledged: set<Ref>, a: nat, b: nat, next: nat) returns (m: nat)
    requires Numbered(recorded, runId) && n <= |recorded| && a <= b <= |recorded| && a <= n
    ensures n <= m <= (if n < b then b else n) && forall i :: n <= i < m ==> recorded[i].refs <= acknowledged
    ensures var (log, r) := IngestAll(recorded[..n], acknowledged, recorded[a..b], next);
      && log == recorded[..m]
      && (r.Ok? <==> forall i :: a <= i < b ==> recorded[i].refs <= acknowledged)
      && (r.Ok? ==> m == (if n < b then b else n) && r.value == if a < b then m + 1 else next)
      && (r.Err? ==> r.error == ArtifactUnacknowledged)
    decreases b - a
  {
    m := n;
    if a < b {
      IngestStep(recorded, runId, n, acknowledged, a, b, next);
      if recorded[a].refs <= acknowledged {
        if a < n {
          m := IngestExtendsPrefix(recorded, runId, n, acknowledged, a + 1, b, n + 1);
        } else {
          m := IngestExtendsPrefix(recorded, runId, n + 1, acknowledged, a + 1, b, n + 2);
        }
      }
    } else {
      assert recorded[a..b] == [];
    }
  }

  /** The next batch is a stretch of the recorded events that starts no later than Core's log ends. */
  lemma {:induction false} NextBatchIsStretch(
      recorded: seq<TraceEvent>, runId: string, spooled: seq<TraceEvent>, log: seq<TraceEvent>, cursor: nat, limit: BatchLimit)
      returns (a: nat, b: nat)
    requires Delivery(recorded, runId, spooled, log) && cursor <= |log| + 1
    ensures a <= b <= |recorded| && a <= |log| && cursor <= a + 1
    ensures NextBatch(spooled, cursor, limit) == recorded[a..b]
  {
    var d := |recorded| - |spooled|;
    EventsFromSuffix(recorded, runId, d, cursor);
    a := if cursor <= d then d else if cursor <= |recorded| then cursor - 1 else |recorded|;
    var rows := EventsFrom(spooled, cursor);
    assert rows == recorded[a..];
    WindowIsPrefix(rows, limit, 0, 0);
    b := a + |NextBatch(spooled, cursor, limit)|;
    assert NextBatch(spooled, cursor, limit) == recorded[a..b];
  }

  /** Core's log grew along the recorded events, by events whose references it holds. */
  ghost predicate Grew(recorded: seq<TraceEvent>, before: seq<TraceEvent>, after: seq<TraceEvent>, acknowledged: set<Ref>) {
    && before <= after <= recorded
    && forall i :: |before| <= i < |after| ==> recorded[i].refs <= acknowledged
  }

  /** Deleting what Core confirmed leaves in the spool exactly what Core lacks. */
  lemma {:induction false} AcknowledgedSpool(
      recorded: seq<TraceEvent>, runId: string, spooled: seq<TraceEvent>, log: seq<TraceEvent>)
    requires Delivery(recorded, runId, spooled, log)
    ensures EventsFrom(spooled, |log| + 1) == recorded[|log|..]
    ensures Delivery(recorded, runId, EventsFrom(spooled, |log| + 1), log)
  {
    EventsFromSuffix(recorded, runId, |recorded| - |spooled|, |log| + 1);
  }

  /** What a submitted batch did to Core, whether or not its answer came back. */
  lemma {:induction false} AfterSubmit(
      recorded: seq<TraceEvent>, runId: string, spooled: seq<TraceEvent>, before: seq<TraceEvent>, after: seq<TraceEvent>,
      acknowledged: set<Ref>, a: nat, b: nat, events: seq<TraceEvent>, first: nat, r: Result<nat, CoreError>)
    requires Delivery(recorded, runId, spooled, before) && a < b <= |recorded| && a <= |before|
    requires events == recorded[a..b]
    requires PartIngested(before, after, acknowledged, events, first)
    requires r != Err(TransportLost) ==> (after, r) == IngestAll(before, acknowledged, events, first)
    ensures Grew(recorded, before, after, acknowledged) && Delivery(recorded, runId, spooled, after)
    ensures r.Ok? ==> r.value == |after| + 1 && |after| >= b
    ensures r.Err? ==> r.error in {TransportLost, ArtifactUnacknowledged}
    ensures r == Err(ArtifactUnacknowledged) ==> exists e :: e in recorded && !(e.refs <= acknowledged)
  {
    var n := |before|;
    assert before == recorded[..n];
    var k :| 0 <= k <= |events| && after == IngestAll(before, acknowledged, events[..k], first).0;
    assert events[..k] == recorded[a..a + k];
    var m := IngestExtendsPrefix(recorded, runId, n, acknowledged, a, a + k, first);
    var whole := IngestExtendsPrefix(recorded, runId, n, acknowledged, a, b, first);
  }

  /** When nothing is pending although events may be sent, Core has everything and the spool is empty. */
  lemma {:induction false} NothingPending(
      recorded: seq<TraceEvent>, runId: string, spooled: seq<TraceEvent>, log: seq<TraceEvent>, cursor: nat, limit: BatchLimit)
    requires Delivery(recorded, runId, spooled, log) && cursor <= |recorded| - |spooled| + 1
    requires limit.maximumEvents > 0 && NextBatch(spooled, cursor, limit) == []
    ensures log == recorded && spooled == []
  {
    EventsFromSuffix(recorded, runId, |recorded| - |spooled|, cursor);
    WindowIsPrefix(EventsFrom(spooled, cursor), limit, 0, 0);
  }

  // ---------------------------------------------------------------- the recorder

  class SpoolingTraceRecorder {
    const spool: RunSpool
    var nextSequence: nat

    constructor (spool: RunSpool)
      ensures this.spool == spool && nextSequence == 1
    {
      this.spool := spool;
      nextSequence := 1;
    }

    /** An append that fails leaves the number free for the next event. */
    method Append(refs: set<Ref>, sizeBytes: nat, payload: string, ghost recorded: seq<TraceEvent>, ghost log: seq<TraceEvent>)
      returns (r: Result<TraceEvent, SpoolError>)
      requires Delivery(recorded, spool.runId, spool.events, log) && nextSequence == |recorded| + 1
      modifies this, spool`events
      ensures r.Ok? ==> r.value == TraceEvent(spool.runId, |recorded| + 1, refs, sizeBytes, payload)
      ensures r.Ok? ==> Delivery(recorded + [r.value], spool.runId, spool.events, log) && nextSequence == |recorded| + 2
      ensures r.Ok? ==> spool.events == old(spool.events) + [r.value]
      ensures r.Err? ==> r.error == SpoolCapacityExceeded
      ensures r.Err? ==> spool.events == old(spool.events) && nextSequence == old(nextSequence)
    {
      var sequenceNumber := nextSequence;
      var event := TraceEvent(spool.runId, sequenceNumber, refs, sizeBytes, payload);
      EventAtNumber(spool.events, |recorded| - |spool.events| + 1, sequenceNumber);
      InsertAtEnd(spool.events, event);
      var appended := spool.Append(event);
      if appended.Err? {
        return Err(appended.error);
      }
      nextSequence := sequenceNumber + 1;
      return Ok(event);
    }
  }

  // ---------------------------------------------------------------- the pump

  datatype PumpResult = PumpResult(submitted: nat, done: bool)

  class TraceUploadPump {
    const spool: RunSpool
    const core: CoreLink
    const limit: BatchLimit
    var cursor: nat

    constructor (spool: RunSpool, core: CoreLink, limit: BatchLimit)
      ensures this.spool == spool && this.core == core && this.limit == limit && cursor == 1
    {
      this.spool, this.core, this.limit := spool, core, limit;
      cursor := 1;
    }

    ghost predicate Valid(recorded: seq<TraceEvent>)
      reads this, spool, core
    {
      && Delivery(recorded, spool.runId, spool.events, core.log)
      && cursor <= |core.log| + 1
      && cursor <= |recorded| - |spool.events| + 1
    }

    /** Submit a batch, delete from the spool what Core confirms and advance the cursor. */
    method SendBatch(events: seq<TraceEvent>, ghost recorded: seq<TraceEvent>) returns (r: Result<(), CoreError>)
      requires Valid(recorded) && events == NextBatch(spool.events, cursor, limit) && events != []
      modifies this, spool`events, core`log
      ensures Valid(recorded)
      ensures Grew(recorded, old(core.log), core.log, StoredRefs(core.records)) && old(cursor) <= cursor
      ensures r.Ok? ==> cursor > old(cursor) && cursor == |core.log| + 1 && spool.events == recorded[|core.log|..]
      ensures r.Err? ==> r.error in {TransportLost, Aborted, ArtifactUnacknowledged}
      ensures r == Err(ArtifactUnacknowledged) ==> exists e :: e in recorded && !(e.refs <= StoredRefs(core.records))
    {
      ghost var a, b := NextBatchIsStretch(recorded, spool.runId, spool.events, core.log, cursor, limit);
      ghost var before := core.log;
      var ack := core.Submit(events, events[0].sequenceNumber);
      AfterSubmit(recorded, spool.runId, spool.events, before, core.log, StoredRefs(core.records), a, b,
                  events, events[0].sequenceNumber, ack);
      if ack.Err? {
        return Err(ack.error);
      }
      if * {
        return Err(Aborted);
      }
      AcknowledgedSpool(recorded, spool.runId, spool.events, core.log);
      spool.Acknowledge(ack.value);
      if * {
        return Err(Aborted);
      }
      cursor := Max(cursor, ack.value);
      return Ok(());
    }

    /**
     Submit at most one batch.  Whatever happens, Core's log only grows along the recorded events
     and no event Core lacks leaves the spool.
     */
    method PumpOnce(ghost recorded: seq<TraceEvent>) returns (r: Result<PumpResult, CoreError>)
      requires Valid(recorded)
      modifies this, spool`events, core`log
      ensures Valid(recorded)
      ensures Grew(recorded, old(core.log), core.log, StoredRefs(core.records)) && old(cursor) <= cursor
      ensures r.Ok? ==> r.value.submitted == |NextBatch(old(spool.events), old(cursor), limit)|
      ensures r.Ok? && r.value.submitted == 0 ==>
        r.value.done && spool.events == old(spool.events) && core.log == old(core.log) && cursor == old(cursor)
      ensures r.Ok? && r.value.submitted > 0 ==>
        cursor > old(cursor) && cursor == |core.log| + 1 && spool.events == recorded[|core.log|..]
      ensures r.Ok? && r.value.done && limit.maximumEvents > 0 ==> core.log == recorded && spool.events == []
      ensures r.Err? ==> r.error in {TransportLost, Aborted, ArtifactUnacknowledged}
      ensures r == Err(ArtifactUnacknowledged) ==> exists e :: e in recorded && !(e.refs <= StoredRefs(core.records))
    {
      if * {
        return Err(Aborted);
      }
      var events := spool.Pending(cursor, limit);
      if |events| == 0 {
        if limit.maximumEvents > 0 {
          NothingPending(recorded, spool.runId, spool.events, core.log, cursor, limit);
        }
        return Ok(PumpResult(0, true));
      }
      var sent := SendBatch(events, recorded);
      if sent.Err? {
        return Err(sent.error);
      }
      var remaining := spool.Pending(cursor, limit);
      if |remaining| == 0 && limit.maximumEvents > 0 {
        NothingPending(recorded, spool.runId, spool.events, core.log, cursor, limit);
      }
      return Ok(PumpResult(|events|, |remaining| == 0));
    }

    /**
     Drain until nothing is pending.  The loop ends against any Core, and when it ends without an
     error Core has exactly the recorded sequence.
     */
    method Drain(ghost recorded: seq<TraceEvent>) returns (r: Result<(), CoreError>)
      requires Valid(recorded)
      modifies this, spool`events, core`log
      ensures Valid(recorded)
      ensures Grew(recorded, old(core.log), core.log, StoredRefs(core.records))
      ensures r.Ok? && limit.maximumEvents > 0 ==> core.log == recorded && spool.events == []
      ensures r.Err? ==> r.error in {TransportLost, Aborted, ArtifactUnacknowledged}
      ensures r == Err(ArtifactUnacknowledged) ==> exists e :: e in recorded && !(e.refs <= StoredRefs(core.records))
    {
      while true
        invariant Valid(recorded)
        invariant Grew(recorded, old(core.log), core.log, StoredRefs(core.records))
        decreases |recorded| + 1 - cursor
      {
        var result := PumpOnce(recorded);
        if result.Err? {
          return Err(result.error);
        }
        if result.value.done {
          return Ok(());
        }
      }
    }
  }
}
