/**
 The rows the runner's spool keeps for one run.  Every statement of the source is keyed by the
 run, so rows of different runs never meet.  Tables are in primary-key order.
 */
module RunnerSpool {
  import opened Wrappers
  import opened ArtifactChunks
  import opened CoreEvidence

  datatype SpoolError = SpoolIntegrityViolation | SpoolCapacityExceeded

  datatype BatchLimit = BatchLimit(maximumEvents: nat, maximumBytes: nat)

  ghost predicate Ascending(events: seq<TraceEvent>) {
    forall i, j :: 0 <= i < j < |events| ==> events[i].sequenceNumber < events[j].sequenceNumber
  }

  /** Where a row with this number belongs in the table. */
  function InsertEvent(events: seq<TraceEvent>, event: TraceEvent): seq<TraceEvent> {
    if events == [] || event.sequenceNumber < events[0].sequenceNumber then [event] + events
    else [events[0]] + InsertEvent(events[1..], event)
  }

  /** The rows with number `from` and above. */
  function EventsFrom(events: seq<TraceEvent>, from: nat): seq<TraceEvent> {
    if events == [] then []
    else (if events[0].sequenceNumber >= from then [events[0]] else []) + EventsFrom(events[1..], from)
  }

  /** An acknowledgement keeps exactly the rows from its number on, in order. */
  lemma {:induction false} EventsFromKeeps(events: seq<TraceEvent>, from: nat)
    ensures forall e :: e in EventsFrom(events, from) <==> e in events && e.sequenceNumber >= from
    ensures Ascending(events) ==> Ascending(EventsFrom(events, from))
  {
    if events != [] {
      EventsFromKeeps(events[1..], from);
      assert events == [events[0]] + events[1..];
    }
  }

  /** The longest prefix within both limits, except that the first row is never held back by its size. */
  function Window(rows: seq<TraceEvent>, limit: BatchLimit, count: nat, bytes: nat): seq<TraceEvent> {
    if rows == [] || count >= limit.maximumEvents || (count > 0 && bytes + rows[0].sizeBytes > limit.maximumBytes) then []
    else [rows[0]] + Window(rows[1..], limit, count + 1, bytes + rows[0].sizeBytes)
  }

  lemma {:induction false} WindowIsPrefix(rows: seq<TraceEvent>, limit: BatchLimit, count: nat, bytes: nat)
    ensures Window(rows, limit, count, bytes) <= rows
    ensures rows != [] && count == 0 && limit.maximumEvents > 0 ==> Window(rows, limit, count, bytes) != []
  {
    if rows != [] {
      WindowIsPrefix(rows[1..], limit, count + 1, bytes + rows[0].sizeBytes);
    }
  }

  lemma {:induction false} WindowStep(rows: seq<TraceEvent>, limit: BatchLimit, i: nat, bytes: nat, batch: seq<TraceEvent>)
    requires i < |rows| && i < limit.maximumEvents && (i == 0 || bytes + rows[i].sizeBytes <= limit.maximumBytes)
    ensures batch + Window(rows[i..], limit, i, bytes)
         == (batch + [rows[i]]) + Window(rows[i + 1..], limit, i + 1, bytes + rows[i].sizeBytes)
  {
    assert rows[i..][1..] == rows[i + 1..];
  }

  /** The rows of one batch, taken until a limit is met; the first row is taken whatever its size. */
  method TakeWindow(rows: seq<TraceEvent>, limit: BatchLimit) returns (batch: seq<TraceEvent>)
    ensures batch == Window(rows, limit, 0, 0)
  {
    batch := [];
    var bytes: nat := 0;
    var i := 0;
    assert rows[0..] == rows;
    while i < |rows|
      invariant 0 <= i == |batch| <= |rows|
      invariant batch + Window(rows[i..], limit, i, bytes) == Window(rows, limit, 0, 0)
    {
      if |batch| >= limit.maximumEvents || (|batch| > 0 && bytes + rows[i].sizeBytes > limit.maximumBytes) {
        return;
      }
      WindowStep(rows, limit, i, bytes, batch);
      batch := batch + [rows[i]];
      bytes := bytes + rows[i].sizeBytes;
      i := i + 1;
    }
  }

  /** The chunk rows of one artifact and the last progress Core reported for it. */
  datatype ArtifactRows = ArtifactRows(chunks: seq<Chunk>, progress: Option<Ack>)

  function RowsOf(artifacts: map<ArtifactId, ArtifactRows>, id: ArtifactId): ArtifactRows {
    if id in artifacts then artifacts[id] else ArtifactRows([], None)
  }

  function InsertChunk(chunks: seq<Chunk>, chunk: Chunk): seq<Chunk> {
    if chunks == [] || chunk.offset < chunks[0].offset then [chunk] + chunks
    else [chunks[0]] + InsertChunk(chunks[1..], chunk)
  }

  function ChunksIn(chunks: seq<Chunk>, ranges: seq<Range>): seq<Chunk> {
    if chunks == [] then []
    else (if InRanges(chunks[0].offset, ranges) then [chunks[0]] else []) + ChunksIn(chunks[1..], ranges)
  }

  lemma {:induction false} ChunksInKeeps(chunks: seq<Chunk>, ranges: seq<Range>)
    ensures forall c :: c in ChunksIn(chunks, ranges) <==> c in chunks && InRanges(c.offset, ranges)
    ensures |ChunksIn(chunks, ranges)| <= |chunks|
    ensures (exists c :: c in chunks && !InRanges(c.offset, ranges)) ==> |ChunksIn(chunks, ranges)| < |chunks|
  {
    if chunks != [] {
      ChunksInKeeps(chunks[1..], ranges);
      assert chunks == [chunks[0]] + chunks[1..];
    }
  }

  function WithoutManifest(manifests: seq<Manifest>, id: ArtifactId): seq<Manifest> {
    if manifests == [] then []
    else (if manifests[0].artifactId == id then [] else [manifests[0]]) + WithoutManifest(manifests[1..], id)
  }

  ghost predicate Distinct(manifests: seq<Manifest>) {
    forall i, j :: 0 <= i < j < |manifests| ==> manifests[i].artifactId != manifests[j].artifactId
  }

  lemma {:induction false} WithoutManifestKeeps(manifests: seq<Manifest>, id: ArtifactId)
    ensures forall m :: m in WithoutManifest(manifests, id) <==> m in manifests && m.artifactId != id
    ensures Distinct(manifests) ==> Distinct(WithoutManifest(manifests, id))
  {
    if manifests != [] {
      var rest := WithoutManifest(manifests[1..], id);
      WithoutManifestKeeps(manifests[1..], id);
      assert manifests == [manifests[0]] + manifests[1..];
      if Distinct(manifests) {
        assert Distinct(manifests[1..]);
        forall i | 0 <= i < |rest| ensures rest[i].artifactId != manifests[0].artifactId {
          assert rest[i] in manifests[1..];
        }
      }
    }
  }

  class RunSpool {
    const runId: string
    var events: seq<TraceEvent>
    var manifests: seq<Manifest>
    var artifacts: map<ArtifactId, ArtifactRows>

    constructor (runId: string)
      ensures this.runId == runId && events == [] && manifests == [] && artifacts == map[]
    {
      this.runId := runId;
      events, manifests, artifacts := [], [], map[];
    }

    /** A repeated event is accepted silently; a different one under the same number is refused. */
    method Append(event: TraceEvent) returns (r: Result<(), SpoolError>)
      modifies this`events
      ensures r.Err? ==> events == old(events)
      ensures r == Err(SpoolIntegrityViolation) <==>
        EventAt(old(events), event.sequenceNumber).Some? && EventAt(old(events), event.sequenceNumber) != Some(event)
      ensures r.Ok? && EventAt(old(events), event.sequenceNumber).Some? ==> events == old(events)
      ensures r.Ok? && EventAt(old(events), event.sequenceNumber).None? ==> events == InsertEvent(old(events), event)
    {
      match EventAt(events, event.sequenceNumber)
      case Some(existing) =>
        return if existing == event then Ok(()) else Err(SpoolIntegrityViolation);
      case None =>
        if * {
          return Err(SpoolCapacityExceeded);
        }
        events := InsertEvent(events, event);
        return Ok(());
    }

    method Pending(from: nat, limit: BatchLimit) returns (batch: seq<TraceEvent>)
      ensures batch == Window(EventsFrom(events, from), limit, 0, 0)
    {
      batch := TakeWindow(EventsFrom(events, from), limit);
    }

    /** Rows below the acknowledged number are deleted. */
    method Acknowledge(next: nat)
      modifies this`events
      ensures events == EventsFrom(old(events), next)
    {
      events := EventsFrom(events, next);
    }

    method SaveManifest(manifest: Manifest) returns (r: Result<(), SpoolError>)
      modifies this`manifests
      ensures r.Err? ==> manifests == old(manifests)
      ensures r.Ok? ==> manifests == if manifest in old(manifests) then old(manifests) else old(manifests) + [manifest]
      ensures r.Ok? <==> forall m :: m in old(manifests) && m.artifactId == manifest.artifactId ==> m == manifest
    {
      if exists m :: m in manifests && m.artifactId == manifest.artifactId && m != manifest {
        return Err(SpoolIntegrityViolation);
      }
      if manifest !in manifests {
        manifests := manifests + [manifest];
      }
      return Ok(());
    }

    method SaveChunk(chunk: Chunk) returns (r: Result<(), SpoolError>)
      modifies this`artifacts
      ensures r.Err? ==> artifacts == old(artifacts)
      ensures r.Ok? ==>
        var rows := RowsOf(old(artifacts), chunk.artifactId);
        artifacts == if chunk in rows.chunks then old(artifacts)
          else old(artifacts)[chunk.artifactId := rows.(chunks := InsertChunk(rows.chunks, chunk))]
    {
      var rows := RowsOf(artifacts, chunk.artifactId);
      if chunk in rows.chunks {
        return Ok(());
      }
      if exists c :: c in rows.chunks && c.offset == chunk.offset {
        return Err(SpoolIntegrityViolation);
      }
      if * {
        return Err(SpoolCapacityExceeded);
      }
      artifacts := artifacts[chunk.artifactId := rows.(chunks := InsertChunk(rows.chunks, chunk))];
      return Ok(());
    }

    /** A final ack removes the artifact; a partial one deletes the chunks Core no longer misses. */
    method AcknowledgeProgress(ack: Ack)
      modifies this`artifacts, this`manifests
      ensures manifests == AfterAckManifests(old(manifests), ack)
      ensures artifacts == AfterAck(old(artifacts), ack)
    {
      manifests := AfterAckManifests(manifests, ack);
      artifacts := AfterAck(artifacts, ack);
    }
  }

  function AfterAckManifests(manifests: seq<Manifest>, ack: Ack): seq<Manifest> {
    if ack.acknowledged then WithoutManifest(manifests, ack.artifactId) else manifests
  }

  function AfterAck(artifacts: map<ArtifactId, ArtifactRows>, ack: Ack): map<ArtifactId, ArtifactRows> {
    var rows := RowsOf(artifacts, ack.artifactId);
    artifacts[ack.artifactId :=
      if ack.acknowledged then ArtifactRows([], None) else ArtifactRows(ChunksIn(rows.chunks, ack.missing), Some(ack))]
  }

  /**
   A final ack takes the manifest and the chunks of its artifact, a partial one exactly the chunks Core
   no longer misses, and either leaves every other artifact alone.
   */
  lemma {:induction false} AfterAckKeeps(manifests: seq<Manifest>, artifacts: map<ArtifactId, ArtifactRows>, ack: Ack)
    ensures var after := AfterAck(artifacts, ack);
      && (forall id :: id != ack.artifactId ==> RowsOf(after, id) == RowsOf(artifacts, id))
      && (ack.acknowledged ==> RowsOf(after, ack.artifactId).chunks == [])
      && (!ack.acknowledged ==>
            && RowsOf(after, ack.artifactId).progress == Some(ack)
            && forall c :: c in RowsOf(after, ack.artifactId).chunks <==>
                 c in RowsOf(artifacts, ack.artifactId).chunks && InRanges(c.offset, ack.missing))
    ensures forall m :: m in AfterAckManifests(manifests, ack) <==>
      m in manifests && !(ack.acknowledged && m.artifactId == ack.artifactId)
  {
    WithoutManifestKeeps(manifests, ack.artifactId);
    ChunksInKeeps(RowsOf(artifacts, ack.artifactId).chunks, ack.missing);
  }
}
