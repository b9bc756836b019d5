/**
 Core's side of a run: the trace log it ingests event by event, and the artifacts it
 collects chunk by chunk and stores once they are complete and their digest agrees.
 */
module CoreEvidence {
  import opened Wrappers
  import opened ArtifactChunks

  /**
   A string an event carries as evidence: the id of an artifact, or anything else, such as the
   "graph:node" reference of a claim, which never equals an artifact id.
   */
  datatype Ref = ArtifactRef(id: ArtifactId) | PlainRef(text: string)

  /**
   `refs` are the strings the ingestor collects from the event's payload as artifact references,
   `sizeBytes` what the spool measured; the payload hash stands for the whole event.
   */
  datatype TraceEvent = TraceEvent(runId: string, sequenceNumber: nat, refs: set<Ref>, sizeBytes: nat, payload: string)

  datatype Range = Range(offset: nat, length: nat)

  datatype Ack = Ack(artifactId: ArtifactId, missing: seq<Range>, acknowledged: bool)

  datatype CoreError =
    | TransportLost
    | Aborted
    | TraceIntegrityViolation
    | ArtifactUnacknowledged
    | ArtifactUploadValidationFailed
    | ArtifactUploadNotRegistered
    | ArtifactManifestConflict
    | ArtifactChunkConflict
    | ArtifactHashMismatch

  // ---------------------------------------------------------------- trace ingestion

  datatype IngestStatus =
    | Accepted(next: nat)
    | Duplicate(next: nat)
    | SequenceGap(expected: nat)
    | Refused(error: CoreError)

  function EventAt(log: seq<TraceEvent>, sequenceNumber: nat): Option<TraceEvent> {
    if log == [] then None
    else if log[0].sequenceNumber == sequenceNumber then Some(log[0])
    else EventAt(log[1..], sequenceNumber)
  }

  function IngestStatusOf(log: seq<TraceEvent>, acknowledged: set<Ref>, event: TraceEvent): IngestStatus {
    if !(event.refs <= acknowledged) then Refused(ArtifactUnacknowledged)
    else
      match EventAt(log, event.sequenceNumber)
      case Some(existing) =>
        if existing == event then Duplicate(|log| + 1) else Refused(TraceIntegrityViolation)
      case None =>
        if event.sequenceNumber != |log| + 1 then SequenceGap(|log| + 1) else Accepted(|log| + 2)
  }

  /** The log after a batch and what the batch is answered with; a refusal keeps what came before it. */
  function IngestAll(log: seq<TraceEvent>, acknowledged: set<Ref>, events: seq<TraceEvent>, next: nat)
    : (seq<TraceEvent>, Result<nat, CoreError>)
    decreases |events|
  {
    if events == [] then (log, Ok(next))
    else
      match IngestStatusOf(log, acknowledged, events[0])
      case Accepted(n) => IngestAll(log + [events[0]], acknowledged, events[1..], n)
      case Duplicate(n) => IngestAll(log, acknowledged, events[1..], n)
      case SequenceGap(n) => (log, Ok(n))
      case Refused(error) => (log, Err(error))
  }

  /** Core took in a batch, or stopped somewhere in it. */
  ghost predicate PartIngested(
      before: seq<TraceEvent>, after: seq<TraceEvent>, acknowledged: set<Ref>, events: seq<TraceEvent>, first: nat)
  {
    exists k :: 0 <= k <= |events| && after == IngestAll(before, acknowledged, events[..k], first).0
  }

  /** Events numbered from 1 without gaps, all of one run. */
  ghost predicate Numbered(events: seq<TraceEvent>, runId: string) {
    forall i :: 0 <= i < |events| ==> events[i].runId == runId && events[i].sequenceNumber == i + 1
  }

  lemma {:induction false} EventAtNumber(log: seq<TraceEvent>, from: nat, n: nat)
    requires forall i :: 0 <= i < |log| ==> log[i].sequenceNumber == from + i
    ensures EventAt(log, n) == if from <= n < from + |log| then Some(log[n - from]) else None
  {
    if log != [] {
      EventAtNumber(log[1..], from + 1, n);
    }
  }

  // ---------------------------------------------------------------- artifact ingestion

  /** `stored` is what was written to the artifact store when the upload was verified. */
  datatype ArtifactRecord = ArtifactRecord(manifest: Manifest, chunks: map<nat, Bytes>, stored: Option<Bytes>)

  predicate InRanges(offset: nat, ranges: seq<Range>) {
    exists r :: r in ranges && r.offset <= offset < r.offset + r.length
  }

  /** The ranges the loop over chunk offsets reports, from `offset` on. */
  function MissingRanges(sizeBytes: nat, present: set<nat>, offset: nat): seq<Range>
    decreases sizeBytes - offset
  {
    if offset >= sizeBytes then []
    else
      (if offset in present then [] else [Range(offset, Min(CHUNK_SIZE, sizeBytes - offset))])
      + MissingRanges(sizeBytes, present, offset + CHUNK_SIZE)
  }

  predicate ChunkOffset(sizeBytes: nat, offset: nat) {
    offset % CHUNK_SIZE == 0 && offset < sizeBytes
  }

  /** A chunk offset is inside a reported range exactly when Core does not have it. */
  lemma {:induction false} MissingRangesAreExact(sizeBytes: nat, present: set<nat>, from: nat, offset: nat)
    requires ChunkOffset(sizeBytes, offset) && from % CHUNK_SIZE == 0
    ensures InRanges(offset, MissingRanges(sizeBytes, present, from)) <==> from <= offset && offset !in present
    decreases sizeBytes - from
  {
    if from < sizeBytes {
      MissingRangesAreExact(sizeBytes, present, from + CHUNK_SIZE, offset);
      var rest := MissingRanges(sizeBytes, present, from + CHUNK_SIZE);
      var all := MissingRanges(sizeBytes, present, from);
      if from !in present {
        assert all == [Range(from, Min(CHUNK_SIZE, sizeBytes - from))] + rest;
        assert all[0] in all;
        assert forall r :: r in rest ==> r in all;
        if from == offset {
          assert InRanges(offset, all);
        }
      }
    }
  }

  /** Every reported range starts at a chunk offset that is missing. */
  lemma {:induction false} MissingRangesStart(sizeBytes: nat, present: set<nat>, from: nat, r: Range)
    requires from % CHUNK_SIZE == 0 && r in MissingRanges(sizeBytes, present, from)
    ensures ChunkOffset(sizeBytes, r.offset) && r.offset !in present && r.length > 0
    decreases sizeBytes - from
  {
    if from < sizeBytes && !(from !in present && r == Range(from, Min(CHUNK_SIZE, sizeBytes - from))) {
      MissingRangesStart(sizeBytes, present, from + CHUNK_SIZE, r);
    }
  }

  /** The chunks written into one buffer, in offset order. */
  function Assemble(chunks: map<nat, Bytes>, sizeBytes: nat, offset: nat): Bytes
    decreases sizeBytes - offset
  {
    if offset >= sizeBytes then []
    else (if offset in chunks then chunks[offset] else []) + Assemble(chunks, sizeBytes, offset + CHUNK_SIZE)
  }

  /** Reporting progress; a complete upload is verified and stored on the way. */
  function Progress(record: ArtifactRecord): (ArtifactRecord, Result<Ack, CoreError>) {
    var id := record.manifest.artifactId;
    var missing := MissingRanges(record.manifest.sizeBytes, record.chunks.Keys, 0);
    var bytes := Assemble(record.chunks, record.manifest.sizeBytes, 0);
    if record.stored.Some? then (record, Ok(Ack(id, [], true)))
    else if missing != [] then (record, Ok(Ack(id, missing, false)))
    else if Sha256(bytes) != record.manifest.sha256 then (record, Err(ArtifactHashMismatch))
    else (record.(stored := Some(bytes)), Ok(Ack(id, [], true)))
  }

  function Register(records: map<ArtifactId, ArtifactRecord>, manifest: Manifest)
    : (map<ArtifactId, ArtifactRecord>, Result<Ack, CoreError>)
  {
    var id := manifest.artifactId;
    if id in records && records[id].manifest != manifest then (records, Err(ArtifactManifestConflict))
    else
      var record := if id in records then records[id] else ArtifactRecord(manifest, map[], None);
      var (after, ack) := Progress(record);
      (records[id := after], ack)
  }

  predicate ChunkFits(manifest: Manifest, chunk: Chunk) {
    && chunk.runId == manifest.runId
    && chunk.offset < (if manifest.sizeBytes == 0 then 1 else manifest.sizeBytes)
    && |chunk.bytes| == Min(CHUNK_SIZE, manifest.sizeBytes - chunk.offset)
  }

  /** The chunk is one Core would append to an upload that is still open. */
  predicate Appendable(records: map<ArtifactId, ArtifactRecord>, chunk: Chunk) {
    && chunk.offset % CHUNK_SIZE == 0 && |chunk.bytes| <= CHUNK_SIZE
    && chunk.artifactId in records
    && ChunkFits(records[chunk.artifactId].manifest, chunk)
    && records[chunk.artifactId].stored.None?
    && (chunk.offset in records[chunk.artifactId].chunks ==>
          records[chunk.artifactId].chunks[chunk.offset] == chunk.bytes)
  }

  function Append(records: map<ArtifactId, ArtifactRecord>, chunk: Chunk): map<ArtifactId, ArtifactRecord>
    requires Appendable(records, chunk)
  {
    var record := records[chunk.artifactId];
    records[chunk.artifactId := record.(chunks := record.chunks[chunk.offset := chunk.bytes])]
  }

  function Upload(records: map<ArtifactId, ArtifactRecord>, chunk: Chunk)
    : (map<ArtifactId, ArtifactRecord>, Result<Ack, CoreError>)
  {
    var id := chunk.artifactId;
    if chunk.offset % CHUNK_SIZE != 0 || |chunk.bytes| > CHUNK_SIZE then (records, Err(ArtifactUploadValidationFailed))
    else if id !in records then (records, Err(ArtifactUploadNotRegistered))
    else if !ChunkFits(records[id].manifest, chunk) then (records, Err(ArtifactUploadValidationFailed))
    else if records[id].stored.Some? then (records, Ok(Ack(id, [], true)))
    else if chunk.offset in records[id].chunks && records[id].chunks[chunk.offset] != chunk.bytes then
      (records, Err(ArtifactChunkConflict))
    else
      var (after, ack) := Progress(Append(records, chunk)[id]);
      (records[id := after], ack)
  }

  // ---------------------------------------------------------------- what Core knows is what was captured

  /** The record belongs to the captured bytes: every chunk is a slice of them, and a stored artifact is all of them. */
  ghost predicate HoldsPartOf(record: ArtifactRecord, id: ArtifactId) {
    && record.manifest == ManifestOf(id)
    && (forall o :: o in record.chunks ==>
          ChunkOffset(|BytesOf(id)|, o) && record.chunks[o] == TileOf(id, o).bytes)
    && (record.stored.Some? ==> record.stored.value == BytesOf(id) && HasAll(record.chunks.Keys, |BytesOf(id)|))
  }

  ghost predicate HasAll(present: set<nat>, sizeBytes: nat) {
    forall o :: ChunkOffset(sizeBytes, o) ==> o in present
  }

  lemma {:induction false} AssembleIsConcat(record: ArtifactRecord, id: ArtifactId, offset: nat)
    requires HoldsPartOf(record, id) && HasAll(record.chunks.Keys, |BytesOf(id)|) && offset % CHUNK_SIZE == 0
    ensures Assemble(record.chunks, |BytesOf(id)|, offset) == if offset >= |BytesOf(id)| then [] else BytesOf(id)[offset..]
    decreases |BytesOf(id)| - offset
  {
    if offset < |BytesOf(id)| {
      AssembleIsConcat(record, id, offset + CHUNK_SIZE);
      assert ChunkOffset(|BytesOf(id)|, offset);
    }
  }

  /** Core reports exactly what it lacks, and stores exactly the captured bytes, never failing on genuine chunks. */
  lemma {:induction false} ProgressIsExact(record: ArtifactRecord, id: ArtifactId)
    requires HoldsPartOf(record, id)
    ensures var (after, ack) := Progress(record);
      && HoldsPartOf(after, id)
      && after.chunks == record.chunks
      && ack.Ok? && ack.value.artifactId == id
      && (ack.value.acknowledged <==> HasAll(record.chunks.Keys, |BytesOf(id)|))
      && (ack.value.acknowledged <==> after.stored == Some(BytesOf(id)))
      && (!ack.value.acknowledged ==> FreshMissing(ack.value, |BytesOf(id)|, record.chunks.Keys))
  {
    var missing := MissingRanges(|BytesOf(id)|, record.chunks.Keys, 0);
    forall o | ChunkOffset(|BytesOf(id)|, o) ensures InRanges(o, missing) <==> o !in record.chunks {
      MissingRangesAreExact(|BytesOf(id)|, record.chunks.Keys, 0, o);
    }
    if missing == [] {
      assert HasAll(record.chunks.Keys, |BytesOf(id)|);
      AssembleIsConcat(record, id, 0);
    } else {
      MissingRangesStart(|BytesOf(id)|, record.chunks.Keys, 0, missing[0]);
      assert !HasAll(record.chunks.Keys, |BytesOf(id)|);
    }
  }

  /** The ack names exactly the chunks missing from `present`, and there is at least one. */
  ghost predicate FreshMissing(ack: Ack, sizeBytes: nat, present: set<nat>) {
    && (forall o :: ChunkOffset(sizeBytes, o) ==> (InRanges(o, ack.missing) <==> o !in present))
    && !HasAll(present, sizeBytes)
  }

  // ---------------------------------------------------------------- Core as the runner reaches it

  /** The references Core counts as acknowledged artifacts. */
  function StoredRefs(records: map<ArtifactId, ArtifactRecord>): set<Ref> {
    set id | id in records && records[id].stored.Some? :: ArtifactRef(id)
  }

  /**
   Core behind a connection that may break at any moment: a call may not arrive, may stop half way,
   or may do all its work and lose only the answer.
   */
  class CoreLink {
    var log: seq<TraceEvent>
    var records: map<ArtifactId, ArtifactRecord>
    var completed: bool

    constructor ()
      ensures log == [] && records == map[] && !completed
    {
      log, records, completed := [], map[], false;
    }

    /** The loop over one batch: an accepted or repeated event moves on, anything else ends the batch. */
    method Ingest(events: seq<TraceEvent>, first: nat) returns (r: Result<nat, CoreError>)
      modifies this`log
      ensures (log, r) == IngestAll(old(log), StoredRefs(records), events, first)
    {
      var next := first;
      var i := 0;
      while i < |events|
        invariant 0 <= i <= |events|
        invariant IngestAll(log, StoredRefs(records), events[i..], next)
               == IngestAll(old(log), StoredRefs(records), events, first)
      {
        assert events[i..][1..] == events[i + 1..];
        match IngestStatusOf(log, StoredRefs(records), events[i]) {
          case Accepted(n) =>
            log := log + [events[i]];
            next := n;
          case Duplicate(n) =>
            next := n;
          case SequenceGap(n) =>
            return Ok(n);
          case Refused(error) =>
            return Err(error);
        }
        i := i + 1;
      }
      return Ok(next);
    }

    method Submit(events: seq<TraceEvent>, first: nat) returns (r: Result<nat, CoreError>)
      modifies this`log
      ensures PartIngested(old(log), log, StoredRefs(records), events, first)
      ensures r != Err(TransportLost) ==> (log, r) == IngestAll(old(log), StoredRefs(records), events, first)
    {
      assert events[..|events|] == events;
      if * {
        var arrived: nat :| arrived <= |events|;
        var lost := Ingest(events[..arrived], first);
        return Err(TransportLost);
      }
      r := Ingest(events, first);
      if * {
        r := Err(TransportLost);
      }
    }

    method RegisterManifest(manifest: Manifest) returns (r: Result<Ack, CoreError>)
      modifies this`records
      ensures r != Err(TransportLost) ==> (records, r) == Register(old(records), manifest)
      ensures r == Err(TransportLost) ==>
        || records == old(records)
        || records == Register(old(records), manifest).0
        || (manifest.artifactId !in old(records)
            && records == old(records)[manifest.artifactId := ArtifactRecord(manifest, map[], None)])
    {
      if * {
        return Err(TransportLost);
      }
      if * {
        // The manifest is kept, but reporting progress fails.
        if manifest.artifactId !in records {
          records := records[manifest.artifactId := ArtifactRecord(manifest, map[], None)];
        }
        return Err(TransportLost);
      }
      var (after, ack) := Register(records, manifest);
      records, r := after, ack;
      if * {
        r := Err(TransportLost);
      }
    }

    method UploadChunk(chunk: Chunk) returns (r: Result<Ack, CoreError>)
      modifies this`records
      ensures r != Err(TransportLost) ==> (records, r) == Upload(old(records), chunk)
      ensures r == Err(TransportLost) ==>
        || records == old(records)
        || records == Upload(old(records), chunk).0
        || (Appendable(old(records), chunk) && records == Append(old(records), chunk))
    {
      if * {
        return Err(TransportLost);
      }
      if * {
        // The chunk is kept, but verifying or storing the artifact fails.
        if Appendable(records, chunk) {
          records := Append(records, chunk);
        }
        return Err(TransportLost);
      }
      var (after, ack) := Upload(records, chunk);
      records, r := after, ack;
      if * {
        r := Err(TransportLost);
      }
    }

    method Complete() returns (r: Result<(), CoreError>)
      modifies this`completed
      ensures r.Ok? ==> completed
      ensures old(completed) ==> completed
      ensures r.Err? ==> r.error == TransportLost
    {
      if * {
        return Err(TransportLost);
      }
      completed := true;
      if * {
        return Err(TransportLost);
      }
      return Ok(());
    }
  }
}
