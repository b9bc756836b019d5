/**
 Captured artifacts are spooled as a manifest and chunks, uploaded chunk by chunk, and removed from
 the spool once Core has stored them.
 */
module ArtifactDelivery {
  import opened Wrappers
  import opened ArtifactChunks
  import opened CoreEvidence
  import opened RunnerSpool

  // ---------------------------------------------------------------- spool and Core about one artifact

  predicate IsChunkOf(id: ArtifactId, offset: nat) {
    ChunkOffset(|BytesOf(id)|, offset)
  }

  predicate CoreHas(id: ArtifactId, records: map<ArtifactId, ArtifactRecord>, offset: nat) {
    id in records && offset in records[id].chunks
  }

  predicate SpoolHas(id: ArtifactId, rows: ArtifactRows, offset: nat) {
    offset < |BytesOf(id)| && TileOf(id, offset) in rows.chunks
  }

  /**
   What spool and Core know of one artifact fits together: both hold only genuine slices of the
   captured bytes, a chunk the last recorded progress calls durable is on Core, and one it calls
   missing that Core has after all is still in the spool.
   */
  ghost predicate Agree(id: ArtifactId, rows: ArtifactRows, records: map<ArtifactId, ArtifactRecord>) {
    && (forall c :: c in rows.chunks ==> IsChunkOf(id, c.offset) && c == TileOf(id, c.offset))
    && (id in records ==> HoldsPartOf(records[id], id))
    && (rows.progress.Some? ==>
          var ack := rows.progress.value;
          && id in records && ack.artifactId == id && !ack.acknowledged
          && (forall o :: IsChunkOf(id, o) && !InRanges(o, ack.missing) ==> CoreHas(id, records, o))
          && (forall o :: IsChunkOf(id, o) && InRanges(o, ack.missing) && CoreHas(id, records, o) ==> SpoolHas(id, rows, o))
          && (exists o :: IsChunkOf(id, o) && InRanges(o, ack.missing)))
  }

  /** Every chunk of the artifact is on Core or in the spool. */
  ghost predicate AllHeld(id: ArtifactId, rows: ArtifactRows, records: map<ArtifactId, ArtifactRecord>) {
    forall o :: IsChunkOf(id, o) ==> CoreHas(id, records, o) || SpoolHas(id, rows, o)
  }

  /** Core holds the artifact in full. */
  predicate Stored(id: ArtifactId, records: map<ArtifactId, ArtifactRecord>) {
    id in records && records[id].stored == Some(BytesOf(id))
  }

  ghost predicate OthersUnchanged(
      id: ArtifactId, before: map<ArtifactId, ArtifactRecord>, after: map<ArtifactId, ArtifactRecord>)
  {
    && before.Keys <= after.Keys
    && forall x :: x in after && x != id ==> x in before && after[x] == before[x]
  }

  /** The rows after Core's progress is recorded in the spool. */
  function AckedRows(rows: ArtifactRows, ack: Ack): ArtifactRows {
    if ack.acknowledged then ArtifactRows([], None) else ArtifactRows(ChunksIn(rows.chunks, ack.missing), Some(ack))
  }

  /** A progress report Core has just made. */
  ghost predicate Fresh(id: ArtifactId, ack: Ack, records: map<ArtifactId, ArtifactRecord>) {
    && id in records && HoldsPartOf(records[id], id) && ack.artifactId == id
    && (ack.acknowledged <==> Stored(id, records))
    && (!ack.acknowledged ==> FreshMissing(ack, |BytesOf(id)|, records[id].chunks.Keys))
  }

  /** Recording a fresh report keeps spool and Core in agreement and loses no chunk. */
  lemma {:induction false} RecordingProgress(
      id: ArtifactId, rows: ArtifactRows, records: map<ArtifactId, ArtifactRecord>, ack: Ack)
    requires Agree(id, rows, records) && Fresh(id, ack, records)
    ensures Agree(id, AckedRows(rows, ack), records)
    ensures AllHeld(id, AckedRows(rows, ack), records) <==> AllHeld(id, rows, records)
    ensures !ack.acknowledged ==> |AckedRows(rows, ack).chunks| <= |rows.chunks|
    ensures !ack.acknowledged && (exists c :: c in rows.chunks && CoreHas(id, records, c.offset)) ==>
      |AckedRows(rows, ack).chunks| < |rows.chunks|
    ensures forall c :: c in rows.chunks ==> c in AckedRows(rows, ack).chunks || CoreHas(id, records, c.offset)
  {
    if !ack.acknowledged {
      ChunksInKeeps(rows.chunks, ack.missing);
    }
  }

  lemma {:induction false} RegisterAgrees(id: ArtifactId, rows: ArtifactRows, records: map<ArtifactId, ArtifactRecord>)
    requires Agree(id, rows, records)
    ensures var (after, r) := Register(records, ManifestOf(id));
      && OthersUnchanged(id, records, after)
      && r.Ok? && Fresh(id, r.value, after)
      && Agree(id, rows, after)
      && (AllHeld(id, rows, after) <==> AllHeld(id, rows, records))
      && (Stored(id, records) ==> Stored(id, after))
  {
    var record := if id in records then records[id] else ArtifactRecord(ManifestOf(id), map[], None);
    ProgressIsExact(record, id);
  }

  /** The chunk may be sent: it is a genuine slice that the spool or Core already holds. */
  ghost predicate Sendable(id: ArtifactId, rows: ArtifactRows, records: map<ArtifactId, ArtifactRecord>, chunk: Chunk) {
    && IsChunkOf(id, chunk.offset) && chunk == TileOf(id, chunk.offset)
    && (chunk in rows.chunks || CoreHas(id, records, chunk.offset))
  }

  lemma {:induction false} AppendAgrees(
      id: ArtifactId, rows: ArtifactRows, records: map<ArtifactId, ArtifactRecord>, chunk: Chunk)
    requires Agree(id, rows, records) && id in records && Sendable(id, rows, records, chunk) && records[id].stored.None?
    ensures Appendable(records, chunk)
    ensures var after := Append(records, chunk);
      && OthersUnchanged(id, records, after)
      && CoreHas(id, after, chunk.offset)
      && Agree(id, rows, after)
      && (AllHeld(id, rows, after) <==> AllHeld(id, rows, records))
  {
    var after := Append(records, chunk);
    forall o | IsChunkOf(id, o) && CoreHas(id, after, o) ensures CoreHas(id, records, o) || o == chunk.offset {
    }
  }

  lemma {:induction false} UploadAgrees(
      id: ArtifactId, rows: ArtifactRows, records: map<ArtifactId, ArtifactRecord>, chunk: Chunk)
    requires Agree(id, rows, records) && id in records && Sendable(id, rows, records, chunk)
    ensures var (after, r) := Upload(records, chunk);
      && OthersUnchanged(id, records, after)
      && r.Ok? && Fresh(id, r.value, after)
      && CoreHas(id, after, chunk.offset)
      && Agree(id, rows, after)
      && (AllHeld(id, rows, after) <==> AllHeld(id, rows, records))
      && (Stored(id, records) ==> Stored(id, after))
  {
    if records[id].stored.None? {
      AppendAgrees(id, rows, records, chunk);
      ProgressIsExact(Append(records, chunk)[id], id);
    }
  }

  /** What an upload did to Core, whether or not its answer came back. */
  lemma {:induction false} AfterUpload(
      id: ArtifactId, rows: ArtifactRows, before: map<ArtifactId, ArtifactRecord>, chunk: Chunk,
      after: map<ArtifactId, ArtifactRecord>, r: Result<Ack, CoreError>)
    requires Agree(id, rows, before) && id in before && Sendable(id, rows, before, chunk)
    requires r != Err(TransportLost) ==> (after, r) == Upload(before, chunk)
    requires r == Err(TransportLost) ==>
      || after == before || after == Upload(before, chunk).0
      || (Appendable(before, chunk) && after == Append(before, chunk))
    ensures OthersUnchanged(id, before, after) && Agree(id, rows, after)
    ensures AllHeld(id, rows, after) <==> AllHeld(id, rows, before)
    ensures forall o :: CoreHas(id, before, o) ==> CoreHas(id, after, o)
    ensures Stored(id, before) ==> Stored(id, after)
    ensures r.Ok? ==> Fresh(id, r.value, after) && CoreHas(id, after, chunk.offset)
    ensures r.Err? ==> r.error == TransportLost
  {
    UploadAgrees(id, rows, before, chunk);
    if before[id].stored.None? {
      AppendAgrees(id, rows, before, chunk);
    }
  }

  // ---------------------------------------------------------------- spool and Core about all artifacts

  ghost predicate World(
      manifests: seq<Manifest>, artifacts: map<ArtifactId, ArtifactRows>, records: map<ArtifactId, ArtifactRecord>)
  {
    && (forall id: ArtifactId :: Agree(id, RowsOf(artifacts, id), records))
    && (forall i :: 0 <= i < |manifests| ==> manifests[i] == ManifestOf(manifests[i].artifactId))
    && Distinct(manifests)
  }

  ghost predicate Held(id: ArtifactId, artifacts: map<ArtifactId, ArtifactRows>, records: map<ArtifactId, ArtifactRecord>) {
    AllHeld(id, RowsOf(artifacts, id), records)
  }

  /** Only the rows and the record of `id` may have changed. */
  ghost predicate OnlyAbout(
      id: ArtifactId,
      artifacts: map<ArtifactId, ArtifactRows>, records: map<ArtifactId, ArtifactRecord>,
      artifacts': map<ArtifactId, ArtifactRows>, records': map<ArtifactId, ArtifactRecord>)
  {
    && OthersUnchanged(id, records, records')
    && forall x: ArtifactId :: x != id ==> RowsOf(artifacts', x) == RowsOf(artifacts, x)
  }

  lemma {:induction false} AgreementElsewhere(
      id: ArtifactId,
      artifacts: map<ArtifactId, ArtifactRows>, records: map<ArtifactId, ArtifactRecord>,
      artifacts': map<ArtifactId, ArtifactRows>, records': map<ArtifactId, ArtifactRecord>)
    requires forall x: ArtifactId :: Agree(x, RowsOf(artifacts, x), records)
    requires OnlyAbout(id, artifacts, records, artifacts', records')
    requires Agree(id, RowsOf(artifacts', id), records')
    ensures forall x: ArtifactId :: Agree(x, RowsOf(artifacts', x), records')
    ensures forall x: ArtifactId :: x != id ==> (Held(x, artifacts', records') <==> Held(x, artifacts, records))
  {
    forall x: ArtifactId | x != id
      ensures Agree(x, RowsOf(artifacts', x), records')
      ensures Held(x, artifacts', records') <==> Held(x, artifacts, records)
    {
      assert Agree(x, RowsOf(artifacts, x), records);
      assert forall o :: CoreHas(x, records', o) <==> CoreHas(x, records, o);
    }
  }

  /** Spool and Core agree about the artifact as they did before, and nothing else changed. */
  ghost predicate Since(
      id: ArtifactId,
      artifacts: map<ArtifactId, ArtifactRows>, records: map<ArtifactId, ArtifactRecord>,
      artifacts': map<ArtifactId, ArtifactRows>, records': map<ArtifactId, ArtifactRecord>)
  {
    && Agree(id, RowsOf(artifacts', id), records')
    && OnlyAbout(id, artifacts, records, artifacts', records')
    && (Held(id, artifacts', records') <==> Held(id, artifacts, records))
    && (Stored(id, records) ==> Stored(id, records'))
  }

  lemma {:induction false} SinceIsTransitive(
      id: ArtifactId,
      artifacts: map<ArtifactId, ArtifactRows>, records: map<ArtifactId, ArtifactRecord>,
      artifacts1: map<ArtifactId, ArtifactRows>, records1: map<ArtifactId, ArtifactRecord>,
      artifacts2: map<ArtifactId, ArtifactRows>, records2: map<ArtifactId, ArtifactRecord>)
    requires Since(id, artifacts, records, artifacts1, records1)
    requires Since(id, artifacts1, records1, artifacts2, records2)
    ensures Since(id, artifacts, records, artifacts2, records2)
  {
  }

  /** After `i` chunks of a round every chunk is still in the spool or on Core, and the first send shrank the spool. */
  ghost predicate InRound(
      id: ArtifactId, chunks: seq<Chunk>, i: nat,
      artifacts: map<ArtifactId, ArtifactRows>, records: map<ArtifactId, ArtifactRecord>,
      artifacts': map<ArtifactId, ArtifactRows>, records': map<ArtifactId, ArtifactRecord>)
  {
    && Since(id, artifacts, records, artifacts', records') && id in records'
    && (forall c :: c in chunks ==> Sendable(id, RowsOf(artifacts', id), records', c))
    && (if i == 0 then |chunks| > 0 && chunks[0] in RowsOf(artifacts', id).chunks && artifacts' == artifacts
        else |RowsOf(artifacts', id).chunks| < |RowsOf(artifacts, id).chunks|)
  }

  lemma {:induction false} RoundBegins(
      id: ArtifactId, chunks: seq<Chunk>, artifacts: map<ArtifactId, ArtifactRows>, records: map<ArtifactId, ArtifactRecord>)
    requires Agree(id, RowsOf(artifacts, id), records) && id in records && |chunks| > 0
    requires forall c :: c in chunks ==> c in RowsOf(artifacts, id).chunks
    ensures InRound(id, chunks, 0, artifacts, records, artifacts, records)
  {
  }

  lemma {:induction false} MaySend(
      id: ArtifactId, chunks: seq<Chunk>, i: nat,
      artifacts: map<ArtifactId, ArtifactRows>, records: map<ArtifactId, ArtifactRecord>,
      artifacts': map<ArtifactId, ArtifactRows>, records': map<ArtifactId, ArtifactRecord>)
    requires InRound(id, chunks, i, artifacts, records, artifacts', records') && i < |chunks|
    ensures chunks[i].artifactId == id && Sendable(id, RowsOf(artifacts', id), records', chunks[i])
    ensures Agree(id, RowsOf(artifacts', id), records') && id in records'
  {
    assert chunks[i] in chunks;
  }

  lemma {:induction false} SentInRound(
      id: ArtifactId, chunks: seq<Chunk>, i: nat,
      artifacts: map<ArtifactId, ArtifactRows>, records: map<ArtifactId, ArtifactRecord>,
      artifacts1: map<ArtifactId, ArtifactRows>, records1: map<ArtifactId, ArtifactRecord>,
      artifacts2: map<ArtifactId, ArtifactRows>, records2: map<ArtifactId, ArtifactRecord>, ack: Ack)
    requires InRound(id, chunks, i, artifacts, records, artifacts1, records1) && i < |chunks|
    requires Since(id, artifacts, records, artifacts2, records2) && id in records2
    requires forall o :: CoreHas(id, records1, o) ==> CoreHas(id, records2, o)
    requires Fresh(id, ack, records2) && CoreHas(id, records2, chunks[i].offset) && !ack.acknowledged
    requires RowsOf(artifacts2, id) == AckedRows(RowsOf(artifacts1, id), ack)
    ensures InRound(id, chunks, i + 1, artifacts, records, artifacts2, records2)
  {
    assert chunks[i] in chunks;
    ChunksInKeeps(RowsOf(artifacts1, id).chunks, ack.missing);
  }

  datatype ArtifactPumpResult = ArtifactPumpResult(artifacts: nat, acknowledged: nat)

  class ArtifactUploadPump {
    const spool: RunSpool
    const core: CoreLink

    constructor (spool: RunSpool, core: CoreLink)
      ensures this.spool == spool && this.core == core
    {
      this.spool, this.core := spool, core;
    }

    ghost predicate About(id: ArtifactId)
      reads spool, core
    {
      Agree(id, RowsOf(spool.artifacts, id), core.records)
    }

    method RegisterManifest(manifest: Manifest) returns (r: Result<Ack, CoreError>)
      requires manifest == ManifestOf(manifest.artifactId) && About(manifest.artifactId)
      modifies spool`artifacts, spool`manifests, core`records
      ensures var id := manifest.artifactId;
        && Since(id, old(spool.artifacts), old(core.records), spool.artifacts, core.records)
        && (r.Ok? ==> Fresh(id, r.value, core.records))
        && (r.Ok? ==> RowsOf(spool.artifacts, id) == AckedRows(old(RowsOf(spool.artifacts, id)), r.value))
        && spool.manifests == (if r.Ok? then AfterAckManifests(old(spool.manifests), r.value) else old(spool.manifests))
        && (r.Err? ==> r.error in {TransportLost, Aborted})
    {
      var id := manifest.artifactId;
      RegisterAgrees(id, RowsOf(spool.artifacts, id), core.records);
      var registered := core.RegisterManifest(manifest);
      if registered.Err? {
        return registered;
      }
      if * {
        return Err(Aborted);
      }
      RecordingProgress(id, RowsOf(spool.artifacts, id), core.records, registered.value);
      spool.AcknowledgeProgress(registered.value);
      return registered;
    }

    /** Send one chunk and record what Core answers. */
    method SendChunk(id: ArtifactId, chunk: Chunk) returns (r: Result<Ack, CoreError>)
      requires About(id) && id in core.records && chunk.artifactId == id
      requires Sendable(id, RowsOf(spool.artifacts, id), core.records, chunk)
      modifies spool`artifacts, spool`manifests, core`records
      ensures Since(id, old(spool.artifacts), old(core.records), spool.artifacts, core.records) && id in core.records
      ensures r.Ok? ==> Fresh(id, r.value, core.records) && CoreHas(id, core.records, chunk.offset)
      ensures r.Ok? ==> RowsOf(spool.artifacts, id) == AckedRows(old(RowsOf(spool.artifacts, id)), r.value)
      ensures spool.manifests == if r.Ok? then AfterAckManifests(old(spool.manifests), r.value) else old(spool.manifests)
      ensures r.Ok? ==> forall o :: old(CoreHas(id, core.records, o)) ==> CoreHas(id, core.records, o)
      ensures r.Err? ==> r.error in {TransportLost, Aborted}
    {
      ghost var before := core.records;
      var progress := core.UploadChunk(chunk);
      AfterUpload(id, RowsOf(spool.artifacts, id), before, chunk, core.records, progress);
      if progress.Err? {
        return progress;
      }
      if * {
        return Err(Aborted);
      }
      RecordingProgress(id, RowsOf(spool.artifacts, id), core.records, progress.value);
      spool.AcknowledgeProgress(progress.value);
      return progress;
    }

    /** Spool and Core agree about the artifact as they did in the given state, and nothing else changed. */
    ghost predicate Kept(id: ArtifactId, artifacts: map<ArtifactId, ArtifactRows>, records: map<ArtifactId, ArtifactRecord>)
      reads spool, core
    {
      Since(id, artifacts, records, spool.artifacts, core.records) && id in core.records
    }

    /** One round over the chunks found pending; it shrinks the spool. */
    method SendRound(id: ArtifactId, chunks: seq<Chunk>, progress: Ack) returns (r: Result<Ack, CoreError>)
      requires About(id) && id in core.records && |chunks| > 0
      requires forall c :: c in chunks ==> c in RowsOf(spool.artifacts, id).chunks
      modifies spool`artifacts, spool`manifests, core`records
      ensures Kept(id, old(spool.artifacts), old(core.records))
      ensures r.Ok? ==> Fresh(id, r.value, core.records)
      ensures r.Ok? && !r.value.acknowledged ==> RowsOf(spool.artifacts, id).progress == Some(r.value)
      ensures r.Ok? && !r.value.acknowledged ==>
        |RowsOf(spool.artifacts, id).chunks| < |RowsOf(old(spool.artifacts), id).chunks|
      ensures spool.manifests == if r.Ok? then AfterAckManifests(old(spool.manifests), r.value) else old(spool.manifests)
      ensures r.Err? ==> r.error in {TransportLost, Aborted}
    {
      ghost var artifacts, records := spool.artifacts, core.records;
      r := Ok(progress);
      RoundBegins(id, chunks, artifacts, records);
      var i := 0;
      while i < |chunks|
        invariant 0 <= i <= |chunks| && spool.manifests == old(spool.manifests)
        invariant InRound(id, chunks, i, artifacts, records, spool.artifacts, core.records)
        invariant i > 0 ==> r.Ok? && Fresh(id, r.value, core.records) && !r.value.acknowledged
        invariant i > 0 ==> RowsOf(spool.artifacts, id).progress == Some(r.value)
      {
        ghost var artifacts1, records1 := spool.artifacts, core.records;
        MaySend(id, chunks, i, artifacts, records, artifacts1, records1);
        r := SendChunk(id, chunks[i]);
        SinceIsTransitive(id, artifacts, records, artifacts1, records1, spool.artifacts, core.records);
        if r.Err? || r.value.acknowledged {
          return;
        }
        SentInRound(id, chunks, i, artifacts, records, artifacts1, records1, spool.artifacts, core.records, r.value);
        i := i + 1;
      }
    }

    /**
     Upload what Core misses, round after round.  The rounds end, and without a transport error the
     artifact ends up acknowledged exactly when each of its chunks was on Core or in the spool.
     */
    method UploadMissing(manifest: Manifest, initial: Ack) returns (r: Result<Ack, CoreError>)
      requires var id := manifest.artifactId; manifest == ManifestOf(id) && About(id) && id in core.records
      requires RowsOf(spool.artifacts, manifest.artifactId).progress == Some(initial)
      modifies spool`artifacts, spool`manifests, core`records
      ensures var id := manifest.artifactId;
        && Kept(id, old(spool.artifacts), old(core.records))
        && (r.Ok? ==> (r.value.acknowledged <==> Held(id, old(spool.artifacts), old(core.records))))
        && (r.Ok? && r.value.acknowledged ==> Stored(id, core.records))
        && (r.Ok? ==> r.value.artifactId == id)
        && spool.manifests == (if r.Ok? then AfterAckManifests(old(spool.manifests), r.value) else old(spool.manifests))
        && (r.Err? ==> r.error in {TransportLost, Aborted})
    {
      var id := manifest.artifactId;
      var progress := initial;
      while true
        invariant Kept(id, old(spool.artifacts), old(core.records))
        invariant RowsOf(spool.artifacts, id).progress == Some(progress)
        invariant spool.manifests == old(spool.manifests)
        decreases |RowsOf(spool.artifacts, id).chunks|
      {
        var chunks := ChunksIn(RowsOf(spool.artifacts, id).chunks, progress.missing);
        ChunksInKeeps(RowsOf(spool.artifacts, id).chunks, progress.missing);
        if |chunks| == 0 {
          NothingLeftToSend(id, RowsOf(spool.artifacts, id), core.records);
          return Ok(progress);
        }
        var sent := SendRound(id, chunks, progress);
        if sent.Err? {
          return sent;
        }
        progress := sent.value;
        if progress.acknowledged {
          StoredIsHeld(id, RowsOf(spool.artifacts, id), core.records);
          return Ok(progress);
        }
      }
    }

    /** One turn of the loop over the pending manifests. */
    method DrainOne(manifest: Manifest) returns (r: Result<Ack, CoreError>)
      requires manifest == ManifestOf(manifest.artifactId) && About(manifest.artifactId)
      modifies spool`artifacts, spool`manifests, core`records
      ensures var id := manifest.artifactId;
        && Since(id, old(spool.artifacts), old(core.records), spool.artifacts, core.records)
        && (r.Ok? ==> (r.value.acknowledged <==> Held(id, old(spool.artifacts), old(core.records))))
        && (r.Ok? ==> (r.value.acknowledged <==> Stored(id, core.records)))
        && (r.Ok? && !r.value.acknowledged ==> spool.manifests == old(spool.manifests))
        && (r.Ok? && r.value.acknowledged ==> spool.manifests == WithoutManifest(old(spool.manifests), id))
        && (r.Err? ==> spool.manifests == old(spool.manifests) && r.error in {TransportLost, Aborted})
    {
      var id := manifest.artifactId;
      var initial: Ack;
      match RowsOf(spool.artifacts, id).progress {
        case Some(progress) =>
          initial := progress;
        case None =>
          r := RegisterManifest(manifest);
          if r.Err? {
            return;
          }
          if r.value.acknowledged {
            StoredIsHeld(id, RowsOf(spool.artifacts, id), core.records);
            return;
          }
          initial := r.value;
      }
      r := UploadMissing(manifest, initial);
      if r.Ok? && Stored(id, core.records) {
        StoredIsHeld(id, RowsOf(spool.artifacts, id), core.records);
      }
    }

    /**
     Drain the pending manifests.  Without a transport error Core ends up with exactly those
     artifacts every chunk of which it or the spool held, and they have left the spool.
     */
    method Drain() returns (r: Result<ArtifactPumpResult, CoreError>)
      requires World(spool.manifests, spool.artifacts, core.records)
      modifies spool`artifacts, spool`manifests, core`records
      ensures World(spool.manifests, spool.artifacts, core.records)
      ensures NothingLost(old(spool.artifacts), old(core.records), spool.artifacts, core.records)
      ensures r.Ok? ==> r.value.artifacts == |old(spool.manifests)|
      ensures r.Ok? ==> (r.value.acknowledged == r.value.artifacts <==>
        forall m :: m in old(spool.manifests) ==> Held(m.artifactId, old(spool.artifacts), old(core.records)))
      ensures r.Ok? ==> forall m :: m in old(spool.manifests) ==>
        (Stored(m.artifactId, core.records) <==> Held(m.artifactId, old(spool.artifacts), old(core.records)))
      ensures r.Ok? && r.value.acknowledged == r.value.artifacts ==> spool.manifests == []
      ensures forall m :: m in spool.manifests ==> m in old(spool.manifests)
      ensures forall m :: m in old(spool.manifests) ==> m in spool.manifests || Stored(m.artifactId, core.records)
      ensures r.Err? ==> r.error in {TransportLost, Aborted}
    {
      var manifests := spool.manifests;
      ghost var artifacts, records := spool.artifacts, core.records;
      var acknowledged := 0;
      var i := 0;
      while i < |manifests|
        invariant 0 <= i <= |manifests| && 0 <= acknowledged <= i
        invariant World(spool.manifests, spool.artifacts, core.records)
        invariant NothingLost(artifacts, records, spool.artifacts, core.records)
        invariant forall m :: m in manifests ==> m in spool.manifests || Stored(m.artifactId, core.records)
        invariant Drained(manifests, i, acknowledged, HeldIds(artifacts, records), spool.manifests, StoredIds(core.records))
      {
        ghost var manifests1, artifacts1, records1 := spool.manifests, spool.artifacts, core.records;
        assert manifests[i] in spool.manifests;
        var final := DrainOne(manifests[i]);
        DrainedOne(manifests[i].artifactId, manifests1, artifacts1, records1, spool.manifests, spool.artifacts, core.records);
        if final.Err? {
          return Err(final.error);
        }
        DrainAdvances(manifests, i, acknowledged, HeldIds(artifacts, records),
                      manifests1, StoredIds(records1), spool.manifests, StoredIds(core.records));
        if final.value.acknowledged {
          acknowledged := acknowledged + 1;
        }
        i := i + 1;
      }
      DrainedAll(manifests, acknowledged, HeldIds(artifacts, records), spool.manifests, StoredIds(core.records));
      return Ok(ArtifactPumpResult(|manifests|, acknowledged));
    }
  }

  /** No chunk is lost: what spool and Core held together they still hold, and what Core had stored stays stored. */
  ghost predicate NothingLost(
      artifacts: map<ArtifactId, ArtifactRows>, records: map<ArtifactId, ArtifactRecord>,
      artifacts': map<ArtifactId, ArtifactRows>, records': map<ArtifactId, ArtifactRecord>)
  {
    && (forall id: ArtifactId :: Held(id, artifacts', records') <==> Held(id, artifacts, records))
    && (forall id: ArtifactId :: Stored(id, records) ==> Stored(id, records'))
  }

  ghost function HeldIds(artifacts: map<ArtifactId, ArtifactRows>, records: map<ArtifactId, ArtifactRecord>): iset<ArtifactId> {
    iset id: ArtifactId | Held(id, artifacts, records)
  }

  ghost function StoredIds(records: map<ArtifactId, ArtifactRecord>): iset<ArtifactId> {
    iset id: ArtifactId | Stored(id, records)
  }

  /** Where the loop stands after `i` manifests: exactly the held ones among them are stored, counted and gone. */
  ghost predicate Drained(
      manifests: seq<Manifest>, i: nat, acknowledged: nat, held: iset<ArtifactId>,
      pending: seq<Manifest>, stored: iset<ArtifactId>)
  {
    && (forall m :: m in pending ==> m in manifests)
    && (forall j :: i <= j < |manifests| ==> manifests[j] in pending)
    && (forall j :: 0 <= j < i && j < |manifests| ==>
          && (manifests[j].artifactId in stored <==> manifests[j].artifactId in held)
          && (manifests[j] in pending <==> manifests[j].artifactId !in held))
    && (acknowledged == i <==> forall j :: 0 <= j < i && j < |manifests| ==> manifests[j].artifactId in held)
  }

  /** One turn of the loop brings it from `i` to `i + 1` manifests. */
  lemma {:induction false} DrainAdvances(
      manifests: seq<Manifest>, i: nat, acknowledged: nat, held: iset<ArtifactId>,
      pending: seq<Manifest>, stored: iset<ArtifactId>, pending': seq<Manifest>, stored': iset<ArtifactId>)
    requires Distinct(manifests) && i < |manifests| && acknowledged <= i
    requires Drained(manifests, i, acknowledged, held, pending, stored)
    requires var id := manifests[i].artifactId;
      && (id in stored' <==> id in held)
      && (forall x :: x != id ==> (x in stored' <==> x in stored))
      && pending' == if id in held then WithoutManifest(pending, id) else pending
    ensures Drained(manifests, i + 1, if manifests[i].artifactId in held then acknowledged + 1 else acknowledged,
                    held, pending', stored')
  {
    WithoutManifestKeeps(pending, manifests[i].artifactId);
    forall j | 0 <= j < |manifests| && j != i ensures manifests[j].artifactId != manifests[i].artifactId {
    }
  }

  lemma {:induction false} DrainedAll(
      manifests: seq<Manifest>, acknowledged: nat, held: iset<ArtifactId>, pending: seq<Manifest>, stored: iset<ArtifactId>)
    requires Drained(manifests, |manifests|, acknowledged, held, pending, stored)
    ensures acknowledged == |manifests| <==> forall m :: m in manifests ==> m.artifactId in held
    ensures forall m :: m in manifests ==> (m.artifactId in stored <==> m.artifactId in held)
    ensures acknowledged == |manifests| ==> pending == []
  {
    if pending != [] {
      assert pending[0] in manifests;
    }
  }

  /** Draining one artifact leaves all others as they were. */
  lemma {:induction false} DrainedOne(
      id: ArtifactId,
      manifests: seq<Manifest>, artifacts: map<ArtifactId, ArtifactRows>, records: map<ArtifactId, ArtifactRecord>,
      manifests': seq<Manifest>, artifacts': map<ArtifactId, ArtifactRows>, records': map<ArtifactId, ArtifactRecord>)
    requires World(manifests, artifacts, records)
    requires Since(id, artifacts, records, artifacts', records')
    requires manifests' == manifests || manifests' == WithoutManifest(manifests, id)
    ensures World(manifests', artifacts', records')
    ensures NothingLost(artifacts, records, artifacts', records')
    ensures forall x: ArtifactId :: x != id ==> (Stored(x, records') <==> Stored(x, records))
    ensures forall m :: m in manifests && m.artifactId != id ==> m in manifests'
    ensures forall m :: m in manifests' ==> m in manifests
    ensures manifests' == WithoutManifest(manifests, id) ==> forall m :: m in manifests' ==> m.artifactId != id
  {
    AgreementElsewhere(id, artifacts, records, artifacts', records');
    WithoutManifestKeeps(manifests, id);
  }

  lemma {:induction false} StoredIsHeld(id: ArtifactId, rows: ArtifactRows, records: map<ArtifactId, ArtifactRecord>)
    requires Agree(id, rows, records) && Stored(id, records)
    ensures AllHeld(id, rows, records)
  {
  }

  /** With nothing left to send, the artifact is short of a chunk neither side holds. */
  lemma {:induction false} NothingLeftToSend(id: ArtifactId, rows: ArtifactRows, records: map<ArtifactId, ArtifactRecord>)
    requires Agree(id, rows, records) && rows.progress.Some?
    requires ChunksIn(rows.chunks, rows.progress.value.missing) == []
    ensures !AllHeld(id, rows, records)
  {
    ChunksInKeeps(rows.chunks, rows.progress.value.missing);
    var o :| IsChunkOf(id, o) && InRanges(o, rows.progress.value.missing);
    assert TileOf(id, o) !in ChunksIn(rows.chunks, rows.progress.value.missing);
    assert !SpoolHas(id, rows, o) && !CoreHas(id, records, o);
  }
}
