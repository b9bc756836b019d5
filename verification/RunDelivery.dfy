/**
 A tenant run from capture to completion: evidence is spooled before the event that names it,
 artifacts are drained before trace, and the run is completed last.
 */
module RunDelivery {
  import opened Wrappers
  import opened ArtifactChunks
  import opened CoreEvidence
  import opened RunnerSpool
  import opened TraceDelivery
  import opened ArtifactDelivery
  import ExecutionTrace

  datatype CapturedArtifact = CapturedArtifact(name: string, extension: string, bytes: Bytes)

  function ArtifactIdFor(runId: string, artifact: CapturedArtifact): ArtifactId {
    ArtifactId(runId, artifact.name, Sha256(artifact.bytes), artifact.extension)
  }

  /** References by artifact name become references by artifact id; any other reference stays. */
  function RewriteRefs(refs: seq<string>, ids: map<string, ArtifactId>): set<Ref> {
    set ref | ref in refs :: if ref in ids then ArtifactRef(ids[ref]) else PlainRef(ref)
  }

  // ---------------------------------------------------------------- what a run has promised

  /** Core has the artifact, or the spool has all it takes to deliver it. */
  ghost predicate Promised(
      id: ArtifactId, manifests: seq<Manifest>, artifacts: map<ArtifactId, ArtifactRows>, records: map<ArtifactId, ArtifactRecord>)
  {
    Stored(id, records) || (ManifestOf(id) in manifests && Held(id, artifacts, records))
  }

  /** The artifacts an event refers to are among those captured. */
  ghost predicate ArtifactsIn(refs: set<Ref>, captured: set<ArtifactId>) {
    forall id :: ArtifactRef(id) in refs ==> id in captured
  }

  /** Every event in Core's log refers only to artifacts Core holds in full. */
  ghost predicate Backed(log: seq<TraceEvent>, records: map<ArtifactId, ArtifactRecord>) {
    forall e :: e in log ==> e.refs <= StoredRefs(records)
  }

  /** Only artifact references, no other text. */
  predicate OnlyArtifacts(refs: set<Ref>) {
    forall ref :: ref in refs ==> ref.ArtifactRef?
  }

  lemma {:induction false} InsertedChunk(chunks: seq<Chunk>, chunk: Chunk)
    ensures forall c :: c in InsertChunk(chunks, chunk) <==> c in chunks || c == chunk
  {
    if chunks != [] && chunk.offset >= chunks[0].offset {
      InsertedChunk(chunks[1..], chunk);
      assert chunks == [chunks[0]] + chunks[1..];
    }
  }

  /** Spooling more can only help: agreement stays and nothing held or promised is lost. */
  ghost predicate Spooled(
      manifests: seq<Manifest>, artifacts: map<ArtifactId, ArtifactRows>,
      manifests': seq<Manifest>, artifacts': map<ArtifactId, ArtifactRows>, records: map<ArtifactId, ArtifactRecord>)
  {
    && World(manifests', artifacts', records)
    && (forall m :: m in manifests ==> m in manifests')
    && (forall id: ArtifactId :: Held(id, artifacts, records) ==> Held(id, artifacts', records))
  }

  lemma {:induction false} SavedManifest(
      manifests: seq<Manifest>, artifacts: map<ArtifactId, ArtifactRows>, records: map<ArtifactId, ArtifactRecord>, id: ArtifactId)
    requires World(manifests, artifacts, records)
    ensures forall m :: m in manifests && m.artifactId == id ==> m == ManifestOf(id)
    ensures ManifestOf(id) !in manifests ==>
      Spooled(manifests, artifacts, manifests + [ManifestOf(id)], artifacts, records)
  {
  }

  /** Saving a genuine chunk, which finds either no row at its offset or the same row. */
  lemma {:induction false} SavedChunk(
      manifests0: seq<Manifest>, artifacts0: map<ArtifactId, ArtifactRows>,
      manifests: seq<Manifest>, artifacts: map<ArtifactId, ArtifactRows>, records: map<ArtifactId, ArtifactRecord>,
      id: ArtifactId, offset: nat)
    requires Spooled(manifests0, artifacts0, manifests, artifacts, records) && IsChunkOf(id, offset)
    ensures var rows := RowsOf(artifacts, id);
      var artifacts' := artifacts[id := rows.(chunks := InsertChunk(rows.chunks, TileOf(id, offset)))];
      && (forall c :: c in rows.chunks && c.offset == offset ==> c == TileOf(id, offset))
      && Spooled(manifests0, artifacts0, manifests, artifacts', records)
      && (forall c :: c in rows.chunks ==> c in RowsOf(artifacts', id).chunks)
      && TileOf(id, offset) in RowsOf(artifacts', id).chunks
  {
    var rows := RowsOf(artifacts, id);
    var artifacts' := artifacts[id := rows.(chunks := InsertChunk(rows.chunks, TileOf(id, offset)))];
    InsertedChunk(rows.chunks, TileOf(id, offset));
    assert Agree(id, rows, records);
    forall x: ArtifactId ensures Agree(x, RowsOf(artifacts', x), records) {
      assert Agree(x, RowsOf(artifacts, x), records);
    }
    forall x: ArtifactId | Held(x, artifacts0, records) ensures Held(x, artifacts', records) {
      assert Held(x, artifacts, records);
    }
  }

  // ---------------------------------------------------------------- the run

  datatype CaptureError = CaptureAborted | SpoolRefused(error: SpoolError)

  /**
   The spool and Core of one run, and what the runner process has done so far.  `recorded` is the
   history of events whose append succeeded and `captured` that of artifacts whose capture returned;
   a restarted runner has no recorder for the run.
   */
  class TenantRun {
    const spool: RunSpool
    const core: CoreLink
    const limit: BatchLimit
    var recorder: SpoolingTraceRecorder?
    ghost var recorded: seq<TraceEvent>
    ghost var captured: set<ArtifactId>

    constructor (spool: RunSpool, core: CoreLink, limit: BatchLimit)
      requires spool.events == [] && spool.manifests == [] && spool.artifacts == map[]
      requires core.log == [] && core.records == map[]
      ensures Valid() && fresh(recorder) && this.spool == spool && this.core == core && this.limit == limit
      ensures recorded == [] && captured == {}
    {
      this.spool, this.core, this.limit := spool, core, limit;
      recorder := new SpoolingTraceRecorder(spool);
      recorded, captured := [], {};
    }

    ghost predicate Valid()
      reads this, spool, core, recorder
    {
      && Delivery(recorded, spool.runId, spool.events, core.log)
      && World(spool.manifests, spool.artifacts, core.records)
      && Backed(core.log, core.records)
      && (forall id :: id in captured ==> Promised(id, spool.manifests, spool.artifacts, core.records))
      && (forall e :: e in recorded ==> ArtifactsIn(e.refs, captured))
      && (recorder != null ==> recorder.spool == spool && recorder.nextSequence == |recorded| + 1)
    }

    /** Spool one artifact: its manifest, then its chunks. */
    method SaveArtifact(artifact: CapturedArtifact) returns (r: Result<ArtifactId, CaptureError>)
      requires World(spool.manifests, spool.artifacts, core.records)
      modifies spool`manifests, spool`artifacts
      ensures Spooled(old(spool.manifests), old(spool.artifacts), spool.manifests, spool.artifacts, core.records)
      ensures r.Ok? ==> r.value == ArtifactIdFor(spool.runId, artifact)
      ensures r.Ok? ==> Promised(r.value, spool.manifests, spool.artifacts, core.records)
    {
      var id := ArtifactIdFor(spool.runId, artifact);
      SavedManifest(spool.manifests, spool.artifacts, core.records, id);
      var saved := spool.SaveManifest(ManifestFor(id, spool.runId, artifact.bytes));
      if saved.Err? {
        return Err(SpoolRefused(SpoolIntegrityViolation));
      }
      var chunks := ChunksFor(id, spool.runId, artifact.bytes);
      var chunksSaved := SaveChunks(id, chunks, old(spool.manifests), old(spool.artifacts));
      if chunksSaved.Err? {
        return Err(chunksSaved.error);
      }
      SavedAllTiles(id, RowsOf(spool.artifacts, id), core.records);
      return Ok(id);
    }

    method SaveChunks(
        id: ArtifactId, chunks: seq<Chunk>, ghost manifests0: seq<Manifest>,
        ghost artifacts0: map<ArtifactId, ArtifactRows>)
      returns (r: Result<(), CaptureError>)
      requires Spooled(manifests0, artifacts0, spool.manifests, spool.artifacts, core.records)
      requires id.runId == spool.runId && chunks == Tiles(id, id.runId, BytesOf(id), 0)
      modifies spool`artifacts
      ensures Spooled(manifests0, artifacts0, spool.manifests, spool.artifacts, core.records)
      ensures r.Ok? ==> forall c :: c in chunks ==> c in RowsOf(spool.artifacts, id).chunks
    {
      var i := 0;
      while i < |chunks|
        invariant 0 <= i <= |chunks|
        invariant Spooled(manifests0, artifacts0, spool.manifests, spool.artifacts, core.records)
        invariant forall k :: 0 <= k < i ==> chunks[k] in RowsOf(spool.artifacts, id).chunks
      {
        TileAt(id, id.runId, BytesOf(id), 0, i);
        SavedChunk(manifests0, artifacts0, spool.manifests, spool.artifacts, core.records, id, chunks[i].offset);
        var saved := spool.SaveChunk(chunks[i]);
        if saved.Err? {
          return Err(SpoolRefused(saved.error));
        }
        i := i + 1;
      }
      return Ok(());
    }

    /** Decorated capture: evidence is spooled first, and only then is it referred to. */
    method Capture(graphRefs: seq<string>, artifacts: seq<CapturedArtifact>) returns (r: Result<set<Ref>, CaptureError>)
      requires Valid()
      modifies this`captured, spool`manifests, spool`artifacts
      ensures Valid() && captured >= old(captured)
      ensures r.Ok? ==> ArtifactsIn(r.value, captured)
      ensures r.Ok? && artifacts == [] ==> r.value == set ref | ref in graphRefs :: PlainRef(ref)
      ensures r.Ok? ==> forall k :: 0 <= k < |artifacts| ==> ArtifactIdFor(spool.runId, artifacts[k]) in captured
    {
      var ids: map<string, ArtifactId> := map[];
      var i := 0;
      while i < |artifacts|
        invariant 0 <= i <= |artifacts|
        invariant Valid() && captured >= old(captured)
        invariant ids.Values <= captured && (i == 0 ==> ids == map[])
        invariant forall k :: 0 <= k < i ==> ArtifactIdFor(spool.runId, artifacts[k]) in captured
      {
        if * {
          return Err(CaptureAborted);
        }
        ghost var manifests1, artifacts1 := spool.manifests, spool.artifacts;
        var id := SaveArtifact(artifacts[i]);
        PromisesSurviveSpooling(captured, manifests1, artifacts1, spool.manifests, spool.artifacts, core.records);
        if id.Err? {
          return Err(id.error);
        }
        captured := captured + {id.value};
        ids := ids[artifacts[i].name := id.value];
        i := i + 1;
      }
      return Ok(RewriteRefs(graphRefs, ids) + set id | id in ids.Values :: ArtifactRef(id));
    }

    /** Record one event; the evidence it names has been captured before. */
    method Record(refs: set<Ref>, sizeBytes: nat, payload: string) returns (r: Result<TraceEvent, SpoolError>)
      requires Valid() && recorder != null && ArtifactsIn(refs, captured)
      modifies this`recorded, recorder, spool`events
      ensures Valid()
      ensures r.Ok? ==> recorded == old(recorded) + [r.value] && r.value.refs == refs
                        && r.value.sequenceNumber == |recorded|
      ensures r.Err? ==> recorded == old(recorded) && spool.events == old(spool.events)
    {
      r := recorder.Append(refs, sizeBytes, payload, recorded, core.log);
      if r.Ok? {
        recorded := recorded + [r.value];
      }
    }

    /** The runner process dies: all that was only in memory is gone. */
    method Restart()
      requires Valid()
      modifies this`recorder
      ensures Valid() && recorder == null
    {
      recorder := null;
    }

    /** Drain the artifacts: afterwards Core holds every captured one. */
    method DrainArtifacts() returns (r: Result<(), CoreError>)
      requires Valid()
      modifies spool`manifests, spool`artifacts, core`records
      ensures Valid()
      ensures r.Ok? ==> forall id :: id in captured ==> Stored(id, core.records)
      ensures r.Ok? ==> (spool.manifests == [] <==>
        forall m :: m in old(spool.manifests) ==> Held(m.artifactId, old(spool.artifacts), old(core.records)))
      ensures r.Err? ==> r.error in {TransportLost, Aborted}
    {
      var pump := new ArtifactUploadPump(spool, core);
      ghost var manifests1, artifacts1, records1 := spool.manifests, spool.artifacts, core.records;
      var drained := pump.Drain();
      PromisesSurviveDraining(captured, manifests1, artifacts1, records1, spool.manifests, spool.artifacts, core.records);
      BackedStaysBacked(core.log, artifacts1, records1, core.records);
      if drained.Err? {
        return Err(drained.error);
      }
      PromisesAreKept(captured, manifests1, artifacts1, records1, core.records);
      return Ok(());
    }

    /** Drain the trace; with the artifacts there, only a reference to something else can be refused. */
    method DrainTrace() returns (r: Result<(), CoreError>)
      requires Valid() && forall id :: id in captured ==> Stored(id, core.records)
      modifies spool`events, core`log
      ensures Valid() && old(core.log) <= core.log
      ensures r.Ok? && limit.maximumEvents > 0 ==> core.log == recorded && spool.events == []
      ensures r == Err(ArtifactUnacknowledged) ==> exists e :: e in recorded && !OnlyArtifacts(e.refs)
    {
      var pump := new TraceUploadPump(spool, core, limit);
      ghost var log1 := core.log;
      r := pump.Drain(recorded);
      GrowthIsBacked(recorded, log1, core.log, core.records);
      if r == Err(ArtifactUnacknowledged) {
        OnlyPlainTextIsRefused(recorded, captured, core.records);
      }
    }

    /** Drain artifacts, then trace, as the finalizer does; without a pending manifest the first part does nothing. */
    method Upload() returns (r: Result<(), CoreError>)
      requires Valid()
      modifies spool`manifests, spool`artifacts, spool`events, core`records, core`log
      ensures Valid() && old(core.log) <= core.log
      ensures r.Ok? && limit.maximumEvents > 0 ==> core.log == recorded && spool.events == []
      ensures r.Ok? ==> forall id :: id in captured ==> Stored(id, core.records)
      ensures r.Ok? ==> (spool.manifests == [] <==>
        forall m :: m in old(spool.manifests) ==> Held(m.artifactId, old(spool.artifacts), old(core.records)))
      ensures r == Err(ArtifactUnacknowledged) ==> exists e :: e in recorded && !OnlyArtifacts(e.refs)
    {
      r := DrainArtifacts();
      if r.Ok? {
        r := DrainTrace();
      }
    }

    /** Core has the recording and every captured artifact, and the trace has left the spool. */
    ghost predicate Delivered()
      reads this, spool, core
    {
      core.log == recorded && spool.events == [] && forall id :: id in captured ==> Stored(id, core.records)
    }

    /** Upload again after a reconnect; pending artifacts need the lease they were captured under. */
    method Replay(leased: bool) returns (r: Result<(), CoreError>)
      requires Valid() && limit.maximumEvents > 0
      modifies spool`manifests, spool`artifacts, spool`events, core`records, core`log
      ensures Valid() && old(core.log) <= core.log
      ensures r.Ok? ==> Delivered()
      ensures r.Ok? ==> (spool.manifests == [] <==>
        forall m :: m in old(spool.manifests) ==> Held(m.artifactId, old(spool.artifacts), old(core.records)))
      ensures old(spool.manifests) != [] && !leased ==>
        r.Err? && unchanged(spool) && core.log == old(core.log) && core.records == old(core.records)
    {
      if spool.manifests != [] && !leased {
        return Err(TransportLost);
      }
      r := Upload();
    }

    /** Upload, then complete: completion is asked for only when Core has everything. */
    method Finalize() returns (r: Result<(), CoreError>)
      requires Valid()
      modifies spool`manifests, spool`artifacts, spool`events, core
      ensures Valid() && old(core.log) <= core.log
      ensures r.Ok? ==> core.completed
      ensures core.completed && !old(core.completed) && limit.maximumEvents > 0 ==>
        && core.log == recorded && spool.events == []
        && (forall e :: e in recorded ==> OnlyArtifacts(e.refs))
      ensures core.completed && !old(core.completed) ==>
        && (forall id :: id in captured ==> Stored(id, core.records))
        && (spool.manifests == [] <==>
              forall m :: m in old(spool.manifests) ==> Held(m.artifactId, old(spool.artifacts), old(core.records)))
      ensures r == Err(ArtifactUnacknowledged) ==> exists e :: e in recorded && !OnlyArtifacts(e.refs)
    {
      r := Upload();
      if r.Err? {
        return;
      }
      if * {
        return Err(Aborted);
      }
      BackedIsOnlyArtifacts(core.log, core.records);
      r := core.Complete();
    }
  }

  lemma {:induction false} PromisesSurviveSpooling(
      captured: set<ArtifactId>,
      manifests: seq<Manifest>, artifacts: map<ArtifactId, ArtifactRows>,
      manifests': seq<Manifest>, artifacts': map<ArtifactId, ArtifactRows>, records: map<ArtifactId, ArtifactRecord>)
    requires Spooled(manifests, artifacts, manifests', artifacts', records)
    requires forall id :: id in captured ==> Promised(id, manifests, artifacts, records)
    ensures forall id :: id in captured ==> Promised(id, manifests', artifacts', records)
  {
  }

  lemma {:induction false} PromisesSurviveDraining(
      captured: set<ArtifactId>,
      manifests: seq<Manifest>, artifacts: map<ArtifactId, ArtifactRows>, records: map<ArtifactId, ArtifactRecord>,
      manifests': seq<Manifest>, artifacts': map<ArtifactId, ArtifactRows>, records': map<ArtifactId, ArtifactRecord>)
    requires NothingLost(artifacts, records, artifacts', records')
    requires forall m :: m in manifests ==> m in manifests' || Stored(m.artifactId, records')
    requires forall id :: id in captured ==> Promised(id, manifests, artifacts, records)
    ensures forall id :: id in captured ==> Promised(id, manifests', artifacts', records')
  {
    forall id | id in captured ensures Promised(id, manifests', artifacts', records') {
      assert Promised(id, manifests, artifacts, records);
    }
  }

  /** A drain that ends well stored whatever was held, hence whatever was promised. */
  lemma {:induction false} PromisesAreKept(
      captured: set<ArtifactId>, manifests: seq<Manifest>, artifacts: map<ArtifactId, ArtifactRows>,
      records: map<ArtifactId, ArtifactRecord>, records': map<ArtifactId, ArtifactRecord>)
    requires forall id: ArtifactId :: Stored(id, records) ==> Stored(id, records')
    requires forall m :: m in manifests ==> (Stored(m.artifactId, records') <==> Held(m.artifactId, artifacts, records))
    requires forall id :: id in captured ==> Promised(id, manifests, artifacts, records)
    ensures forall id :: id in captured ==> Stored(id, records')
  {
    forall id | id in captured ensures Stored(id, records') {
      assert Promised(id, manifests, artifacts, records);
      assert ManifestOf(id).artifactId == id;
    }
  }

  lemma {:induction false} BackedStaysBacked(
      log: seq<TraceEvent>, artifacts: map<ArtifactId, ArtifactRows>,
      records: map<ArtifactId, ArtifactRecord>, records': map<ArtifactId, ArtifactRecord>)
    requires Backed(log, records)
    requires forall id: ArtifactId :: Stored(id, records) ==> Stored(id, records')
    requires forall id: ArtifactId :: Agree(id, RowsOf(artifacts, id), records)
    ensures Backed(log, records')
  {
    forall id | ArtifactRef(id) in StoredRefs(records) ensures ArtifactRef(id) in StoredRefs(records') {
      assert Agree(id, RowsOf(artifacts, id), records);
      assert Stored(id, records);
    }
    forall e | e in log ensures e.refs <= StoredRefs(records') {
      forall ref | ref in e.refs ensures ref in StoredRefs(records') {
        assert ref in StoredRefs(records);
      }
    }
  }

  lemma {:induction false} GrowthIsBacked(
      recorded: seq<TraceEvent>, log: seq<TraceEvent>, log': seq<TraceEvent>, records: map<ArtifactId, ArtifactRecord>)
    requires Backed(log, records) && Grew(recorded, log, log', StoredRefs(records))
    ensures Backed(log', records)
  {
    forall e | e in log' ensures e.refs <= StoredRefs(records) {
      var i :| 0 <= i < |log'| && log'[i] == e;
      if i < |log| {
        assert e in log;
      } else {
        assert recorded[i] == e;
      }
    }
  }

  lemma {:induction false} BackedIsOnlyArtifacts(log: seq<TraceEvent>, records: map<ArtifactId, ArtifactRecord>)
    requires Backed(log, records)
    ensures forall e :: e in log ==> OnlyArtifacts(e.refs)
  {
    forall e, ref | e in log && ref in e.refs ensures ref.ArtifactRef? {
      assert ref in StoredRefs(records);
    }
  }

  /** With every captured artifact stored, the only reference Core can refuse is one that is no artifact. */
  lemma {:induction false} OnlyPlainTextIsRefused(
      recorded: seq<TraceEvent>, captured: set<ArtifactId>, records: map<ArtifactId, ArtifactRecord>)
    requires forall id :: id in captured ==> Stored(id, records)
    requires forall e :: e in recorded ==> ArtifactsIn(e.refs, captured)
    requires exists e :: e in recorded && !(e.refs <= StoredRefs(records))
    ensures exists e :: e in recorded && !OnlyArtifacts(e.refs)
  {
    var e :| e in recorded && !(e.refs <= StoredRefs(records));
    var ref :| ref in e.refs && ref !in StoredRefs(records);
    forall id | id in captured ensures ArtifactRef(id) in StoredRefs(records) {
      assert Stored(id, records);
    }
    assert !OnlyArtifacts(e.refs);
  }

  // ---------------------------------------------------------------- findings

  /** What Core takes the evidence of an event for. */
  function RefsOf(evidence: seq<string>, read: string -> Ref): set<Ref> {
    set ref | ref in evidence :: read(ref)
  }

  /** No artifact id has a colon in it. */
  ghost predicate KnowsArtifactIds(read: string -> Ref) {
    forall text: string :: ':' in text ==> read(text).PlainRef?
  }

  /** Once every tile is in the spool the artifact is held. */
  lemma {:induction false} SavedAllTiles(id: ArtifactId, rows: ArtifactRows, records: map<ArtifactId, ArtifactRecord>)
    requires forall c :: c in Tiles(id, id.runId, BytesOf(id), 0) ==> c in rows.chunks
    ensures AllHeld(id, rows, records)
  {
    forall o: nat | IsChunkOf(id, o) ensures SpoolHas(id, rows, o) {
      TileCount(id, id.runId, BytesOf(id), 0);
      TileAt(id, id.runId, BytesOf(id), 0, o / CHUNK_SIZE);
    }
  }

  /** The evidence of a finding is made of artifacts alone exactly when it has no claim and its graphs name nothing else. */
  lemma {:induction false} FindingIsDeliverable(
      runId: string, v: ExecutionTrace.Verification, before: ExecutionTrace.Graph, after: ExecutionTrace.Graph, read: string -> Ref)
    requires v.Failed? && KnowsArtifactIds(read)
    ensures OnlyArtifacts(RefsOf(ExecutionTrace.FindingFromVerification(runId, v, before, after).evidence, read)) <==>
      v.claims == [] && OnlyArtifacts(RefsOf(before.evidence, read)) && OnlyArtifacts(RefsOf(after.evidence, read))
  {
    var evidence := ExecutionTrace.FindingFromVerification(runId, v, before, after).evidence;
    if v.claims != [] {
      ExecutionTrace.ClaimRefsAt(v.claims, 0);
      var side := ExecutionTrace.ClaimRefs(v.claims)[0];
      assert side[|v.claims[0].expected.0|] == ':';
      assert side in evidence && read(side) in RefsOf(evidence, read);
    } else {
      assert RefsOf(evidence, read) == RefsOf(before.evidence, read) + RefsOf(after.evidence, read);
    }
  }

  /** Whatever Core has stored, it refuses a finding with a claim. */
  lemma {:induction false} FindingWithClaimIsRefused(
      runId: string, v: ExecutionTrace.Verification, before: ExecutionTrace.Graph, after: ExecutionTrace.Graph, read: string -> Ref,
      log: seq<TraceEvent>, records: map<ArtifactId, ArtifactRecord>, event: TraceEvent)
    requires v.Failed? && v.claims != [] && KnowsArtifactIds(read)
    requires event.refs == RefsOf(ExecutionTrace.FindingFromVerification(runId, v, before, after).evidence, read)
    ensures IngestStatusOf(log, StoredRefs(records), event) == Refused(ArtifactUnacknowledged)
  {
    FindingIsDeliverable(runId, v, before, after, read);
    var ref :| ref in event.refs && !ref.ArtifactRef?;
    assert ref !in StoredRefs(records);
  }

  /** One claim about "cart:total", and Core refuses the finding. */
  lemma {:induction false} OneClaimIsRefused(log: seq<TraceEvent>, records: map<ArtifactId, ArtifactRecord>)
    ensures var v := ExecutionTrace.Failed("total is off", "major", [ExecutionTrace.Claim(("cart", "total"), ("page", "total"))]);
      var graph := ExecutionTrace.Graph("page", []);
      var refs := RefsOf(ExecutionTrace.FindingFromVerification("run", v, graph, graph).evidence, text => PlainRef(text));
      IngestStatusOf(log, StoredRefs(records), TraceEvent("run", |log| + 1, refs, 0, "finding")) == Refused(ArtifactUnacknowledged)
  {
    var v := ExecutionTrace.Failed("total is off", "major", [ExecutionTrace.Claim(("cart", "total"), ("page", "total"))]);
    var graph := ExecutionTrace.Graph("page", []);
    var refs := RefsOf(ExecutionTrace.FindingFromVerification("run", v, graph, graph).evidence, text => PlainRef(text));
    var event := TraceEvent("run", |log| + 1, refs, 0, "finding");
    FindingWithClaimIsRefused("run", v, graph, graph, text => PlainRef(text), log, records, event);
  }

  // ---------------------------------------------------------------- a capture cut short

  /** A manifest without its chunks agrees with an empty Core, and its artifact is held nowhere. */
  lemma {:induction false} ManifestWithoutChunks(id: ArtifactId)
    requires BytesOf(id) != []
    ensures World([ManifestOf(id)], map[], map[]) && !Held(id, map[], map[])
  {
    assert IsChunkOf(id, 0);
    assert !CoreHas(id, map[], 0) && !SpoolHas(id, RowsOf(map[], id), 0);
  }

  /** The runner dies between the manifest and the first chunk of a capture; the run may be completed all the same, short of the artifact. */
  method InterruptedCaptureIsCompleted(spool: RunSpool, core: CoreLink, limit: BatchLimit, artifact: CapturedArtifact)
    returns (run: TenantRun, r: Result<(), CoreError>)
    requires spool.events == [] && spool.manifests == [] && spool.artifacts == map[]
    requires core.log == [] && core.records == map[] && !core.completed && artifact.bytes != []
    modifies spool`manifests, spool`artifacts, spool`events, core
    ensures fresh(run) && run.Valid() && run.captured == {}
    ensures r.Ok? ==> core.completed && spool.manifests != []
  {
    run := new TenantRun(spool, core, limit);
    var id := ArtifactIdFor(spool.runId, artifact);
    ManifestWithoutChunks(id);
    var saved := spool.SaveManifest(ManifestFor(id, spool.runId, artifact.bytes));
    assert spool.manifests == [ManifestOf(id)];
    run.Restart();
    r := run.Finalize();
  }

  // ---------------------------------------------------------------- replay

  /** The runs have rows of their own, in the spool and on Core. */
  predicate Separate(runs: seq<TenantRun>) {
    forall i, j :: 0 <= i < j < |runs| ==> runs[i].spool != runs[j].spool && runs[i].core != runs[j].core
  }

  /** Replaying one run leaves all others as they were. */
  method ReplayOne(runs: seq<TenantRun>, i: nat, leased: bool) returns (r: Result<(), CoreError>)
    requires Separate(runs) && forall k :: 0 <= k < |runs| ==> runs[k].Valid()
    requires i < |runs| && runs[i].limit.maximumEvents > 0
    modifies runs[i].spool, runs[i].core
    ensures forall k :: 0 <= k < |runs| ==> runs[k].Valid()
    ensures r.Ok? ==> runs[i].Delivered()
    ensures forall k :: 0 <= k < |runs| && k != i ==> unchanged(runs[k].spool) && unchanged(runs[k].core)
    ensures forall k :: 0 <= k < |runs| && k != i && old(runs[k].Delivered()) ==> runs[k].Delivered()
  {
    r := runs[i].Replay(leased);
    forall k | 0 <= k < |runs| && k != i
      ensures runs[k].spool != runs[i].spool && runs[k].core != runs[i].core && runs[k].Valid()
    {
    }
  }

  function Rows(runs: seq<TenantRun>): set<object> {
    (set run | run in runs :: run.spool as object) + (set run | run in runs :: run.core as object)
  }

  /**
   After a reconnect every pending run is replayed in turn; the first error ends the replay.  The runs
   before it are delivered, those behind it are as they were.
   */
  method ReplayPendingRuns(runs: seq<TenantRun>, leased: set<string>) returns (done: nat, r: Result<(), CoreError>)
    requires Separate(runs) && forall k :: 0 <= k < |runs| ==> runs[k].Valid() && runs[k].limit.maximumEvents > 0
    modifies Rows(runs)
    ensures forall k :: 0 <= k < |runs| ==> runs[k].Valid()
    ensures done <= |runs| && (r.Ok? <==> done == |runs|)
    ensures forall i :: 0 <= i < done ==> runs[i].Delivered()
    ensures forall i :: done < i < |runs| ==> unchanged(runs[i].spool) && unchanged(runs[i].core)
  {
    done := 0;
    while done < |runs|
      invariant 0 <= done <= |runs|
      invariant forall k :: 0 <= k < |runs| ==> runs[k].Valid()
      invariant forall i :: 0 <= i < done ==> runs[i].Delivered()
      invariant forall i :: done <= i < |runs| ==> unchanged(runs[i].spool) && unchanged(runs[i].core)
    {
      r := ReplayOne(runs, done, runs[done].spool.runId in leased);
      if r.Err? {
        return;
      }
      done := done + 1;
    }
    return done, Ok(());
  }
}
