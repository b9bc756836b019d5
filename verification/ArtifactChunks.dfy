/**
 Captured artifacts, their manifests and the chunks they travel in.

 A SHA-256 digest is the bytes it was taken of: equal digests mean equal bytes.
 */
module ArtifactChunks {
  import opened Wrappers

  type Bytes = seq<bv8>

  datatype Digest = Sha256(content: Bytes)

  /**
   The identity the runner derives from the run, the artifact's name and its content.  The source
   writes it as text made of truncated digests, which are taken to be collision-free here.
   */
  datatype ArtifactId = ArtifactId(runId: string, name: string, content: Digest, extension: string)

  const CHUNK_SIZE: nat := 256 * 1024

  datatype Manifest = Manifest(artifactId: ArtifactId, runId: string, sizeBytes: nat, sha256: Digest, totalChunks: nat)

  datatype Chunk = Chunk(artifactId: ArtifactId, runId: string, offset: nat, bytes: Bytes)

  function ManifestFor(artifactId: ArtifactId, runId: string, bytes: Bytes): Manifest {
    Manifest(artifactId, runId, |bytes|, Sha256(bytes), (|bytes| + CHUNK_SIZE - 1) / CHUNK_SIZE)
  }

  /** The tile at `offset`, given that it exists. */
  function Tile(artifactId: ArtifactId, runId: string, bytes: Bytes, offset: nat): Chunk
    requires offset < |bytes|
  {
    Chunk(artifactId, runId, offset, bytes[offset..Min(|bytes|, offset + CHUNK_SIZE)])
  }

  /** What an artifact id stands for: its bytes, the manifest the runner sends and the chunk at an offset. */
  function BytesOf(id: ArtifactId): Bytes {
    id.content.content
  }

  function ManifestOf(id: ArtifactId): Manifest {
    ManifestFor(id, id.runId, BytesOf(id))
  }

  function TileOf(id: ArtifactId, offset: nat): Chunk
    requires offset < |BytesOf(id)|
  {
    Tile(id, id.runId, BytesOf(id), offset)
  }

  /** The chunks of `bytes` from `offset` on. */
  function Tiles(artifactId: ArtifactId, runId: string, bytes: Bytes, offset: nat): seq<Chunk>
    decreases |bytes| - offset
  {
    if offset >= |bytes| then []
    else
      [Tile(artifactId, runId, bytes, offset)] + Tiles(artifactId, runId, bytes, offset + CHUNK_SIZE)
  }

  /** The loop of the source: one chunk per step, each a slice of the captured bytes. */
  method ChunksFor(artifactId: ArtifactId, runId: string, bytes: Bytes) returns (chunks: seq<Chunk>)
    ensures chunks == Tiles(artifactId, runId, bytes, 0)
  {
    chunks := [];
    var offset := 0;
    while offset < |bytes|
      invariant chunks + Tiles(artifactId, runId, bytes, offset) == Tiles(artifactId, runId, bytes, 0)
    {
      ghost var rest := Tiles(artifactId, runId, bytes, offset + CHUNK_SIZE);
      var chunk := Chunk(artifactId, runId, offset, bytes[offset..Min(|bytes|, offset + CHUNK_SIZE)]);
      assert chunks + ([chunk] + rest) == (chunks + [chunk]) + rest;
      chunks := chunks + [chunk];
      offset := offset + CHUNK_SIZE;
    }
  }

  function Concat(chunks: seq<Chunk>): Bytes {
    if chunks == [] then [] else chunks[0].bytes + Concat(chunks[1..])
  }

  /**
   Chunking is tiling: as many chunks as the manifest says, the k-th at offset k times the
   chunk size, of full size but for the last, and together they are the captured bytes.
   */
  lemma {:induction false} ChunksTileTheArtifact(artifactId: ArtifactId, runId: string, bytes: Bytes)
    ensures var tiles := Tiles(artifactId, runId, bytes, 0);
      && |tiles| == ManifestFor(artifactId, runId, bytes).totalChunks
      && Concat(tiles) == bytes
      && forall k :: 0 <= k < |tiles| ==>
           && tiles[k].offset == k * CHUNK_SIZE
           && |tiles[k].bytes| == Min(CHUNK_SIZE, |bytes| - k * CHUNK_SIZE) > 0
  {
    ConcatTiles(artifactId, runId, bytes, 0);
    TileCount(artifactId, runId, bytes, 0);
    var tiles := Tiles(artifactId, runId, bytes, 0);
    forall k | 0 <= k < |tiles|
      ensures tiles[k].offset == k * CHUNK_SIZE
      ensures |tiles[k].bytes| == Min(CHUNK_SIZE, |bytes| - k * CHUNK_SIZE) > 0
    {
      TileAt(artifactId, runId, bytes, 0, k);
    }
  }

  lemma {:induction false} ConcatTiles(artifactId: ArtifactId, runId: string, bytes: Bytes, offset: nat)
    ensures Concat(Tiles(artifactId, runId, bytes, offset)) == if offset >= |bytes| then [] else bytes[offset..]
    decreases |bytes| - offset
  {
    if offset < |bytes| {
      ConcatTiles(artifactId, runId, bytes, offset + CHUNK_SIZE);
      assert Tiles(artifactId, runId, bytes, offset)[1..] == Tiles(artifactId, runId, bytes, offset + CHUNK_SIZE);
    }
  }

  lemma {:induction false} TileCount(artifactId: ArtifactId, runId: string, bytes: Bytes, offset: nat)
    ensures |Tiles(artifactId, runId, bytes, offset)|
         == if offset >= |bytes| then 0 else (|bytes| - offset + CHUNK_SIZE - 1) / CHUNK_SIZE
    decreases |bytes| - offset
  {
    if offset < |bytes| {
      TileCount(artifactId, runId, bytes, offset + CHUNK_SIZE);
    }
  }

  lemma {:induction false} TileAt(artifactId: ArtifactId, runId: string, bytes: Bytes, offset: nat, k: nat)
    requires k < |Tiles(artifactId, runId, bytes, offset)|
    ensures offset + k * CHUNK_SIZE < |bytes|
    ensures Tiles(artifactId, runId, bytes, offset)[k] == Tile(artifactId, runId, bytes, offset + k * CHUNK_SIZE)
    decreases k
  {
    if k > 0 {
      TileAt(artifactId, runId, bytes, offset + CHUNK_SIZE, k - 1);
      assert offset + CHUNK_SIZE + (k - 1) * CHUNK_SIZE == offset + k * CHUNK_SIZE;
    }
  }
}
