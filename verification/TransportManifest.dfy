/**
  The transport manifest of a generation: how files are chunked, and how a stored manifest is
  checked when it is read back. JSON text itself is not modelled; a manifest is exchanged as the
  JSON value it is printed from and parsed to.
 */
module TransportManifest {
  import opened Common
  import opened Bytes
  import opened Hashing

  const CHUNK_SIZE := 64 * 1024 * 1024
  const MAX_MANIFEST_BYTES := 2 * 1024 * 1024
  const MAX_GENERATION_FILE_BYTES := 64 * 1024 * 1024 * 1024
  const MAX_GENERATION_BYTES := 128 * 1024 * 1024 * 1024
  const MAX_GENERATION_CHUNKS := 4096
  const FORMAT := "australian-legal-mcp-chunk-transport"
  const FORMAT_VERSION := 1
  const CHUNK_ENCODING := "zstd-v1"
  const GENERATION_FILE := "generation.json"

  datatype Chunk = Chunk(sha256: string, size: int, offset: int)

  datatype FileEntry = FileEntry(path: string, size: int, sha256: string, chunks: seq<Chunk>)

  datatype Manifest = Manifest(generationId: string, generationSha: string, files: seq<FileEntry>)

  function SourceIds(): set<string> {
    {"ato", "federal-court", "frl", "high-court", "nsw-caselaw", "nsw-legislation", "qld-legislation",
     "sa-legislation", "tas-legislation", "wa-legislation"}
  }

  function ExpectedPaths(): set<string> {
    {GENERATION_FILE, "legal.db", "model.onnx", "tokenizer.json"}
    + (set s | s in SourceIds() :: "ann/" + s + ".ann")
    + (set s | s in SourceIds() :: "lexical/" + s + ".db")
  }

  /** Four files of the generation itself, and for every source its vectors and its text index. */
  lemma ExpectedPathsExactly(path: string)
    ensures path in ExpectedPaths() <==>
            || path == "generation.json" || path == "legal.db" || path == "model.onnx" || path == "tokenizer.json"
            || exists source :: source in SourceIds() && (path == "ann/" + source + ".ann" || path == "lexical/" + source + ".db")
  {
    hide SourceIds;
  }

  // ----- tiling -----

  /** `chunks` run on from `from` to `to` without gap or overlap, each between one byte and the chunk size. */
  predicate Tiles(chunks: seq<Chunk>, from: int, to: int) {
    if chunks == [] then from == to
    else
      && chunks[0].offset == from
      && 0 < chunks[0].size <= CHUNK_SIZE
      && Tiles(chunks[1..], from + chunks[0].size, to)
  }

  lemma {:induction false} TilesSnoc(chunks: seq<Chunk>, from: int, to: int, next: Chunk)
    requires Tiles(chunks, from, to) && next.offset == to && 0 < next.size <= CHUNK_SIZE
    ensures Tiles(chunks + [next], from, to + next.size)
  {
    if chunks == [] {
      assert chunks + [next] == [next];
      assert Tiles([next][1..], from + next.size, to + next.size);
    } else {
      assert (chunks + [next])[1..] == chunks[1..] + [next];
      TilesSnoc(chunks[1..], from + chunks[0].size, to, next);
    }
  }

  /** Every chunk of a tiling lies inside, and different chunks are disjoint. */
  lemma {:induction false} TilesInside(chunks: seq<Chunk>, from: int, to: int, i: nat)
    requires Tiles(chunks, from, to) && i < |chunks|
    ensures from <= chunks[i].offset && 0 < chunks[i].size <= CHUNK_SIZE && chunks[i].offset + chunks[i].size <= to
    ensures from < to
  {
    TilesForward(chunks[1..], from + chunks[0].size, to);
    if i > 0 {
      TilesInside(chunks[1..], from + chunks[0].size, to, i - 1);
    }
  }

  lemma {:induction false} TilesForward(chunks: seq<Chunk>, from: int, to: int)
    requires Tiles(chunks, from, to)
    ensures from <= to
  {
    if chunks != [] {
      TilesForward(chunks[1..], from + chunks[0].size, to);
    }
  }

  lemma {:induction false} TilesDisjoint(chunks: seq<Chunk>, from: int, to: int, i: nat, j: nat)
    requires Tiles(chunks, from, to) && i < j < |chunks|
    ensures chunks[i].offset + chunks[i].size <= chunks[j].offset
  {
    if i == 0 {
      TilesInside(chunks[1..], from + chunks[0].size, to, j - 1);
    } else {
      TilesDisjoint(chunks[1..], from + chunks[0].size, to, i - 1, j - 1);
    }
  }

  /** Every position of a tiled range lies in a chunk. */
  lemma {:induction false} TilesCover(chunks: seq<Chunk>, from: int, to: int, at: int) returns (i: nat)
    requires Tiles(chunks, from, to) && from <= at < to
    ensures i < |chunks| && chunks[i].offset <= at < chunks[i].offset + chunks[i].size
  {
    if at < from + chunks[0].size {
      i := 0;
    } else {
      i := TilesCover(chunks[1..], from + chunks[0].size, to, at);
      i := i + 1;
    }
  }

  // ----- describing a generation -----

  /** The entry tiles `data` and carries its digests. */
  ghost predicate Describes(sha: seq<byte> -> string, entry: FileEntry, data: seq<byte>) {
    && entry.size == |data|
    && entry.sha256 == sha(data)
    && Tiles(entry.chunks, 0, |data|)
    && ChunksDescribe(sha, entry.chunks, data)
  }

  ghost predicate ChunksDescribe(sha: seq<byte> -> string, chunks: seq<Chunk>, data: seq<byte>) {
    forall i :: 0 <= i < |chunks| ==>
      && 0 <= chunks[i].offset && 0 <= chunks[i].size && chunks[i].offset + chunks[i].size <= |data|
      && chunks[i].sha256 == sha(data[chunks[i].offset..chunks[i].offset + chunks[i].size])
  }

  /** Every chunk but the last is full. */
  ghost predicate AreFull(chunks: seq<Chunk>, size: int) {
    forall i :: 0 <= i < |chunks| ==> chunks[i].offset + chunks[i].size == Min((i + 1) * CHUNK_SIZE, size)
  }

  lemma DescribeSnoc(sha: seq<byte> -> string, chunks: seq<Chunk>, data: seq<byte>, next: Chunk)
    requires ChunksDescribe(sha, chunks, data)
    requires 0 <= next.offset && 0 <= next.size && next.offset + next.size <= |data|
    requires next.sha256 == sha(data[next.offset..next.offset + next.size])
    ensures ChunksDescribe(sha, chunks + [next], data)
  {
  }

  lemma FullSnoc(chunks: seq<Chunk>, offset: int, size: int, next: Chunk)
    requires AreFull(chunks, size) && offset == Min(|chunks| * CHUNK_SIZE, size) && offset < size
    requires next.offset == offset && next.size == Min(CHUNK_SIZE, size - offset)
    ensures AreFull(chunks + [next], size) && next.offset + next.size == Min((|chunks| + 1) * CHUNK_SIZE, size)
  {
    assert offset == |chunks| * CHUNK_SIZE;
    assert (|chunks| + 1) * CHUNK_SIZE == offset + CHUNK_SIZE;
  }

  datatype Location = Location(path: string, offset: int, size: int)

  datatype BuildError = SizeMismatch(path: string) | DigestMismatch(path: string) | ChunkCollision

  // ----- the blocks of a generation -----

  function Block(data: seq<byte>, k: nat): seq<byte>
    requires k * CHUNK_SIZE <= |data|
  {
    data[k * CHUNK_SIZE..Min((k + 1) * CHUNK_SIZE, |data|)]
  }

  ghost predicate IsBlockOf(data: seq<byte>, piece: seq<byte>) {
    exists k: nat :: k * CHUNK_SIZE < |data| && piece == Block(data, k)
  }

  /** A piece of one of the files, as chunking cuts them. */
  ghost predicate IsBlock(generation: map<string, seq<byte>>, paths: seq<string>, piece: seq<byte>) {
    exists i :: 0 <= i < |paths| && paths[i] in generation && IsBlockOf(generation[paths[i]], piece)
  }

  /** No two blocks of different lengths have the same digest. */
  ghost predicate NoLengthCollision(sha: seq<byte> -> string, generation: map<string, seq<byte>>, paths: seq<string>) {
    forall a, b :: IsBlock(generation, paths, a) && IsBlock(generation, paths, b) && sha(a) == sha(b) ==> |a| == |b|
  }

  /** Every recorded chunk is a block of the generation with that digest. */
  ghost predicate Locates(sha: seq<byte> -> string, generation: map<string, seq<byte>>, paths: seq<string>,
                          unique: map<string, Location>) {
    forall digest :: digest in unique ==> LocatesOne(sha, generation, paths, digest, unique[digest])
  }

  ghost predicate LocatesOne(sha: seq<byte> -> string, generation: map<string, seq<byte>>, paths: seq<string>,
                             digest: string, l: Location) {
    && l.path in generation && 0 <= l.offset && 0 < l.size && l.offset + l.size <= |generation[l.path]|
    && var piece := generation[l.path][l.offset..l.offset + l.size];
       IsBlock(generation, paths, piece) && sha(piece) == digest
  }

  /** The first `n` blocks of `data` are recorded with their lengths. */
  ghost predicate Records(sha: seq<byte> -> string, data: seq<byte>, n: nat, unique: map<string, Location>) {
    forall k: nat :: k < n && k * CHUNK_SIZE < |data| ==>
      sha(Block(data, k)) in unique && unique[sha(Block(data, k))].size == |Block(data, k)|
  }

  ghost predicate Keeps(unique: map<string, Location>, unique': map<string, Location>) {
    forall digest :: digest in unique ==> digest in unique' && unique'[digest] == unique[digest]
  }

  lemma RecordsMore(sha: seq<byte> -> string, data: seq<byte>, n: nat, unique: map<string, Location>, unique': map<string, Location>)
    requires Records(sha, data, n, unique) && Keeps(unique, unique')
    ensures Records(sha, data, n, unique')
  {
    hide Block;
  }

  lemma RecordStep(sha: seq<byte> -> string, data: seq<byte>, n: nat, unique: map<string, Location>)
    requires Records(sha, data, n, unique) && n * CHUNK_SIZE < |data|
    requires sha(Block(data, n)) in unique && unique[sha(Block(data, n))].size == |Block(data, n)|
    ensures Records(sha, data, n + 1, unique)
  {
    hide Block;
  }

  lemma BlockAt(generation: map<string, seq<byte>>, paths: seq<string>, i: nat, offset: nat, n: nat)
    requires i < |paths| && paths[i] in generation && offset == n * CHUNK_SIZE < |generation[paths[i]]|
    ensures var data := generation[paths[i]];
            && data[offset..offset + Min(CHUNK_SIZE, |data| - offset)] == Block(data, n)
            && |Block(data, n)| == Min(CHUNK_SIZE, |data| - offset)
            && IsBlock(generation, paths, Block(data, n))
  {
    assert (n + 1) * CHUNK_SIZE == offset + CHUNK_SIZE;
    assert IsBlockOf(generation[paths[i]], Block(generation[paths[i]], n));
  }

  lemma Collides(sha: seq<byte> -> string, generation: map<string, seq<byte>>, paths: seq<string>,
                 digest: string, l: Location, piece: seq<byte>)
    requires LocatesOne(sha, generation, paths, digest, l) && IsBlock(generation, paths, piece) && sha(piece) == digest
    requires l.size != |piece|
    ensures !NoLengthCollision(sha, generation, paths)
  {
    hide IsBlock;
  }

  /** The chunking loop over one file; it fails only over two blocks of different lengths with one digest. */
  method ChunkFile(sha: seq<byte> -> string, generation: map<string, seq<byte>>, ghost paths: seq<string>, ghost i: nat,
                   path: string, unique: map<string, Location>)
    returns (r: Result<seq<Chunk>, BuildError>, unique': map<string, Location>)
    requires i < |paths| && paths[i] == path && path in generation && Locates(sha, generation, paths, unique)
    ensures r.Ok? ==>
              && Tiles(r.value, 0, |generation[path]|)
              && ChunksDescribe(sha, r.value, generation[path])
              && AreFull(r.value, |generation[path]|)
              && Locates(sha, generation, paths, unique') && Keeps(unique, unique')
              && Records(sha, generation[path], |r.value|, unique') && |generation[path]| <= |r.value| * CHUNK_SIZE
              && unique'.Keys == unique.Keys + Digests(r.value)
    ensures r.Err? ==> r.error == ChunkCollision && !NoLengthCollision(sha, generation, paths)
  {
    hide Tiles, Digests, AreFull, Locates, LocatesOne, ChunksDescribe, Records, Block, IsBlock, NoLengthCollision, Keeps;
    var data := generation[path];
    var chunks: seq<Chunk> := [];
    unique' := unique;
    var offset := 0;
    NothingChunked(sha, data, unique);
    while offset < |data|
      invariant 0 <= offset <= |data|
      invariant Tiles(chunks, 0, offset) && ChunksDescribe(sha, chunks, data)
      invariant AreFull(chunks, |data|) && offset == Min(|chunks| * CHUNK_SIZE, |data|)
      invariant Locates(sha, generation, paths, unique') && Keeps(unique, unique')
      invariant Records(sha, data, |chunks|, unique')
      invariant unique'.Keys == unique.Keys + Digests(chunks)
      decreases |data| - offset
    {
      var size := Min(CHUNK_SIZE, |data| - offset);
      var digest := sha(data[offset..offset + size]);
      var chunk := Chunk(digest, size, offset);
      BlockAt(generation, paths, i, offset, |chunks|);
      TilesSnoc(chunks, 0, offset, chunk);
      FullSnoc(chunks, offset, |data|, chunk);
      DigestsSnoc(chunks, chunk);
      DescribeSnoc(sha, chunks, data, chunk);
      chunks := chunks + [chunk];
      if digest in unique' && unique'[digest].size != size {
        LocatedAt(sha, generation, paths, unique', digest);
        Collides(sha, generation, paths, digest, unique'[digest], data[offset..offset + size]);
        return Err(ChunkCollision), unique';
      }
      ghost var before := unique';
      if digest !in unique' {
        LocateStep(sha, generation, paths, unique', digest, Location(path, offset, size));
        unique' := unique'[digest := Location(path, offset, size)];
      }
      KeepsStep(unique, before, unique', digest);
      RecordsMore(sha, data, |chunks| - 1, before, unique');
      RecordStep(sha, data, |chunks| - 1, unique');
      offset := offset + size;
    }
    return Ok(chunks), unique';
  }

  lemma NothingChunked(sha: seq<byte> -> string, data: seq<byte>, unique: map<string, Location>)
    ensures Tiles([], 0, 0) && ChunksDescribe(sha, [], data) && AreFull([], |data|) && Digests([]) == {}
    ensures Records(sha, data, 0, unique) && Keeps(unique, unique)
  {
  }

  lemma KeepsStep(unique: map<string, Location>, before: map<string, Location>, after: map<string, Location>, digest: string)
    requires Keeps(unique, before)
    requires after == before || (digest !in before && digest in after && after == before[digest := after[digest]])
    ensures Keeps(unique, after) && Keeps(before, after)
  {
  }

  lemma LocatedAt(sha: seq<byte> -> string, generation: map<string, seq<byte>>, paths: seq<string>,
                  unique: map<string, Location>, digest: string)
    requires Locates(sha, generation, paths, unique) && digest in unique
    ensures LocatesOne(sha, generation, paths, digest, unique[digest])
  {
  }

  lemma LocateStep(sha: seq<byte> -> string, generation: map<string, seq<byte>>, paths: seq<string>,
                   unique: map<string, Location>, digest: string, at: Location)
    requires Locates(sha, generation, paths, unique)
    requires at.path in generation && 0 <= at.offset && 0 < at.size && at.offset + at.size <= |generation[at.path]|
    requires IsBlock(generation, paths, generation[at.path][at.offset..at.offset + at.size])
    requires digest == sha(generation[at.path][at.offset..at.offset + at.size])
    ensures Locates(sha, generation, paths, unique[digest := at])
  {
    hide IsBlock;
  }

  ghost function Digests(chunks: seq<Chunk>): set<string> {
    set i | 0 <= i < |chunks| :: chunks[i].sha256
  }

  lemma NoChunks(at: int)
    ensures Tiles([], at, at) && Digests([]) == {}
  {
  }

  lemma DigestsSnoc(chunks: seq<Chunk>, chunk: Chunk)
    ensures Digests(chunks + [chunk]) == Digests(chunks) + {chunk.sha256}
  {
    var all := chunks + [chunk];
    assert all[|chunks|] == chunk;
    assert forall i :: 0 <= i < |chunks| ==> all[i] == chunks[i];
  }

  // ----- building -----

  datatype Expected = Expected(size: int, sha256: string)

  ghost function FileDigests(files: seq<FileEntry>): set<string> {
    if files == [] then {} else FileDigests(files[..|files| - 1]) + Digests(files[|files| - 1].chunks)
  }

  /** `m` is the manifest that chunking the generation in path order gives. */
  ghost predicate IsManifestOf(sha: seq<byte> -> string, m: Manifest, generation: map<string, seq<byte>>, paths: seq<string>) {
    && |m.files| == |paths|
    && forall i :: 0 <= i < |paths| ==>
         m.files[i].path == paths[i] && paths[i] in generation && Describes(sha, m.files[i], generation[paths[i]])
         && AreFull(m.files[i].chunks, m.files[i].size)
  }

  /** Whether the files are those expected. */
  ghost predicate IsExpected(sha: seq<byte> -> string, generation: map<string, seq<byte>>, expected: map<string, Expected>,
                             paths: seq<string>) {
    forall i :: 0 <= i < |paths| ==>
      && paths[i] in generation && paths[i] in expected
      && expected[paths[i]] == Expected(|generation[paths[i]]|, sha(generation[paths[i]]))
  }

  ghost predicate AllRecorded(sha: seq<byte> -> string, generation: map<string, seq<byte>>, paths: seq<string>, n: nat,
                              unique: map<string, Location>) {
    forall i :: 0 <= i < n && i < |paths| ==>
      paths[i] in generation && FileRecorded(sha, generation[paths[i]], unique)
  }

  ghost predicate FileRecorded(sha: seq<byte> -> string, data: seq<byte>, unique: map<string, Location>) {
    exists n: nat :: Records(sha, data, n, unique) && |data| <= n * CHUNK_SIZE
  }

  lemma AllRecordedStep(sha: seq<byte> -> string, generation: map<string, seq<byte>>, paths: seq<string>, n: nat,
                        unique: map<string, Location>, unique': map<string, Location>, count: nat)
    requires AllRecorded(sha, generation, paths, n, unique) && Keeps(unique, unique') && n < |paths| && paths[n] in generation
    requires Records(sha, generation[paths[n]], count, unique') && |generation[paths[n]]| <= count * CHUNK_SIZE
    ensures AllRecorded(sha, generation, paths, n + 1, unique')
  {
    hide Records, Keeps;
    assert FileRecorded(sha, generation[paths[n]], unique');
    forall i | 0 <= i < n ensures paths[i] in generation && FileRecorded(sha, generation[paths[i]], unique') {
      assert FileRecorded(sha, generation[paths[i]], unique);
      var k: nat :| Records(sha, generation[paths[i]], k, unique) && |generation[paths[i]]| <= k * CHUNK_SIZE;
      RecordsMore(sha, generation[paths[i]], k, unique, unique');
    }
  }

  lemma BlockIsRecorded(sha: seq<byte> -> string, generation: map<string, seq<byte>>, paths: seq<string>,
                        unique: map<string, Location>, piece: seq<byte>)
    requires AllRecorded(sha, generation, paths, |paths|, unique) && IsBlock(generation, paths, piece)
    ensures sha(piece) in unique && unique[sha(piece)].size == |piece|
  {
    hide Block, Records;
    var i :| 0 <= i < |paths| && paths[i] in generation && IsBlockOf(generation[paths[i]], piece);
    var data := generation[paths[i]];
    var k: nat :| k * CHUNK_SIZE < |data| && piece == Block(data, k);
    assert FileRecorded(sha, data, unique);
    var n: nat :| Records(sha, data, n, unique) && |data| <= n * CHUNK_SIZE;
    RecordedAt(sha, data, n, unique, k);
  }

  lemma RecordedAt(sha: seq<byte> -> string, data: seq<byte>, n: nat, unique: map<string, Location>, k: nat)
    requires Records(sha, data, n, unique) && k * CHUNK_SIZE < |data| <= n * CHUNK_SIZE
    ensures sha(Block(data, k)) in unique && unique[sha(Block(data, k))].size == |Block(data, k)|
  {
    hide Block;
    assert k < n;
  }

  lemma RecordedHasNoCollision(sha: seq<byte> -> string, generation: map<string, seq<byte>>, paths: seq<string>,
                               unique: map<string, Location>)
    requires AllRecorded(sha, generation, paths, |paths|, unique)
    ensures NoLengthCollision(sha, generation, paths)
  {
    hide IsBlock, AllRecorded;
    forall a, b | IsBlock(generation, paths, a) && IsBlock(generation, paths, b) && sha(a) == sha(b) ensures |a| == |b| {
      BlockIsRecorded(sha, generation, paths, unique, a);
      BlockIsRecorded(sha, generation, paths, unique, b);
    }
  }

  /**
    One entry a path. Building succeeds exactly when sizes and whole-file digests are the expected
    ones and no two blocks of different lengths share a digest.
   */
  method BuildManifest(sha: seq<byte> -> string, generationId: string, generation: map<string, seq<byte>>,
                       expected: map<string, Expected>, paths: seq<string>)
    returns (r: Result<Manifest, BuildError>, unique: map<string, Location>)
    requires forall i :: 0 <= i < |paths| ==> paths[i] in generation && paths[i] in expected
    requires GENERATION_FILE in expected
    ensures r.Ok? <==> IsExpected(sha, generation, expected, paths) && NoLengthCollision(sha, generation, paths)
    ensures r.Ok? ==>
              && IsManifestOf(sha, r.value, generation, paths)
              && r.value.generationId == generationId && r.value.generationSha == expected[GENERATION_FILE].sha256
              && Locates(sha, generation, paths, unique)
              && unique.Keys == FileDigests(r.value.files)
  {
    hide Locates, Tiles, ChunksDescribe, Digests, AreFull, Records, NoLengthCollision, AllRecorded, Keeps, Describes;
    unique := map[];
    NothingLocated(sha, generation, paths);
    var files: seq<FileEntry> := [];
    for i := 0 to |paths|
      invariant |files| == i && Locates(sha, generation, paths, unique) && unique.Keys == FileDigests(files)
      invariant AllRecorded(sha, generation, paths, i, unique)
      invariant forall k :: 0 <= k < i ==>
                  files[k].path == paths[k] && Describes(sha, files[k], generation[paths[k]])
                  && AreFull(files[k].chunks, files[k].size)
      invariant forall k :: 0 <= k < i ==>
                  expected[paths[k]] == Expected(|generation[paths[k]]|, sha(generation[paths[k]]))
    {
      var path := paths[i];
      var data := generation[path];
      if |data| != expected[path].size {
        return Err(SizeMismatch(path)), unique;
      }
      var chunks;
      ghost var before := unique;
      chunks, unique := ChunkFile(sha, generation, paths, i, path, unique);
      if chunks.Err? {
        return Err(chunks.error), unique;
      }
      if sha(data) != expected[path].sha256 {
        return Err(DigestMismatch(path)), unique;
      }
      AllRecordedStep(sha, generation, paths, i, before, unique, |chunks.value|);
      var entry := FileEntry(path, |data|, expected[path].sha256, chunks.value);
      EntryDescribes(sha, entry, data);
      assert (files + [entry])[..i] == files;
      files := files + [entry];
    }
    RecordedHasNoCollision(sha, generation, paths, unique);
    return Ok(Manifest(generationId, expected[GENERATION_FILE].sha256, files)), unique;
  }

  lemma EntryDescribes(sha: seq<byte> -> string, entry: FileEntry, data: seq<byte>)
    requires entry.size == |data| && entry.sha256 == sha(data)
    requires Tiles(entry.chunks, 0, |data|) && ChunksDescribe(sha, entry.chunks, data)
    ensures Describes(sha, entry, data)
  {
  }

  lemma NothingLocated(sha: seq<byte> -> string, generation: map<string, seq<byte>>, paths: seq<string>)
    ensures Locates(sha, generation, paths, map[]) && AllRecorded(sha, generation, paths, 0, map[])
  {
  }
}
