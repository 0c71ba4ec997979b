/** Chunking as a function, and a generation that is built but refused when its manifest is read back. */
module ManifestLimits {
  import opened Common
  import opened Bytes
  import opened Hashing
  import opened TransportManifest
  import opened TextOrder
  import ManifestParsing

  function BlockCount(data: seq<byte>): nat {
    (|data| + CHUNK_SIZE - 1) / CHUNK_SIZE
  }

  ghost function ChunkAt(sha: seq<byte> -> string, data: seq<byte>, k: nat): Chunk
    requires k * CHUNK_SIZE <= |data|
  {
    Chunk(sha(Block(data, k)), |Block(data, k)|, k * CHUNK_SIZE)
  }

  lemma BlockFits(data: seq<byte>, k: nat)
    requires k < BlockCount(data)
    ensures k * CHUNK_SIZE < |data|
  {
  }

  ghost function ChunksUpto(sha: seq<byte> -> string, data: seq<byte>, n: nat): seq<Chunk>
    requires n <= BlockCount(data)
  {
    if n == 0 then []
    else
      BlockFits(data, n - 1);
      ChunksUpto(sha, data, n - 1) + [ChunkAt(sha, data, n - 1)]
  }

  lemma {:induction false} ChunksTile(sha: seq<byte> -> string, data: seq<byte>, n: nat)
    requires n <= BlockCount(data)
    ensures var chunks := ChunksUpto(sha, data, n);
            && |chunks| == n && Tiles(chunks, 0, Min(n * CHUNK_SIZE, |data|))
            && ChunksDescribe(sha, chunks, data) && AreFull(chunks, |data|)
  {
    hide Tiles, ChunksDescribe, AreFull, Block;
    if n == 0 {
      NothingChunked(sha, data, map[]);
    } else {
      var k := n - 1;
      BlockFits(data, k);
      ChunksTile(sha, data, k);
      var chunks, chunk := ChunksUpto(sha, data, k), ChunkAt(sha, data, k);
      BlockBounds(data, k);
      TilesSnoc(chunks, 0, k * CHUNK_SIZE, chunk);
      FullSnoc(chunks, k * CHUNK_SIZE, |data|, chunk);
      DescribeSnoc(sha, chunks, data, chunk);
    }
  }

  lemma BlockBounds(data: seq<byte>, k: nat)
    requires k * CHUNK_SIZE < |data|
    ensures |Block(data, k)| == Min(CHUNK_SIZE, |data| - k * CHUNK_SIZE)
    ensures Block(data, k) == data[k * CHUNK_SIZE..k * CHUNK_SIZE + |Block(data, k)|]
    ensures Min((k + 1) * CHUNK_SIZE, |data|) == k * CHUNK_SIZE + |Block(data, k)|
  {
    assert (k + 1) * CHUNK_SIZE == k * CHUNK_SIZE + CHUNK_SIZE;
  }

  ghost function EntryOf(sha: seq<byte> -> string, path: string, data: seq<byte>): FileEntry {
    FileEntry(path, |data|, sha(data), ChunksUpto(sha, data, BlockCount(data)))
  }

  lemma EntryIsRight(sha: seq<byte> -> string, path: string, data: seq<byte>)
    ensures Describes(sha, EntryOf(sha, path, data), data) && AreFull(EntryOf(sha, path, data).chunks, |data|)
  {
    hide Tiles, ChunksDescribe, AreFull, ChunksUpto;
    ChunksTile(sha, data, BlockCount(data));
    assert |data| <= BlockCount(data) * CHUNK_SIZE;
  }

  ghost function ManifestOf(sha: seq<byte> -> string, id: string, generation: map<string, seq<byte>>, paths: seq<string>): Manifest
    requires GENERATION_FILE in generation && forall i :: 0 <= i < |paths| ==> paths[i] in generation
  {
    Manifest(id, sha(generation[GENERATION_FILE]),
             seq(|paths|, i requires 0 <= i < |paths| => EntryOf(sha, paths[i], generation[paths[i]])))
  }

  /** Every generation has a manifest. */
  lemma EveryGenerationHasManifest(sha: seq<byte> -> string, id: string, generation: map<string, seq<byte>>, paths: seq<string>)
    requires GENERATION_FILE in generation && forall i :: 0 <= i < |paths| ==> paths[i] in generation
    ensures IsManifestOf(sha, ManifestOf(sha, id, generation, paths), generation, paths)
  {
    hide Describes, AreFull, ChunksUpto;
    forall i | 0 <= i < |paths|
      ensures var e := EntryOf(sha, paths[i], generation[paths[i]]);
              Describes(sha, e, generation[paths[i]]) && AreFull(e.chunks, e.size)
    {
      EntryIsRight(sha, paths[i], generation[paths[i]]);
    }
  }

  // ----- the order of a set of paths -----

  /** Any set of paths can be walked in order. */
  lemma PathsInOrder(names: set<string>) returns (paths: seq<string>)
    ensures forall i, j :: 0 <= i < j < |paths| ==> Before(paths[i], paths[j])
    ensures forall path :: path in paths <==> path in names
  {
    hide Before, ManifestParsing.SortByPath;
    var all := Enumerated(names);
    var files := seq(|all|, i requires 0 <= i < |all| => FileEntry(all[i], 0, "", []));
    ManifestParsing.SortKeeps(files);
    var sorted := ManifestParsing.SortByPath(files);
    paths := seq(|sorted|, i requires 0 <= i < |sorted| => sorted[i].path);
    forall path ensures path in paths <==> path in names {
      if path in paths {
        var i :| 0 <= i < |paths| && paths[i] == path;
        var j := Occurs(sorted, files, i);
        assert all[j] == path;
      }
      if path in names {
        var i :| 0 <= i < |all| && all[i] == path;
        var j := Occurs(files, sorted, i);
        assert paths[j] == path;
      }
    }
  }

  // ----- a generation over the limits -----

  /** The database is one byte too large; every other file is one byte. */
  ghost function Oversize(): map<string, seq<byte>> {
    map path | path in ExpectedPaths() :: if path == "legal.db" then Zeros(MAX_GENERATION_FILE_BYTES + 1) else Zeros(1)
  }

  lemma ZeroBlock(n: nat, k: nat)
    requires k * CHUNK_SIZE < n && (n == 1 || n % CHUNK_SIZE == 1)
    ensures Block(Zeros(n), k) == Zeros(CHUNK_SIZE) || Block(Zeros(n), k) == Zeros(1)
  {
    BlockBounds(Zeros(n), k);
    var size := |Block(Zeros(n), k)|;
    assert size == CHUNK_SIZE || size == 1;
    assert Block(Zeros(n), k) == Zeros(size);
  }

  /** It builds, and its manifest is refused, whatever its printed length. */
  lemma OversizeIsRefused() returns (sha: seq<byte> -> string, paths: seq<string>, m: Manifest)
    ensures IsSha(sha) && ManifestParsing.ArePaths(paths) && IsManifestOf(sha, m, Oversize(), paths)
    ensures NoLengthCollision(sha, Oversize(), paths)
    ensures forall length, read :: !(ManifestParsing.Accepts(ManifestParsing.ManifestJson(m), length, m.generationId, read))
  {
    hide ExpectedPaths, Before, IsSha, Block, ManifestParsing.ManifestJson, ManifestParsing.EntryJson, IsManifestOf;
    hide ManifestParsing.EntryIsValid, ManifestParsing.BindsGeneration, ManifestParsing.Paths;
    var known := {Zeros(CHUNK_SIZE), Zeros(1)};
    ManyDigests(64);
    assert |{Zeros(1)}| == 1 && |known| <= 2;
    sha := Distinguishable(known);
    paths := PathsInOrder(ExpectedPaths());
    var generation := Oversize();
    ManifestParsing.GenerationFileIsExpected();
    DatabaseIsExpected();
    assert forall i :: 0 <= i < |paths| ==> paths[i] in paths;
    EveryGenerationHasManifest(sha, "", generation, paths);
    m := ManifestOf(sha, "", generation, paths);
    forall a | IsBlock(generation, paths, a) ensures a in known {
      BlockIsZeros(paths, a);
    }
    assert "legal.db" in paths;
    var i :| 0 <= i < |paths| && paths[i] == "legal.db";
    TooLargeIsRefused(sha, m, generation, paths, i);
  }

  /** The manifest of any generation with a file over the size limit is refused. */
  lemma TooLargeIsRefused(sha: seq<byte> -> string, m: Manifest, generation: map<string, seq<byte>>, paths: seq<string>, i: nat)
    requires IsManifestOf(sha, m, generation, paths) && i < |paths| && |generation[paths[i]]| > MAX_GENERATION_FILE_BYTES
    ensures forall length, read :: !(ManifestParsing.Accepts(ManifestParsing.ManifestJson(m), length, m.generationId, read))
  {
    hide ExpectedPaths, ManifestParsing.ManifestJson, ManifestParsing.IsValid, Tiles, ChunksDescribe, AreFull;
    assert Describes(sha, m.files[i], generation[paths[i]]);
    forall length, read: Manifest
      ensures !ManifestParsing.Accepts(ManifestParsing.ManifestJson(m), length, m.generationId, read)
    {
      if ManifestParsing.Accepts(ManifestParsing.ManifestJson(m), length, m.generationId, read) {
        ManifestParsing.ManifestsAreSpeltOnce(ManifestParsing.ManifestJson(m), m, read);
        TooLargeIsInvalid(read, i);
      }
    }
  }

  lemma TooLargeIsInvalid(m: Manifest, i: nat)
    requires i < |m.files| && m.files[i].size > MAX_GENERATION_FILE_BYTES
    ensures !ManifestParsing.IsValid(m)
  {
    hide ExpectedPaths, Tiles;
    assert !ManifestParsing.EntryIsValid(m.files[i]);
  }

  lemma DatabaseIsExpected()
    ensures "legal.db" in ExpectedPaths()
  {
  }

  lemma BlockIsZeros(paths: seq<string>, piece: seq<byte>)
    requires IsBlock(Oversize(), paths, piece)
    ensures piece == Zeros(CHUNK_SIZE) || piece == Zeros(1)
  {
    hide ExpectedPaths, Block;
    var i :| 0 <= i < |paths| && paths[i] in Oversize() && IsBlockOf(Oversize()[paths[i]], piece);
    var data := Oversize()[paths[i]];
    var k: nat :| k * CHUNK_SIZE < |data| && piece == Block(data, k);
    ZeroBlock(|data|, k);
  }
}
