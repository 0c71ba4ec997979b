/**
  Reading a transport manifest back: the checks made on the parsed JSON value, the order of the
  files, and the round trip with the manifest that was built.
 */
module ManifestParsing {
  import opened Common
  import opened Bytes
  import opened Hashing
  import opened TransportManifest
  import opened TextOrder

  datatype Json = JInt(number: int) | JText(text: string) | JList(items: seq<Json>) | JObject(fields: map<string, Json>) | JOther

  const TOP_KEYS := {"format", "format_version", "generation_id", "chunk_size", "chunk_encoding", "generation_manifest_sha256", "files"}
  const ENTRY_KEYS := {"path", "size", "sha256", "chunks"}
  const CHUNK_KEYS := {"offset", "size", "sha256"}

  function ChunkJson(c: Chunk): Json {
    JObject(map["offset" := JInt(c.offset), "size" := JInt(c.size), "sha256" := JText(c.sha256)])
  }

  function EntryJson(e: FileEntry): Json {
    JObject(map[
              "path" := JText(e.path),
              "size" := JInt(e.size),
              "sha256" := JText(e.sha256),
              "chunks" := JList(seq(|e.chunks|, i requires 0 <= i < |e.chunks| => ChunkJson(e.chunks[i])))
            ])
  }

  function ManifestJson(m: Manifest): Json {
    JObject(map[
              "format" := JText(FORMAT),
              "format_version" := JInt(FORMAT_VERSION),
              "generation_id" := JText(m.generationId),
              "chunk_size" := JInt(CHUNK_SIZE),
              "chunk_encoding" := JText(CHUNK_ENCODING),
              "generation_manifest_sha256" := JText(m.generationSha),
              "files" := JList(seq(|m.files|, i requires 0 <= i < |m.files| => EntryJson(m.files[i])))
            ])
  }

  predicate SpellChunks(items: seq<Json>, chunks: seq<Chunk>) {
    |items| == |chunks| && forall i :: 0 <= i < |chunks| ==> items[i] == ChunkJson(chunks[i])
  }

  predicate SpellFiles(items: seq<Json>, files: seq<FileEntry>) {
    |items| == |files| && forall i :: 0 <= i < |files| ==> items[i] == EntryJson(files[i])
  }

  lemma ChunkJsonIsExact(a: Chunk, b: Chunk)
    requires ChunkJson(a) == ChunkJson(b)
    ensures a == b
  {
    assert ChunkJson(a).fields["offset"].number == ChunkJson(b).fields["offset"].number;
    assert ChunkJson(a).fields["size"].number == ChunkJson(b).fields["size"].number;
    assert ChunkJson(a).fields["sha256"].text == ChunkJson(b).fields["sha256"].text;
  }

  lemma ChunksAreSpeltOnce(items: seq<Json>, a: seq<Chunk>, b: seq<Chunk>)
    requires SpellChunks(items, a) && SpellChunks(items, b)
    ensures a == b
  {
    forall i | 0 <= i < |a| ensures a[i] == b[i] {
      ChunkJsonIsExact(a[i], b[i]);
    }
  }

  /** A JSON object is the spelling of an entry exactly when its fields are those of the entry. */
  lemma EntrySpelling(j: Json, e: FileEntry)
    ensures j == EntryJson(e) <==>
            && j.JObject? && j.fields.Keys == ENTRY_KEYS
            && j.fields["path"] == JText(e.path) && j.fields["size"] == JInt(e.size) && j.fields["sha256"] == JText(e.sha256)
            && j.fields["chunks"].JList? && SpellChunks(j.fields["chunks"].items, e.chunks)
  {
    var spelt := EntryJson(e);
    assert spelt.fields.Keys == ENTRY_KEYS;
    assert SpellChunks(spelt.fields["chunks"].items, e.chunks);
    if && j.JObject? && j.fields.Keys == ENTRY_KEYS
       && j.fields["path"] == JText(e.path) && j.fields["size"] == JInt(e.size) && j.fields["sha256"] == JText(e.sha256)
       && j.fields["chunks"].JList? && SpellChunks(j.fields["chunks"].items, e.chunks)
    {
      assert j.fields["chunks"].items == spelt.fields["chunks"].items;
      assert j.fields == spelt.fields;
    }
  }

  lemma EntriesAreSpeltOnce(j: Json, a: FileEntry, b: FileEntry)
    requires j == EntryJson(a) && j == EntryJson(b)
    ensures a == b
  {
    EntrySpelling(j, a);
    EntrySpelling(j, b);
    ChunksAreSpeltOnce(j.fields["chunks"].items, a.chunks, b.chunks);
  }

  lemma TopSpelling(j: Json, m: Manifest)
    ensures j == ManifestJson(m) <==>
            && j.JObject? && j.fields.Keys == TOP_KEYS
            && j.fields["format"] == JText(FORMAT) && j.fields["format_version"] == JInt(FORMAT_VERSION)
            && j.fields["generation_id"] == JText(m.generationId) && j.fields["chunk_size"] == JInt(CHUNK_SIZE)
            && j.fields["chunk_encoding"] == JText(CHUNK_ENCODING)
            && j.fields["generation_manifest_sha256"] == JText(m.generationSha)
            && j.fields["files"].JList? && SpellFiles(j.fields["files"].items, m.files)
  {
    var spelt := ManifestJson(m);
    assert spelt.fields.Keys == TOP_KEYS;
    assert SpellFiles(spelt.fields["files"].items, m.files);
    if && j.JObject? && j.fields.Keys == TOP_KEYS
       && j.fields["format"] == JText(FORMAT) && j.fields["format_version"] == JInt(FORMAT_VERSION)
       && j.fields["generation_id"] == JText(m.generationId) && j.fields["chunk_size"] == JInt(CHUNK_SIZE)
       && j.fields["chunk_encoding"] == JText(CHUNK_ENCODING)
       && j.fields["generation_manifest_sha256"] == JText(m.generationSha)
       && j.fields["files"].JList? && SpellFiles(j.fields["files"].items, m.files)
    {
      assert j.fields["files"].items == spelt.fields["files"].items;
      assert j.fields == spelt.fields;
    }
  }

  /** What a printed manifest says of itself. */
  lemma PrintedConstants(m: Manifest)
    ensures ManifestJson(m).JObject?
    ensures var fields := ManifestJson(m).fields;
            && fields.Keys == {"format", "format_version", "generation_id", "chunk_size", "chunk_encoding",
                               "generation_manifest_sha256", "files"}
            && fields["format"] == JText("australian-legal-mcp-chunk-transport") && fields["format_version"] == JInt(1)
            && fields["chunk_size"] == JInt(67108864) && fields["chunk_encoding"] == JText("zstd-v1")
            && fields["generation_id"] == JText(m.generationId) && fields["generation_manifest_sha256"] == JText(m.generationSha)
  {
    hide EntryJson;
    TopSpelling(ManifestJson(m), m);
  }

  lemma ManifestsAreSpeltOnce(j: Json, a: Manifest, b: Manifest)
    requires j == ManifestJson(a) && j == ManifestJson(b)
    ensures a == b
  {
    hide ManifestJson, EntryJson, SpellFiles;
    TopSpelling(j, a);
    TopSpelling(j, b);
    FilesAreSpeltOnce(j.fields["files"].items, a.files, b.files);
  }

  // ----- what is accepted -----

  predicate ChunksAreValid(chunks: seq<Chunk>, size: int) {
    && chunks != []
    && Tiles(chunks, 0, size)
    && forall i :: 0 <= i < |chunks| ==> IsDigest(chunks[i].sha256)
  }

  predicate EntryIsValid(e: FileEntry) {
    && e.path in ExpectedPaths()
    && 0 < e.size <= MAX_GENERATION_FILE_BYTES
    && IsDigest(e.sha256)
    && ChunksAreValid(e.chunks, e.size)
  }

  ghost predicate DistinctPaths(files: seq<FileEntry>) {
    forall i, j :: 0 <= i < j < |files| ==> files[i].path != files[j].path
  }

  function Paths(files: seq<FileEntry>): set<string> {
    set i | 0 <= i < |files| :: files[i].path
  }

  function TotalSize(files: seq<FileEntry>): int {
    if files == [] then 0 else TotalSize(files[..|files| - 1]) + files[|files| - 1].size
  }

  function TotalChunks(files: seq<FileEntry>): int {
    if files == [] then 0 else TotalChunks(files[..|files| - 1]) + |files[|files| - 1].chunks|
  }

  predicate WithinTotals(files: seq<FileEntry>) {
    TotalSize(files) <= MAX_GENERATION_BYTES && TotalChunks(files) <= MAX_GENERATION_CHUNKS
  }

  ghost predicate FilesAreValid(files: seq<FileEntry>) {
    && DistinctPaths(files)
    && WithinTotals(files)
    && forall i :: 0 <= i < |files| ==> EntryIsValid(files[i])
  }

  ghost predicate BindsGeneration(files: seq<FileEntry>, generationSha: string) {
    exists i :: 0 <= i < |files| && files[i].path == GENERATION_FILE && files[i].sha256 == generationSha
  }

  ghost predicate IsValid(m: Manifest) {
    && FilesAreValid(m.files)
    && Paths(m.files) == ExpectedPaths()
    && IsDigest(m.generationSha)
    && BindsGeneration(m.files, m.generationSha)
  }

  /** `raw`, printed in `length` bytes, spells a valid manifest of the expected generation. */
  ghost predicate Accepts(raw: Json, length: nat, expected: string, m: Manifest) {
    && length <= MAX_MANIFEST_BYTES
    && m.generationId == expected
    && raw == ManifestJson(m)
    && IsValid(m)
  }

  // ----- parsing -----

  method ParseChunks(items: seq<Json>, size: int) returns (r: Option<seq<Chunk>>)
    requires items != []
    ensures r.Some? ==> SpellChunks(items, r.value) && ChunksAreValid(r.value, size)
    ensures forall chunks :: SpellChunks(items, chunks) && ChunksAreValid(chunks, size) ==> r == Some(chunks)
  {
    hide Tiles, IsDigest;
    var chunks: seq<Chunk> := [];
    var offset := 0;
    NoChunks(0);
    for i := 0 to |items|
      invariant |chunks| == i && Tiles(chunks, 0, offset)
      invariant forall k :: 0 <= k < i ==> items[k] == ChunkJson(chunks[k]) && IsDigest(chunks[k].sha256)
    {
      var j := items[i];
      if && j.JObject? && j.fields.Keys == CHUNK_KEYS
         && j.fields["offset"] == JInt(offset)
         && j.fields["size"].JInt? && 0 < j.fields["size"].number <= CHUNK_SIZE && offset + j.fields["size"].number <= size
         && j.fields["sha256"].JText? && IsDigest(j.fields["sha256"].text)
      {
        var chunk := Chunk(j.fields["sha256"].text, j.fields["size"].number, offset);
        assert j.fields == ChunkJson(chunk).fields;
        TilesSnoc(chunks, 0, offset, chunk);
        chunks := chunks + [chunk];
        offset := offset + chunk.size;
      } else {
        forall other | SpellChunks(items, other) && ChunksAreValid(other, size) ensures false {
          ChunkIsRejected(items, other, size, chunks, offset, i);
        }
        return None;
      }
    }
    if offset != size {
      forall other | SpellChunks(items, other) && ChunksAreValid(other, size) ensures false {
        ChunksAreSpeltOnce(items, other, chunks);
        TilesOneWay(chunks, 0, offset, size);
      }
      return None;
    }
    forall other | SpellChunks(items, other) ensures other == chunks {
      ChunksAreSpeltOnce(items, other, chunks);
    }
    return Some(chunks);
  }

  lemma {:induction false} TilesOneWay(chunks: seq<Chunk>, from: int, a: int, b: int)
    requires Tiles(chunks, from, a) && Tiles(chunks, from, b)
    ensures a == b
  {
    if chunks != [] {
      TilesOneWay(chunks[1..], from + chunks[0].size, a, b);
    }
  }

  /** The first `i` chunks of a tiling end where the next begins. */
  lemma {:induction false} TilesSplit(chunks: seq<Chunk>, from: int, to: int, i: nat)
    requires Tiles(chunks, from, to) && i < |chunks|
    ensures Tiles(chunks[..i], from, chunks[i].offset)
    ensures 0 < chunks[i].size <= CHUNK_SIZE && chunks[i].offset + chunks[i].size <= to
  {
    if i > 0 {
      TilesSplit(chunks[1..], from + chunks[0].size, to, i - 1);
      assert chunks[..i][1..] == chunks[1..][..i - 1];
      assert chunks[..i][0] == chunks[0];
    } else {
      TilesForward(chunks[1..], from + chunks[0].size, to);
    }
  }

  /** Whatever valid chunks the items spell pass the checks the loop makes on item `i`. */
  lemma ChunkIsRejected(items: seq<Json>, other: seq<Chunk>, size: int, chunks: seq<Chunk>, offset: int, i: nat)
    requires SpellChunks(items, other) && ChunksAreValid(other, size) && i < |items|
    requires |chunks| == i && Tiles(chunks, 0, offset)
    requires forall k :: 0 <= k < i ==> items[k] == ChunkJson(chunks[k])
    ensures var j := items[i];
            && j.JObject? && j.fields.Keys == CHUNK_KEYS
            && j.fields["offset"] == JInt(offset)
            && j.fields["size"].JInt? && 0 < j.fields["size"].number <= CHUNK_SIZE && offset + j.fields["size"].number <= size
            && j.fields["sha256"].JText? && IsDigest(j.fields["sha256"].text)
  {
    hide Tiles, IsDigest;
    ChunksAreSpeltOnce(items[..i], other[..i], chunks);
    TilesSplit(other, 0, size, i);
    TilesOneWay(chunks, 0, offset, other[i].offset);
  }

  method ParseEntry(j: Json) returns (r: Option<FileEntry>)
    ensures r.Some? ==> j == EntryJson(r.value) && EntryIsValid(r.value)
    ensures forall e :: j == EntryJson(e) && EntryIsValid(e) ==> r == Some(e)
  {
    hide EntryJson, ChunksAreValid, SpellChunks, ExpectedPaths, IsDigest;
    forall e ensures j == EntryJson(e) ==>
                       && j.JObject? && j.fields.Keys == ENTRY_KEYS
                       && j.fields["path"] == JText(e.path) && j.fields["size"] == JInt(e.size) && j.fields["sha256"] == JText(e.sha256)
                       && j.fields["chunks"].JList? && SpellChunks(j.fields["chunks"].items, e.chunks)
    {
      EntrySpelling(j, e);
    }
    if !(j.JObject? && j.fields.Keys == ENTRY_KEYS) {
      return None;
    }
    var path, size, digest, list := j.fields["path"], j.fields["size"], j.fields["sha256"], j.fields["chunks"];
    if || !path.JText? || path.text !in ExpectedPaths()
       || !size.JInt? || size.number <= 0 || size.number > MAX_GENERATION_FILE_BYTES
       || !digest.JText? || !IsDigest(digest.text)
       || !list.JList?
    {
      return None;
    }
    if list.items == [] {
      forall e | j == EntryJson(e) ensures !EntryIsValid(e) {
        NothingSpelt(e.chunks, e.size);
      }
      return None;
    }
    var chunks := ParseChunks(list.items, size.number);
    if chunks.None? {
      return None;
    }
    var entry := FileEntry(path.text, size.number, digest.text, chunks.value);
    EntrySpelling(j, entry);
    return Some(entry);
  }

  lemma NothingSpelt(chunks: seq<Chunk>, size: int)
    ensures SpellChunks([], chunks) ==> !ChunksAreValid(chunks, size)
  {
  }

  /** The loop over the file entries, in the order they are listed. */
  method ParseFiles(items: seq<Json>) returns (r: Option<seq<FileEntry>>)
    ensures r.Some? ==> SpellFiles(items, r.value) && FilesAreValid(r.value)
    ensures forall files :: SpellFiles(items, files) && FilesAreValid(files) ==> r == Some(files)
  {
    hide EntryJson, EntryIsValid, SpellFiles, FilesAreValid;
    var files: seq<FileEntry> := [];
    var paths: set<string> := {};
    var totalSize, totalChunks := 0, 0;
    ParseStart();
    for i := 0 to |items|
      invariant |files| == i && SpellFiles(items[..i], files) && FilesAreValid(files)
      invariant paths == Paths(files) && totalSize == TotalSize(files) && totalChunks == TotalChunks(files)
    {
      var entry := ParseEntry(items[i]);
      if entry.None? || entry.value.path in paths {
        forall other | SpellFiles(items, other) ensures !FilesAreValid(other) {
          ParsePrefix(items, other, files, i);
        }
        return None;
      }
      ParseStep(items, files, entry.value);
      paths := paths + {entry.value.path};
      totalSize := totalSize + entry.value.size;
      totalChunks := totalChunks + |entry.value.chunks|;
      files := files + [entry.value];
      if totalSize > MAX_GENERATION_BYTES || totalChunks > MAX_GENERATION_CHUNKS {
        forall other | SpellFiles(items, other) ensures !FilesAreValid(other) {
          ParseOver(items, other, files, i + 1);
        }
        return None;
      }
    }
    assert items[..|items|] == items;
    forall other | SpellFiles(items, other) && FilesAreValid(other) ensures other == files {
      ParsePrefix(items, other, files, |items|);
    }
    return Some(files);
  }

  lemma ParseStart()
    ensures SpellFiles([], []) && FilesAreValid([]) && Paths([]) == {}
    ensures TotalSize([]) == 0 && TotalChunks([]) == 0
  {
  }

  lemma ParseStep(items: seq<Json>, files: seq<FileEntry>, entry: FileEntry)
    requires |files| < |items| && SpellFiles(items[..|files|], files) && FilesAreValid(files)
    requires items[|files|] == EntryJson(entry) && EntryIsValid(entry) && entry.path !in Paths(files)
    ensures var more := files + [entry];
            && SpellFiles(items[..|more|], more)
            && Paths(more) == Paths(files) + {entry.path}
            && TotalSize(more) == TotalSize(files) + entry.size
            && TotalChunks(more) == TotalChunks(files) + |entry.chunks|
            && (WithinTotals(more) ==> FilesAreValid(more))
  {
    hide EntryJson, EntryIsValid;
    var more := files + [entry];
    assert more[..|more| - 1] == files;
    assert more[|files|] == entry;
    assert forall i :: 0 <= i < |files| ==> more[i] == files[i];
    assert forall i :: 0 <= i < |files| ==> files[i].path in Paths(files);
  }

  lemma FilesAreSpeltOnce(items: seq<Json>, a: seq<FileEntry>, b: seq<FileEntry>)
    requires SpellFiles(items, a) && SpellFiles(items, b)
    ensures a == b
  {
    hide EntryJson;
    forall i | 0 <= i < |a| ensures a[i] == b[i] {
      EntriesAreSpeltOnce(items[i], a[i], b[i]);
    }
  }

  /** Any other reading of the items begins with the entries read so far. */
  lemma ParsePrefix(items: seq<Json>, other: seq<FileEntry>, files: seq<FileEntry>, i: nat)
    requires SpellFiles(items, other) && i <= |items| && SpellFiles(items[..i], files)
    ensures |other| == |items| && other[..i] == files
    ensures i < |items| ==>
              && items[i] == EntryJson(other[i])
              && (FilesAreValid(other) ==> EntryIsValid(other[i]) && other[i].path !in Paths(files))
  {
    hide EntryJson, EntryIsValid;
    assert SpellFiles(items[..i], other[..i]);
    FilesAreSpeltOnce(items[..i], other[..i], files);
  }

  lemma ParseOver(items: seq<Json>, other: seq<FileEntry>, files: seq<FileEntry>, i: nat)
    requires SpellFiles(items, other) && i <= |items| && SpellFiles(items[..i], files) && !WithinTotals(files)
    ensures !FilesAreValid(other)
  {
    hide EntryJson, EntryIsValid;
    if FilesAreValid(other) {
      ParsePrefix(items, other, files, i);
      forall k | 0 <= k < |other| ensures other[k].size > 0 {
        ValidSize(other[k]);
      }
      TotalsGrow(other, i);
    }
  }

  lemma ValidSize(e: FileEntry)
    requires EntryIsValid(e)
    ensures e.size > 0
  {
  }

  lemma {:induction false} TotalsGrow(files: seq<FileEntry>, i: nat)
    requires i <= |files| && forall k :: 0 <= k < |files| ==> files[k].size > 0
    ensures TotalSize(files[..i]) <= TotalSize(files) && TotalChunks(files[..i]) <= TotalChunks(files)
  {
    if i < |files| {
      var shorter := files[..|files| - 1];
      TotalsGrow(shorter, i);
      assert shorter[..i] == files[..i];
    } else {
      assert files[..i] == files;
    }
  }

  datatype ParseError = InvalidManifest

  /** The checks, then the files in path order. */
  method ParseManifest(raw: Json, length: nat, expected: string) returns (r: Result<Manifest, ParseError>)
    ensures r.Ok? ==> exists m :: Accepts(raw, length, expected, m) && r.value == m.(files := SortByPath(m.files))
    ensures forall m :: Accepts(raw, length, expected, m) ==> r == Ok(m.(files := SortByPath(m.files)))
  {
    hide ManifestJson, FilesAreValid, SpellFiles, IsDigest, ExpectedPaths, SortByPath, BindsGeneration;
    forall m ensures raw == ManifestJson(m) ==>
                       && raw.JObject? && raw.fields.Keys == TOP_KEYS
                       && raw.fields["format"] == JText(FORMAT) && raw.fields["format_version"] == JInt(FORMAT_VERSION)
                       && raw.fields["generation_id"] == JText(m.generationId) && raw.fields["chunk_size"] == JInt(CHUNK_SIZE)
                       && raw.fields["chunk_encoding"] == JText(CHUNK_ENCODING)
                       && raw.fields["generation_manifest_sha256"] == JText(m.generationSha)
                       && raw.fields["files"].JList? && SpellFiles(raw.fields["files"].items, m.files)
    {
      TopSpelling(raw, m);
    }
    if length > MAX_MANIFEST_BYTES || !raw.JObject? || raw.fields.Keys != TOP_KEYS {
      return Err(InvalidManifest);
    }
    var sha := raw.fields["generation_manifest_sha256"];
    if || raw.fields["format"] != JText(FORMAT) || raw.fields["format_version"] != JInt(FORMAT_VERSION)
       || raw.fields["generation_id"] != JText(expected) || raw.fields["chunk_size"] != JInt(CHUNK_SIZE)
       || raw.fields["chunk_encoding"] != JText(CHUNK_ENCODING)
       || !sha.JText? || !IsDigest(sha.text) || !raw.fields["files"].JList?
    {
      return Err(InvalidManifest);
    }
    var files := ParseFiles(raw.fields["files"].items);
    if files.None? {
      return Err(InvalidManifest);
    }
    var binds := BindingHolds(files.value, sha.text);
    if Paths(files.value) != ExpectedPaths() || !binds {
      return Err(InvalidManifest);
    }
    ghost var m := Manifest(expected, sha.text, files.value);
    TopSpelling(raw, m);
    assert Accepts(raw, length, expected, m);
    return Ok(Manifest(expected, sha.text, SortByPath(files.value)));
  }

  /** The digest noted while going over the entries is that of generation.json. */
  method BindingHolds(files: seq<FileEntry>, generationSha: string) returns (binds: bool)
    requires FilesAreValid(files)
    ensures binds <==> BindsGeneration(files, generationSha)
  {
    hide EntryIsValid, WithinTotals;
    var noted: Option<string> := None;
    for i := 0 to |files|
      invariant noted.Some? ==> exists k :: 0 <= k < i && files[k].path == GENERATION_FILE && files[k].sha256 == noted.value
      invariant noted.None? ==> forall k :: 0 <= k < i ==> files[k].path != GENERATION_FILE
    {
      if files[i].path == GENERATION_FILE {
        noted := Some(files[i].sha256);
      }
    }
    binds := noted == Some(generationSha);
  }

  // ----- path order -----

  function Insert(e: FileEntry, sorted: seq<FileEntry>): seq<FileEntry> {
    if sorted == [] || Before(e.path, sorted[0].path) then [e] + sorted
    else [sorted[0]] + Insert(e, sorted[1..])
  }

  /** A stable sort by path. */
  function SortByPath(files: seq<FileEntry>): seq<FileEntry> {
    if files == [] then [] else Insert(files[|files| - 1], SortByPath(files[..|files| - 1]))
  }

  ghost predicate InPathOrder(files: seq<FileEntry>) {
    forall i, j :: 0 <= i < j < |files| ==> Before(files[i].path, files[j].path)
  }

  lemma ConsInOrder(e: FileEntry, rest: seq<FileEntry>)
    requires InPathOrder(rest) && (rest == [] || Before(e.path, rest[0].path))
    ensures InPathOrder([e] + rest)
  {
    hide Before;
    var all := [e] + rest;
    forall i, j | 0 <= i < j < |all| ensures Before(all[i].path, all[j].path) {
      if i == 0 && j > 1 {
        BeforeIsTransitive(e.path, rest[0].path, rest[j - 1].path);
      }
    }
  }

  lemma {:induction false} InsertInOrder(e: FileEntry, sorted: seq<FileEntry>)
    requires InPathOrder(sorted) && forall i :: 0 <= i < |sorted| ==> sorted[i].path != e.path
    ensures InPathOrder(Insert(e, sorted))
  {
    hide Before;
    if sorted == [] || Before(e.path, sorted[0].path) {
      ConsInOrder(e, sorted);
    } else {
      InsertInOrder(e, sorted[1..]);
      BeforeIsTotal(sorted[0].path, e.path);
      ConsInOrder(sorted[0], Insert(e, sorted[1..]));
    }
  }

  lemma {:induction false} InsertKeeps(e: FileEntry, sorted: seq<FileEntry>)
    ensures multiset(Insert(e, sorted)) == multiset(sorted) + multiset{e}
  {
    hide Before;
    if sorted != [] && !Before(e.path, sorted[0].path) {
      InsertKeeps(e, sorted[1..]);
      assert sorted == [sorted[0]] + sorted[1..];
    }
  }

  lemma {:induction false} SortContents(files: seq<FileEntry>)
    ensures multiset(SortByPath(files)) == multiset(files)
  {
    hide Insert;
    if files != [] {
      var front, last := files[..|files| - 1], files[|files| - 1];
      SortContents(front);
      InsertKeeps(last, SortByPath(front));
      assert files == front + [last];
    }
  }

  /** Sorting keeps the entries and, when no path occurs twice, puts them in strictly rising path order. */
  lemma {:induction false} SortKeeps(files: seq<FileEntry>)
    ensures multiset(SortByPath(files)) == multiset(files)
    ensures DistinctPaths(files) ==> InPathOrder(SortByPath(files))
  {
    hide Insert, InPathOrder;
    SortContents(files);
    if DistinctPaths(files) {
      if files == [] {
        NothingInOrder();
      } else {
        var front, last := files[..|files| - 1], files[|files| - 1];
        SortKeeps(front);
        var sorted := SortByPath(front);
        forall i | 0 <= i < |sorted| ensures sorted[i].path != last.path {
          var j := Occurs(sorted, front, i);
        }
        InsertInOrder(last, sorted);
      }
    }
  }

  lemma NothingInOrder()
    ensures InPathOrder([])
  {
  }

  /** The same entries have one strictly rising order. */
  lemma {:induction false} PathOrderIsUnique(a: seq<FileEntry>, b: seq<FileEntry>)
    requires InPathOrder(a) && InPathOrder(b) && multiset(a) == multiset(b)
    ensures a == b
  {
    hide InPathOrder;
    if a == [] {
      assert |multiset(b)| == 0;
    } else {
      SameHead(a, b);
      TailContents(a);
      TailContents(b);
      TailInOrder(a);
      TailInOrder(b);
      PathOrderIsUnique(a[1..], b[1..]);
      assert a == [a[0]] + a[1..] && b == [b[0]] + b[1..];
    }
  }

  lemma SameHead(a: seq<FileEntry>, b: seq<FileEntry>)
    requires InPathOrder(a) && InPathOrder(b) && multiset(a) == multiset(b) && a != []
    ensures b != [] && a[0] == b[0]
  {
    hide Before;
    var i := Occurs(a, b, 0);
    var j := Occurs(b, a, 0);
    BeforeIsTotal(a[0].path, b[0].path);
  }

  lemma TailInOrder(a: seq<FileEntry>)
    requires InPathOrder(a) && a != []
    ensures InPathOrder(a[1..])
  {
    hide Before;
  }

  /** The order in which a manifest lists its files does not matter to a reader. */
  lemma ParsingIgnoresFileOrder(a: seq<FileEntry>, b: seq<FileEntry>)
    requires DistinctPaths(a) && DistinctPaths(b) && multiset(a) == multiset(b)
    ensures SortByPath(a) == SortByPath(b)
  {
    SortKeeps(a);
    SortKeeps(b);
    PathOrderIsUnique(SortByPath(a), SortByPath(b));
  }

  // ----- round trip -----

  predicate WithinLimits(m: Manifest, length: nat) {
    && length <= MAX_MANIFEST_BYTES
    && WithinTotals(m.files)
    && forall i :: 0 <= i < |m.files| ==> m.files[i].size <= MAX_GENERATION_FILE_BYTES
  }

  /** The limits in plain numbers: 2 MiB printed, 64 GiB a file, 128 GiB and 4096 chunks in all. */
  lemma LimitsInBytes(m: Manifest, length: nat)
    ensures WithinLimits(m, length) <==>
            && length <= 2097152 && TotalSize(m.files) <= 137438953472 && TotalChunks(m.files) <= 4096
            && forall i :: 0 <= i < |m.files| ==> m.files[i].size <= 68719476736
  {
  }

  /** The paths a generation is walked in: all expected files, sorted. */
  ghost predicate ArePaths(paths: seq<string>) {
    && (forall i, j :: 0 <= i < j < |paths| ==> Before(paths[i], paths[j]))
    && (forall path :: path in paths <==> path in ExpectedPaths())
  }

  lemma DescribedEntryIsValid(sha: seq<byte> -> string, e: FileEntry, data: seq<byte>)
    requires IsSha(sha) && Describes(sha, e, data) && data != [] && e.path in ExpectedPaths()
    ensures EntryIsValid(e) <==> e.size <= MAX_GENERATION_FILE_BYTES
  {
    hide Tiles, IsDigest, ExpectedPaths;
    assert e.chunks != [] by {
      if e.chunks == [] {
        NoChunks(0);
        TilesOneWay([], 0, 0, |data|);
      }
    }
    assert forall i :: 0 <= i < |e.chunks| ==> IsDigest(e.chunks[i].sha256);
  }

  /** A built manifest is accepted exactly when it is within the limits, which building does not check. */
  lemma BuiltIsAccepted(sha: seq<byte> -> string, m: Manifest, generation: map<string, seq<byte>>, paths: seq<string>, length: nat)
    requires IsSha(sha) && IsManifestOf(sha, m, generation, paths) && ArePaths(paths)
    requires forall path :: path in generation ==> generation[path] != []
    requires GENERATION_FILE in generation && m.generationSha == sha(generation[GENERATION_FILE])
    ensures Accepts(ManifestJson(m), length, m.generationId, m) <==> WithinLimits(m, length)
    ensures SortByPath(m.files) == m.files
  {
    hide ExpectedPaths, EntryIsValid, Describes, WithinTotals, SortByPath, IsDigest;
    forall i | 0 <= i < |m.files| ensures EntryIsValid(m.files[i]) <==> m.files[i].size <= MAX_GENERATION_FILE_BYTES {
      PathIsExpected(paths, i);
      DescribedEntryIsValid(sha, m.files[i], generation[paths[i]]);
    }
    assert InPathOrder(m.files);
    forall i, j | 0 <= i < j < |m.files| ensures m.files[i].path != m.files[j].path {
      BeforeIsTotal(m.files[i].path, m.files[j].path);
    }
    SortKeeps(m.files);
    PathOrderIsUnique(SortByPath(m.files), m.files);
    PathsAre(m, paths);
    BindingBuilt(sha, m, generation, paths);
  }

  lemma PathsAre(m: Manifest, paths: seq<string>)
    requires |m.files| == |paths| && forall i :: 0 <= i < |paths| ==> m.files[i].path == paths[i]
    requires ArePaths(paths)
    ensures Paths(m.files) == ExpectedPaths()
  {
    hide ExpectedPaths, Before;
    forall path ensures path in Paths(m.files) <==> path in paths {
      if path in paths {
        var i :| 0 <= i < |paths| && paths[i] == path;
        assert m.files[i].path == path;
      }
    }
  }

  lemma PathIsExpected(paths: seq<string>, i: nat)
    requires ArePaths(paths) && i < |paths|
    ensures paths[i] in ExpectedPaths()
  {
    hide ExpectedPaths, Before;
    assert paths[i] in paths;
  }

  lemma GenerationFileIsExpected()
    ensures GENERATION_FILE in ExpectedPaths()
  {
  }

  lemma BindingBuilt(sha: seq<byte> -> string, m: Manifest, generation: map<string, seq<byte>>, paths: seq<string>)
    requires IsManifestOf(sha, m, generation, paths) && ArePaths(paths)
    requires GENERATION_FILE in generation && m.generationSha == sha(generation[GENERATION_FILE])
    ensures BindsGeneration(m.files, m.generationSha)
  {
    hide ExpectedPaths, Tiles, ChunksDescribe;
    GenerationFileIsExpected();
    assert GENERATION_FILE in paths;
    var i :| 0 <= i < |paths| && paths[i] == GENERATION_FILE;
    assert m.files[i].path == GENERATION_FILE && m.files[i].sha256 == m.generationSha;
  }

  /**
    Building a manifest and parsing its JSON. Building succeeds exactly for the expected files without
    a collision of lengths; then parsing gives the manifest back, exactly when it is within the limits.
   */
  method BuildThenParse(sha: seq<byte> -> string, generationId: string, generation: map<string, seq<byte>>,
                        expected: map<string, Expected>, paths: seq<string>, length: nat)
    returns (built: Result<Manifest, BuildError>, parsed: Result<Manifest, ParseError>)
    requires IsSha(sha) && ArePaths(paths) && generation.Keys == expected.Keys == ExpectedPaths()
    requires forall path :: path in expected ==> expected[path].size > 0
    requires expected[GENERATION_FILE].sha256 == sha(generation[GENERATION_FILE])
    ensures built.Ok? <==> IsExpected(sha, generation, expected, paths) && NoLengthCollision(sha, generation, paths)
    ensures built.Ok? ==>
              && IsManifestOf(sha, built.value, generation, paths)
              && (parsed.Ok? <==> WithinLimits(built.value, length))
              && (parsed.Ok? ==> parsed.value == built.value)
  {
    hide ExpectedPaths, IsManifestOf, IsValid, WithinLimits, IsSha, SortByPath, ManifestJson, NoLengthCollision;
    forall i | 0 <= i < |paths| ensures paths[i] in generation && paths[i] in expected {
      assert paths[i] in paths;
    }
    GenerationFileIsExpected();
    var unique;
    built, unique := BuildManifest(sha, generationId, generation, expected, paths);
    parsed := Err(InvalidManifest);
    if built.Ok? {
      var m := built.value;
      forall path | path in generation ensures generation[path] != [] {
        assert path in paths;
      }
      parsed := ParseManifest(ManifestJson(m), length, generationId);
      BuiltIsAccepted(sha, m, generation, paths, length);
      if parsed.Ok? {
        ghost var read: Manifest :| Accepts(ManifestJson(m), length, generationId, read) && parsed.value == read.(files := SortByPath(read.files));
        ManifestsAreSpeltOnce(ManifestJson(m), m, read);
      }
    }
  }
}
