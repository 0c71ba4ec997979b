/**
  Opening a sidecar: the manifest checks, the header, the planes and the row loop. What opens is
  contiguous, so the eligibility filter and the scan may rely on it.
 */
module VerifiedSidecar {
  import opened Common
  import opened Bytes
  import opened SidecarFormat
  import Scan = SidecarScan
  import Dot = DotKernels

  /** The embedding model this program searches with. */
  datatype Model = Model(id: seq<byte>, fingerprint: seq<byte>)

  datatype ManifestAnn = ManifestAnn(
    sourceId: seq<byte>,
    format: seq<byte>,
    formatVersion: nat,
    path: seq<byte>,
    sha256: seq<byte>,
    size: nat,
    corpusId: seq<byte>,
    modelId: seq<byte>,
    modelFingerprint: seq<byte>,
    dimension: nat,
    embeddingSha: seq<byte>,
    vectorCount: nat,
    firstChunkId: nat,
    lastChunkId: nat,
    idEncoding: seq<byte>,
    metric: seq<byte>)

  function ManifestPath(source: seq<byte>): seq<byte> {
    Ascii("ann/") + source + Ascii(".ann")
  }

  predicate IsCorpusId(text: seq<byte>) {
    |text| == 71 && text[..7] == Ascii("sha256:") && IsSha256(text[7..])
  }

  /** The checks on a manifest entry before its file is touched. */
  predicate ValidManifest(model: Model, source: seq<byte>, info: ManifestAnn) {
    && info.sourceId == source
    && info.path == ManifestPath(source)
    && info.format == Ascii("flat-int8") && info.formatVersion == 1
    && info.modelId == model.id && info.modelFingerprint == model.fingerprint
    && info.dimension == EMBEDDING_DIM && info.idEncoding == IdEncoding() && info.metric == Metric()
    && IsSha256(info.sha256) && IsCorpusId(info.corpusId) && IsSha256(info.embeddingSha)
    && 0 < info.vectorCount && info.firstChunkId <= info.lastChunkId
    && info.lastChunkId - info.firstChunkId + 1 == info.vectorCount
    && SidecarLayout(info.vectorCount).Some?
    && info.size == SidecarLayout(info.vectorCount).value.fileSize
  }

  /** The header that a manifest entry describes. */
  function ExpectedHeader(info: ManifestAnn): Header
    requires SidecarLayout(info.vectorCount).Some?
  {
    Header(info.sourceId, info.modelId, info.modelFingerprint, info.corpusId, info.embeddingSha, info.vectorCount,
           info.firstChunkId, info.lastChunkId, SidecarLayout(info.vectorCount).value)
  }

  // ----- rows of a file with `count` vectors -----

  predicate HasPlanes(bytes: seq<byte>, count: nat) {
    && SidecarLayout(count).Some?
    && |bytes| == SidecarLayout(count).value.fileSize
  }

  function VectorsOffset(count: nat): nat
    requires SidecarLayout(count).Some?
  {
    SidecarLayout(count).value.vectorsOffset
  }

  function ChunkId(bytes: seq<byte>, count: nat, row: nat): nat
    requires HasPlanes(bytes, count) && row < count
  {
    PlanesDisjoint(count);
    FromLe(bytes[HEADER_LEN + 4 * row..HEADER_LEN + 4 * row + 4])
  }

  function VectorBytes(bytes: seq<byte>, count: nat, row: nat): (r: seq<byte>)
    requires HasPlanes(bytes, count) && row < count
    ensures |r| == EMBEDDING_DIM
  {
    PlanesDisjoint(count);
    bytes[VectorsOffset(count) + 256 * row..VectorsOffset(count) + 256 * row + 256]
  }

  function AsDocument(vector: seq<byte>): Dot.Document
    requires |vector| == EMBEDDING_DIM
  {
    seq(256, i requires 0 <= i < 256 => vector[i] as bv8)
  }

  ghost predicate PaddingZero(bytes: seq<byte>, count: nat)
    requires HasPlanes(bytes, count)
  {
    forall i :: HEADER_LEN + 4 * count <= i < VectorsOffset(count) && i < |bytes| ==> bytes[i] == 0
  }

  /** The bytes that the embedding-set digest covers, for the first `n` rows. */
  ghost function EmbeddingSet(bytes: seq<byte>, count: nat, n: nat): seq<byte>
    requires HasPlanes(bytes, count) && n <= count
  {
    if n == 0 then EmbeddingPrefix()
    else EmbeddingSet(bytes, count, n - 1) + ToLe(ChunkId(bytes, count, n - 1), 8) + VectorBytes(bytes, count, n - 1)
  }

  function EmbeddingPrefix(): seq<byte> {
    Ascii("australian-legal-mcp-embedding-set-v1") + [0]
  }

  /** The chunk ids run on from `first` without a gap. */
  ghost predicate ContiguousFrom(bytes: seq<byte>, count: nat, first: nat)
    requires HasPlanes(bytes, count)
  {
    forall row :: 0 <= row < count ==> ChunkId(bytes, count, row) == first + row
  }

  /** Everything that a verified file satisfies. */
  ghost predicate IsVerified(sha: seq<byte> -> seq<byte>, model: Model, source: seq<byte>, bytes: seq<byte>, info: ManifestAnn) {
    && ValidManifest(model, source, info)
    && HasPlanes(bytes, info.vectorCount)
    && sha(bytes) == info.sha256
    && HEADER_LEN <= |bytes| && IsHeader(bytes[..HEADER_LEN], ExpectedHeader(info))
    && PaddingZero(bytes, info.vectorCount)
    && ContiguousFrom(bytes, info.vectorCount, info.firstChunkId)
    && sha(EmbeddingSet(bytes, info.vectorCount, info.vectorCount)) == info.embeddingSha
  }

  // ----- what a verified file is, byte by byte -----

  lemma CorpusIdExactly(text: seq<byte>)
    ensures IsCorpusId(text) <==> exists digest :: IsSha256(digest) && text == Ascii("sha256:") + digest
  {
    hide IsSha256;
    if IsCorpusId(text) {
      assert text == Ascii("sha256:") + text[7..];
    }
    if digest :| IsSha256(digest) && text == Ascii("sha256:") + digest {
      assert text[7..] == digest && text[..7] == Ascii("sha256:");
      Sha256Length(digest);
    }
  }

  lemma Sha256Length(digest: seq<byte>)
    requires IsSha256(digest)
    ensures |digest| == 64
  {
  }

  /**
    In plain bytes: ids are 32-bit numbers from byte 4096 on, least byte first, and run on from the first;
    vectors are the last bytes of the file, 256 a row, with zeros before them.
   */
  lemma VerifiedBytes(sha: seq<byte> -> seq<byte>, model: Model, source: seq<byte>, bytes: seq<byte>, info: ManifestAnn)
    requires IsVerified(sha, model, source, bytes, info)
    ensures var count, vectors := info.vectorCount, |bytes| - 256 * info.vectorCount;
            && count == info.lastChunkId - info.firstChunkId + 1 > 0 && vectors % 4096 == 0
            && 4096 + 4 * count <= vectors < 8192 + 4 * count
            && (forall row :: 0 <= row < count ==>
                  FromLe(bytes[4096 + 4 * row..4096 + 4 * row + 4]) == info.firstChunkId + row)
            && (forall i :: 4096 + 4 * count <= i < vectors ==> bytes[i] == 0)
            && forall row, j :: 0 <= row < count && 0 <= j < 256 ==>
                 VectorBytes(bytes, count, row)[j] == bytes[vectors + 256 * row + j]
                 && AsDocument(VectorBytes(bytes, count, row))[j] == bytes[vectors + 256 * row + j] as bv8
  {
    hide IsHeader, EmbeddingSet, SidecarLayout, IsCorpusId, IsSha256, FromLe;
    var count := info.vectorCount;
    PlanesDisjoint(count);
    forall row | 0 <= row < count ensures FromLe(bytes[4096 + 4 * row..4096 + 4 * row + 4]) == info.firstChunkId + row {
      assert ChunkId(bytes, count, row) == info.firstChunkId + row;
    }
    forall row, j | 0 <= row < count && 0 <= j < 256
      ensures VectorBytes(bytes, count, row)[j] == bytes[|bytes| - 256 * count + 256 * row + j]
      ensures AsDocument(VectorBytes(bytes, count, row))[j] == bytes[|bytes| - 256 * count + 256 * row + j] as bv8
    {
      assert VectorsOffset(count) == |bytes| - 256 * count;
    }
  }

  /** In plain terms: which file the manifest entry of a verified file names, and for which model it is. */
  lemma VerifiedManifest(sha: seq<byte> -> seq<byte>, model: Model, source: seq<byte>, bytes: seq<byte>, info: ManifestAnn)
    requires IsVerified(sha, model, source, bytes, info)
    ensures info.sourceId == source && info.path == Ascii("ann/") + source + Ascii(".ann") && info.size == |bytes|
    ensures info.modelId == model.id && info.modelFingerprint == model.fingerprint
  {
    hide IsHeader, IsCorpusId, IsSha256, PaddingZero, ContiguousFrom;
  }

  lemma VerifiedFormat(sha: seq<byte> -> seq<byte>, model: Model, source: seq<byte>, bytes: seq<byte>, info: ManifestAnn)
    requires IsVerified(sha, model, source, bytes, info)
    ensures info.format == Ascii("flat-int8") && info.formatVersion == 1 && info.dimension == 256
    ensures info.metric == Ascii("signed-int8-dot-exact")
  {
    hide IsHeader, IsCorpusId, IsSha256, PaddingZero, ContiguousFrom, ManifestPath;
  }

  /** Its digests are those of the whole file, and of a prefix with all ids and vectors after it. */
  lemma VerifiedDigests(sha: seq<byte> -> seq<byte>, model: Model, source: seq<byte>, bytes: seq<byte>, info: ManifestAnn)
    requires IsVerified(sha, model, source, bytes, info)
    ensures sha(bytes) == info.sha256 && sha(EmbeddingSet(bytes, info.vectorCount, info.vectorCount)) == info.embeddingSha
    ensures EmbeddingSet(bytes, info.vectorCount, 0) == Ascii("australian-legal-mcp-embedding-set-v1") + [0]
  {
    hide IsHeader, IsCorpusId, IsSha256, PaddingZero, ContiguousFrom, ValidManifest;
  }

  /** Strict increase between the declared endpoints, with the declared count, leaves no gap. */
  lemma {:induction false} EndpointsForceContiguity(ids: seq<nat>, first: nat, last: nat, row: nat)
    requires Scan.StrictlyIncreasing(ids) && row < |ids|
    requires ids[0] == first && ids[|ids| - 1] == last && last - first + 1 == |ids|
    ensures ids[row] == first + row
  {
    GrowsByOne(ids, 0, row);
    GrowsByOne(ids, row, |ids| - 1);
  }

  lemma {:induction false} GrowsByOne(ids: seq<nat>, a: nat, b: nat)
    requires Scan.StrictlyIncreasing(ids) && a <= b < |ids|
    ensures ids[b] >= ids[a] + (b - a)
    decreases b
  {
    if a < b {
      GrowsByOne(ids, a, b - 1);
    }
  }

  datatype OpenError =
    | InvalidManifest | SizeMismatch | DigestMismatch | BadHeader(error: DecodeError) | HeaderMismatch | NonzeroPadding
    | NotIncreasing(chunkId: nat) | EndpointMismatch | EmbeddingMismatch

  /** All-ASCII text is UTF-8. */
  ghost predicate AsciiIsUtf8(utf8: seq<byte> -> bool) {
    forall s: seq<byte> :: (forall i :: 0 <= i < |s| ==> s[i] < 128) ==> utf8(s)
  }

  /** What the types say: the model id is UTF-8, the source is a source id, chunk ids are 32-bit. */
  ghost predicate TypedInputs(utf8: seq<byte> -> bool, model: Model, source: seq<byte>, info: ManifestAnn) {
    && AsciiIsUtf8(utf8)
    && utf8(model.id) && IsSourceId(source)
    && info.firstChunkId < U32_END && info.lastChunkId < U32_END
  }

  ghost predicate PlainText(s: seq<byte>) {
    forall i :: 0 <= i < |s| ==> 0 < s[i] < 128
  }

  lemma PlainIsUtf8(utf8: seq<byte> -> bool, s: seq<byte>)
    requires AsciiIsUtf8(utf8) && PlainText(s)
    ensures utf8(s) && 0 !in s
  {
  }

  lemma CorpusIdIsPlain(corpus: seq<byte>)
    requires IsCorpusId(corpus)
    ensures |corpus| == 71 && PlainText(corpus)
  {
    forall i | 0 <= i < |corpus|
      ensures 0 < corpus[i] < 128
    {
      if i < 7 {
        assert corpus[i] == corpus[..7][i];
      } else {
        assert corpus[i] == corpus[7..][i - 7];
        assert corpus[7..][i - 7] in corpus[7..];
      }
    }
  }

  lemma ConstantsArePlain()
    ensures PlainText(Metric()) && PlainText(IdEncoding())
  {
    assert forall i :: 0 <= i < |Metric()| ==> 0 < Metric()[i] < 128;
    assert forall i :: 0 <= i < |IdEncoding()| ==> 0 < IdEncoding()[i] < 128;
  }

  lemma ExpectedHeaderIsValid(utf8: seq<byte> -> bool, model: Model, source: seq<byte>, info: ManifestAnn)
    requires TypedInputs(utf8, model, source, info) && ValidManifest(model, source, info)
    ensures Encodable(ExpectedHeader(info)) ==> ValidHeader(utf8, ExpectedHeader(info))
    ensures LawfulUtf8(utf8)
  {
    hide SidecarLayout, Metric, IdEncoding, IsSha256, IsCorpusId, ManifestPath, AsciiIsUtf8, PlainText;
    TextParts(ExpectedHeader(info));
    CorpusIdIsPlain(info.corpusId);
    PlainIsUtf8(utf8, info.corpusId);
    SourceIsPlain(source);
    PlainIsUtf8(utf8, source);
    ConstantsArePlain();
    PlainIsUtf8(utf8, Metric());
    PlainIsUtf8(utf8, IdEncoding());
  }

  lemma SourceIsPlain(source: seq<byte>)
    requires IsSourceId(source)
    ensures PlainText(source)
  {
  }

  /** The row loop: strict increase, and the digest of the embedding set. */
  method ReadRows(bytes: seq<byte>, count: nat) returns (r: Result<(seq<nat>, seq<byte>), OpenError>)
    requires HasPlanes(bytes, count)
    ensures r.Ok? ==>
              && |r.value.0| == count && Scan.StrictlyIncreasing(r.value.0)
              && (forall row :: 0 <= row < count ==> r.value.0[row] == ChunkId(bytes, count, row))
              && r.value.1 == EmbeddingSet(bytes, count, count)
    ensures r.Err? ==> exists row :: 0 < row < count && ChunkId(bytes, count, row - 1) >= ChunkId(bytes, count, row)
  {
    hide ChunkId, VectorBytes, HasPlanes, ToLe, EmbeddingPrefix;
    var ids: seq<nat> := [];
    var hashed := EmbeddingPrefix();
    for row := 0 to count
      invariant |ids| == row && Scan.StrictlyIncreasing(ids)
      invariant forall k :: 0 <= k < row ==> ids[k] == ChunkId(bytes, count, k)
      invariant hashed == EmbeddingSet(bytes, count, row)
    {
      var chunkId := ChunkId(bytes, count, row);
      if row > 0 && ids[row - 1] >= chunkId {
        return Err(NotIncreasing(chunkId));
      }
      hashed := hashed + ToLe(chunkId, 8) + VectorBytes(bytes, count, row);
      ids := ids + [chunkId];
    }
    return Ok((ids, hashed));
  }

  /** Opening succeeds exactly on verified files; then the ids are contiguous from the first one. */
  method OpenVerifiedSidecar(utf8: seq<byte> -> bool, sha: seq<byte> -> seq<byte>, model: Model, source: seq<byte>,
                             bytes: seq<byte>, info: ManifestAnn)
    returns (r: Result<Scan.Sidecar, OpenError>)
    requires TypedInputs(utf8, model, source, info)
    ensures r.Ok? <==> IsVerified(sha, model, source, bytes, info)
    ensures r.Ok? ==>
              && |r.value.ids| == |r.value.vectors| == info.vectorCount
              && Scan.StrictlyIncreasing(r.value.ids)
              && (forall row :: 0 <= row < info.vectorCount ==> r.value.ids[row] == info.firstChunkId + row)
              && (forall row :: 0 <= row < info.vectorCount ==>
                    r.value.vectors[row] == AsDocument(VectorBytes(bytes, info.vectorCount, row)))
  {
    hide ValidManifest, EmbeddingSet, ChunkId, VectorBytes, TypedInputs, ValidHeader, IsHeader, SidecarLayout, DecodeFields;
    if !ValidManifest(model, source, info) {
      return Err(InvalidManifest);
    }
    ManifestFacts(model, source, info);
    if |bytes| != info.size {
      return Err(SizeMismatch);
    }
    if sha(bytes) != info.sha256 {
      return Err(DigestMismatch);
    }
    var header := DecodeHeader(utf8, bytes);
    DecodedHeader(utf8, model, source, bytes, info);
    if header.Err? {
      return Err(BadHeader(header.error));
    }
    if header.value != ExpectedHeader(info) {
      return Err(HeaderMismatch);
    }
    var count := info.vectorCount;
    if exists i | HEADER_LEN + 4 * count <= i < VectorsOffset(count) :: i < |bytes| && bytes[i] != 0 {
      return Err(NonzeroPadding);
    }
    var rows := ReadRows(bytes, count);
    if rows.Err? {
      return Err(rows.error);
    }
    var ids := rows.value.0;
    if ids[0] != info.firstChunkId || ids[count - 1] != info.lastChunkId {
      assert ChunkId(bytes, count, 0) == ids[0] && ChunkId(bytes, count, count - 1) == ids[count - 1];
      return Err(EndpointMismatch);
    }
    forall row | 0 <= row < count
      ensures ids[row] == info.firstChunkId + row
    {
      EndpointsForceContiguity(ids, info.firstChunkId, info.lastChunkId, row);
    }
    if sha(rows.value.1) != info.embeddingSha {
      return Err(EmbeddingMismatch);
    }
    return Ok(Scan.Sidecar(ids, seq(count, row requires 0 <= row < count => AsDocument(VectorBytes(bytes, count, row)))));
  }

  lemma ManifestFacts(model: Model, source: seq<byte>, info: ManifestAnn)
    requires ValidManifest(model, source, info)
    ensures SidecarLayout(info.vectorCount).Some? && info.size == SidecarLayout(info.vectorCount).value.fileSize
    ensures 0 < info.vectorCount && info.lastChunkId - info.firstChunkId + 1 == info.vectorCount
    ensures HEADER_LEN <= info.size
  {
    PlanesDisjoint(info.vectorCount);
  }

  /** The decoded header is the expected one exactly when the bytes encode it. */
  lemma DecodedHeader(utf8: seq<byte> -> bool, model: Model, source: seq<byte>, bytes: seq<byte>, info: ManifestAnn)
    requires TypedInputs(utf8, model, source, info) && ValidManifest(model, source, info) && HEADER_LEN <= |bytes|
    ensures DecodeFields(utf8, bytes[..HEADER_LEN]) == Ok(ExpectedHeader(info))
            <==> IsHeader(bytes[..HEADER_LEN], ExpectedHeader(info))
  {
    hide DecodeFields, IsHeader, ValidHeader, SidecarLayout, Encodable, TypedInputs, LawfulUtf8;
    ExpectedHeaderIsValid(utf8, model, source, info);
    if DecodeFields(utf8, bytes[..HEADER_LEN]) == Ok(ExpectedHeader(info)) {
      DecodedIsCanonical(utf8, bytes[..HEADER_LEN]);
    }
    if IsHeader(bytes[..HEADER_LEN], ExpectedHeader(info)) {
      HeaderIsEncodable(bytes[..HEADER_LEN], ExpectedHeader(info));
      DecodeAfterEncode(utf8, bytes[..HEADER_LEN], ExpectedHeader(info));
    }
  }
}
