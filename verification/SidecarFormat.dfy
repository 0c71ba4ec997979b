/** The binary sidecar format: plane layout and the fixed-width header codec. */
module SidecarFormat {
  import opened Common
  import opened Bytes

  const HEADER_LEN := 4096
  const PLANE_ALIGNMENT := 4096
  const ID_BYTES := 4
  const EMBEDDING_DIM := 256
  const VECTOR_BYTES := 256
  const U32_END := 0x1_0000_0000
  const U64_END := 0x1_0000_0000_0000_0000

  // ----- layout -----

  datatype Layout = Layout(idsOffset: nat, idsLen: nat, vectorsOffset: nat, vectorsLen: nat, fileSize: nat)

  function CheckedAdd(a: nat, b: nat): Option<nat> {
    if a + b < U64_END then Some(a + b) else None
  }

  function CheckedMul(a: nat, b: nat): Option<nat> {
    if a * b < U64_END then Some(a * b) else None
  }

  function CheckedAlignUp(value: nat, alignment: nat): Option<nat>
    requires alignment > 0
  {
    var remainder := value % alignment;
    if remainder == 0 then Some(value) else CheckedAdd(value, alignment - remainder)
  }

  /** The plane layout of `count` vectors, in checked 64-bit arithmetic. */
  function SidecarLayout(count: nat): Option<Layout> {
    if count == 0 then None
    else
      var idsLen := CheckedMul(count, ID_BYTES);
      if idsLen.None? then None
      else
        var idsEnd := CheckedAdd(HEADER_LEN, idsLen.value);
        if idsEnd.None? then None
        else
          var vectorsOffset := CheckedAlignUp(idsEnd.value, PLANE_ALIGNMENT);
          if vectorsOffset.None? then None
          else
            var vectorsLen := CheckedMul(count, VECTOR_BYTES);
            if vectorsLen.None? then None
            else
              var fileSize := CheckedAdd(vectorsOffset.value, vectorsLen.value);
              if fileSize.None? then None
              else Some(Layout(HEADER_LEN, idsLen.value, vectorsOffset.value, vectorsLen.value, fileSize.value))
  }

  /** The size the file needs, without any overflow: header and ids rounded up to pages, then the vectors. */
  ghost function TrueFileSize(count: nat): nat {
    (HEADER_LEN + 4 * count + PLANE_ALIGNMENT - 1) / PLANE_ALIGNMENT * PLANE_ALIGNMENT + 256 * count
  }

  /** Layout fails exactly for no vectors and when the true file size overflows. */
  lemma LayoutSucceedsExactly(count: nat)
    ensures SidecarLayout(count).Some? <==> 0 < count && TrueFileSize(count) < U64_END
    ensures SidecarLayout(count).Some? ==> SidecarLayout(count).value.fileSize == TrueFileSize(count)
  {
    var idsEnd := HEADER_LEN + 4 * count;
    var aligned := (idsEnd + PLANE_ALIGNMENT - 1) / PLANE_ALIGNMENT * PLANE_ALIGNMENT;
    assert aligned == if idsEnd % PLANE_ALIGNMENT == 0 then idsEnd else idsEnd + (PLANE_ALIGNMENT - idsEnd % PLANE_ALIGNMENT);
  }

  /** The planes are page-aligned, disjoint, as tight as alignment allows, and end with the file. */
  lemma PlanesDisjoint(count: nat)
    requires SidecarLayout(count).Some?
    ensures var l := SidecarLayout(count).value;
            && l.idsOffset == HEADER_LEN && l.idsLen == 4 * count && l.vectorsLen == 256 * count
            && l.idsOffset % PLANE_ALIGNMENT == 0 && l.vectorsOffset % PLANE_ALIGNMENT == 0
            && l.idsOffset + l.idsLen <= l.vectorsOffset < l.idsOffset + l.idsLen + PLANE_ALIGNMENT
            && l.vectorsOffset + l.vectorsLen == l.fileSize < U64_END
  {
    var idsEnd := HEADER_LEN + 4 * count;
    if idsEnd % PLANE_ALIGNMENT != 0 {
      assert (idsEnd + (PLANE_ALIGNMENT - idsEnd % PLANE_ALIGNMENT)) % PLANE_ALIGNMENT == 0;
    }
  }

  lemma FileSizeStrictlyIncreases(a: nat, b: nat)
    requires a < b && SidecarLayout(b).Some? && 0 < a
    ensures SidecarLayout(a).Some? && SidecarLayout(a).value.fileSize < SidecarLayout(b).value.fileSize
  {
    LayoutSucceedsExactly(a);
    LayoutSucceedsExactly(b);
    assert (HEADER_LEN + 4 * a + PLANE_ALIGNMENT - 1) / PLANE_ALIGNMENT
           <= (HEADER_LEN + 4 * b + PLANE_ALIGNMENT - 1) / PLANE_ALIGNMENT;
  }

  // ----- the header -----

  datatype Header = Header(
    sourceId: seq<byte>,
    modelId: seq<byte>,
    modelFingerprint: seq<byte>,
    corpusId: seq<byte>,
    embeddingSha: seq<byte>,
    vectorCount: nat,
    firstChunkId: nat,
    lastChunkId: nat,
    layout: Layout)

  function Magic(): seq<byte> { Ascii("AUSLEGAL-FLAT-I8") }

  function Metric(): seq<byte> { Ascii("signed-int8-dot-exact") }

  function IdEncoding(): seq<byte> { Ascii("sqlite-chunk-id-u32") }

  const FIELDS := 29

  /** Where field `k` starts; the fields tile the header. */
  function Start(k: nat): nat
    requires k <= FIELDS
  {
    match k
    case 0 => 0
    case 1 => 16
    case 2 => 20
    case 3 => 24
    case 4 => 28
    case 5 => 32
    case 6 => 36
    case 7 => 40
    case 8 => 48
    case 9 => 52
    case 10 => 56
    case 11 => 64
    case 12 => 72
    case 13 => 80
    case 14 => 88
    case 15 => 96
    case 16 => 98
    case 17 => 100
    case 18 => 102
    case 19 => 104
    case 20 => 106
    case 21 => 128
    case 22 => 192
    case 23 => 320
    case 24 => 384
    case 25 => 448
    case 26 => 576
    case 27 => 608
    case 28 => 640
    case _ => HEADER_LEN
  }

  function Width(k: nat): nat
    requires k < FIELDS
  {
    Start(k + 1) - Start(k)
  }

  /** Text that fits a fixed field: not empty, no NUL, not too long. */
  predicate FitsField(text: seq<byte>, width: nat) {
    text != [] && 0 !in text && |text| <= width
  }

  /** The text of a field followed by zeros. */
  function Padded(text: seq<byte>, width: nat): seq<byte> {
    if |text| <= width then text + Zeros(width - |text|) else Zeros(width)
  }

  predicate Encodable(h: Header) {
    && FitsField(h.sourceId, Width(21))
    && FitsField(h.modelId, Width(22))
    && FitsField(h.corpusId, Width(25))
    && IsSha256(h.modelFingerprint)
    && IsSha256(h.embeddingSha)
  }

  function DigestBytes(text: seq<byte>): (r: seq<byte>)
    ensures |r| == 32
  {
    if IsSha256(text) then DecodeHex(text) else Zeros(32)
  }

  /** The bytes of field `k`; 106..128 and 640..4096 are reserved zeros. */
  function Part(h: Header, k: nat): seq<byte>
    requires k < FIELDS
  {
    match k
    case 0 => Magic()
    case 1 => ToLe(1, 4)
    case 2 => ToLe(HEADER_LEN, 4)
    case 3 => ToLe(0x0102_0304, 4)
    case 4 => ToLe(EMBEDDING_DIM, 4)
    case 5 => ToLe(ID_BYTES, 4)
    case 6 => ToLe(VECTOR_BYTES, 4)
    case 7 => ToLe(h.vectorCount, 8)
    case 8 => ToLe(h.firstChunkId, 4)
    case 9 => ToLe(h.lastChunkId, 4)
    case 10 => ToLe(h.layout.idsOffset, 8)
    case 11 => ToLe(h.layout.idsLen, 8)
    case 12 => ToLe(h.layout.vectorsOffset, 8)
    case 13 => ToLe(h.layout.vectorsLen, 8)
    case 14 => ToLe(h.layout.fileSize, 8)
    case 15 => ToLe(|h.sourceId|, 2)
    case 16 => ToLe(|h.modelId|, 2)
    case 17 => ToLe(|Metric()|, 2)
    case 18 => ToLe(|IdEncoding()|, 2)
    case 19 => ToLe(|h.corpusId|, 2)
    case 21 => Padded(h.sourceId, 64)
    case 22 => Padded(h.modelId, 128)
    case 23 => Padded(Metric(), 64)
    case 24 => Padded(IdEncoding(), 64)
    case 25 => Padded(h.corpusId, 128)
    case 26 => DigestBytes(h.modelFingerprint)
    case 27 => DigestBytes(h.embeddingSha)
    case _ => Zeros(Width(k))
  }

  lemma PartWidth(h: Header, k: nat)
    requires k < FIELDS
    ensures |Part(h, k)| == Width(k)
  {
    hide ToLe, DigestBytes, Zeros, Padded;
    PaddedWidth(h);
  }

  lemma PaddedWidth(h: Header)
    ensures |Padded(h.sourceId, 64)| == |Padded(Metric(), 64)| == |Padded(IdEncoding(), 64)| == 64
    ensures |Padded(h.modelId, 128)| == |Padded(h.corpusId, 128)| == 128
  {
  }

  lemma StartsAscend(a: nat, b: nat)
    requires a <= b <= FIELDS
    ensures Start(a) <= Start(b)
    ensures Start(b) <= HEADER_LEN
  {
  }

  function Slice(b: seq<byte>, k: nat): (r: seq<byte>)
    requires |b| == HEADER_LEN && k < FIELDS
    ensures |r| == Width(k)
  {
    StartsAscend(k, k + 1);
    b[Start(k)..Start(k + 1)]
  }

  /** The fields of `b` hold exactly the encoding of `h`. */
  ghost predicate IsHeader(b: seq<byte>, h: Header) {
    && |b| == HEADER_LEN
    && Encodable(h)
    && forall k :: 0 <= k < FIELDS ==> Slice(b, k) == Part(h, k)
  }

  lemma FieldOf(i: nat) returns (k: nat)
    requires i < HEADER_LEN
    ensures k < FIELDS && Start(k) <= i < Start(k + 1)
  {
    k := 0;
    while Start(k + 1) <= i
      invariant k < FIELDS && Start(k) <= i
      decreases FIELDS - k
    {
      k := k + 1;
    }
  }

  /** A header has one encoding. */
  lemma HeaderBytesUnique(a: seq<byte>, b: seq<byte>, h: Header)
    requires IsHeader(a, h) && IsHeader(b, h)
    ensures a == b
  {
    hide Part, Start;
    forall i | 0 <= i < HEADER_LEN
      ensures a[i] == b[i]
    {
      var k := FieldOf(i);
      StartsAscend(k, k + 1);
      assert Slice(a, k)[i - Start(k)] == Slice(b, k)[i - Start(k)];
    }
  }

  // ----- encoding -----

  /** `bytes`, then zeros, make up field `k`. */
  ghost predicate Fills(h: Header, k: nat, bytes: seq<byte>)
    requires k < FIELDS
  {
    |bytes| <= Width(k) && bytes + Zeros(Width(k) - |bytes|) == Part(h, k)
  }

  /** A buffer in which the fields before `n` are written and all others are still zero. */
  ghost predicate Written(b: seq<byte>, h: Header, n: nat) {
    && |b| == HEADER_LEN
    && forall k :: 0 <= k < FIELDS ==>
         Slice(b, k) == if k < n then Part(h, k) else Zeros(Width(k))
  }

  lemma WriteOne(before: seq<byte>, after: seq<byte>, h: Header, n: nat, bytes: seq<byte>)
    requires n < FIELDS && Written(before, h, n) && Fills(h, n, bytes)
    requires |after| == HEADER_LEN
    requires forall i :: 0 <= i < HEADER_LEN ==>
               after[i] == if Start(n) <= i < Start(n) + |bytes| then bytes[i - Start(n)] else before[i]
    ensures Written(after, h, n + 1)
  {
    hide Part, Start, Padded;
    FieldWritten(before, after, h, n, bytes);
    forall j | 0 <= j < FIELDS
      ensures Slice(after, j) == if j < n + 1 then Part(h, j) else Zeros(Width(j))
    {
      StartsAscend(j, j + 1);
      if j < n {
        StartsAscend(j + 1, n);
        assert Slice(after, j) == Slice(before, j);
      } else if n < j {
        StartsAscend(n + 1, j);
        FillsWithin(h, n, bytes);
        assert Slice(after, j) == Slice(before, j);
      }
    }
  }

  lemma FieldWritten(before: seq<byte>, after: seq<byte>, h: Header, n: nat, bytes: seq<byte>)
    requires n < FIELDS && Written(before, h, n) && Fills(h, n, bytes)
    requires |after| == HEADER_LEN
    requires forall i :: 0 <= i < HEADER_LEN ==>
               after[i] == if Start(n) <= i < Start(n) + |bytes| then bytes[i - Start(n)] else before[i]
    ensures Slice(after, n) == Part(h, n)
  {
    hide Part, Start, Padded;
    StartsAscend(n, n + 1);
    var field := bytes + Zeros(Width(n) - |bytes|);
    assert Slice(before, n) == Zeros(Width(n));
    forall i | 0 <= i < Width(n)
      ensures after[Start(n) + i] == field[i]
    {
      if i >= |bytes| {
        assert before[Start(n) + i] == Slice(before, n)[i] == 0;
      }
    }
    assert Slice(after, n) == field;
  }

  lemma FillsWithin(h: Header, k: nat, bytes: seq<byte>)
    requires k < FIELDS && Fills(h, k, bytes)
    ensures Start(k) + |bytes| <= Start(k + 1) <= HEADER_LEN
  {
  }

  /** Copy `bytes` to the start of field `n`. */
  method PutField(buffer: array<byte>, ghost h: Header, n: nat, bytes: seq<byte>)
    requires buffer.Length == HEADER_LEN && n < FIELDS
    requires Written(buffer[..], h, n) && Fills(h, n, bytes)
    modifies buffer
    ensures Written(buffer[..], h, n + 1)
  {
    hide Start, Part, Written, Fills;
    ghost var before := buffer[..];
    FillsWithin(h, n, bytes);
    var at := Start(n);
    forall i | 0 <= i < |bytes| {
      buffer[at + i] := bytes[i];
    }
    WriteOne(before, buffer[..], h, n, bytes);
  }

  lemma PartFills(h: Header, k: nat)
    requires k < FIELDS
    ensures Fills(h, k, Part(h, k))
  {
    hide Part, Width;
    PartWidth(h, k);
    assert Part(h, k) + Zeros(0) == Part(h, k);
  }

  lemma FirstParts(h: Header)
    ensures Part(h, 0) == Magic() && Part(h, 1) == ToLe(1, 4) && Part(h, 2) == ToLe(HEADER_LEN, 4)
    ensures Part(h, 3) == ToLe(0x0102_0304, 4) && Part(h, 4) == ToLe(EMBEDDING_DIM, 4) && Part(h, 5) == ToLe(ID_BYTES, 4)
    ensures Part(h, 6) == ToLe(VECTOR_BYTES, 4) && Part(h, 7) == ToLe(h.vectorCount, 8)
  {
    hide ToLe, DigestBytes;
  }

  lemma LayoutParts(h: Header)
    ensures Part(h, 8) == ToLe(h.firstChunkId, 4) && Part(h, 9) == ToLe(h.lastChunkId, 4)
    ensures Part(h, 10) == ToLe(h.layout.idsOffset, 8) && Part(h, 11) == ToLe(h.layout.idsLen, 8)
    ensures Part(h, 12) == ToLe(h.layout.vectorsOffset, 8) && Part(h, 13) == ToLe(h.layout.vectorsLen, 8)
    ensures Part(h, 14) == ToLe(h.layout.fileSize, 8)
  {
    hide ToLe, DigestBytes;
  }

  lemma LengthParts(h: Header)
    ensures Part(h, 15) == ToLe(|h.sourceId|, 2) && Part(h, 16) == ToLe(|h.modelId|, 2) && Part(h, 17) == ToLe(|Metric()|, 2)
    ensures Part(h, 18) == ToLe(|IdEncoding()|, 2) && Part(h, 19) == ToLe(|h.corpusId|, 2)
    ensures Part(h, 26) == DigestBytes(h.modelFingerprint) && Part(h, 27) == DigestBytes(h.embeddingSha)
  {
    hide ToLe, DigestBytes, Magic, Metric, IdEncoding;
  }

  lemma NumberParts(h: Header)
    ensures Part(h, 0) == Magic() && Part(h, 1) == ToLe(1, 4) && Part(h, 2) == ToLe(HEADER_LEN, 4)
    ensures Part(h, 3) == ToLe(0x0102_0304, 4) && Part(h, 4) == ToLe(EMBEDDING_DIM, 4) && Part(h, 5) == ToLe(ID_BYTES, 4)
    ensures Part(h, 6) == ToLe(VECTOR_BYTES, 4) && Part(h, 7) == ToLe(h.vectorCount, 8)
    ensures Part(h, 8) == ToLe(h.firstChunkId, 4) && Part(h, 9) == ToLe(h.lastChunkId, 4)
    ensures Part(h, 10) == ToLe(h.layout.idsOffset, 8) && Part(h, 11) == ToLe(h.layout.idsLen, 8)
    ensures Part(h, 12) == ToLe(h.layout.vectorsOffset, 8) && Part(h, 13) == ToLe(h.layout.vectorsLen, 8)
    ensures Part(h, 14) == ToLe(h.layout.fileSize, 8)
    ensures Part(h, 15) == ToLe(|h.sourceId|, 2) && Part(h, 16) == ToLe(|h.modelId|, 2) && Part(h, 17) == ToLe(|Metric()|, 2)
    ensures Part(h, 18) == ToLe(|IdEncoding()|, 2) && Part(h, 19) == ToLe(|h.corpusId|, 2)
    ensures Part(h, 26) == DigestBytes(h.modelFingerprint) && Part(h, 27) == DigestBytes(h.embeddingSha)
  {
    hide ToLe, DigestBytes, Part, Magic, Metric, IdEncoding;
    FirstParts(h);
    LayoutParts(h);
    LengthParts(h);
  }

  lemma AllPartsFill(h: Header)
    ensures forall k :: 0 <= k < FIELDS ==> Fills(h, k, Part(h, k))
  {
    forall k | 0 <= k < FIELDS
      ensures Fills(h, k, Part(h, k))
    {
      PartFills(h, k);
    }
  }

  lemma TextFills(h: Header, k: nat, text: seq<byte>)
    requires 21 <= k < 26 && |text| <= Width(k)
    requires Part(h, k) == Padded(text, Width(k))
    ensures Fills(h, k, text)
  {
    hide Part, Width;
  }

  lemma TextParts(h: Header)
    ensures Width(21) == Width(23) == Width(24) == 64 && Width(22) == Width(25) == 128
    ensures Part(h, 21) == Padded(h.sourceId, 64) && Part(h, 22) == Padded(h.modelId, 128)
    ensures Part(h, 23) == Padded(Metric(), 64) && Part(h, 24) == Padded(IdEncoding(), 64)
    ensures Part(h, 25) == Padded(h.corpusId, 128)
    ensures |Metric()| <= 64 && |IdEncoding()| <= 64
  {
    hide Padded;
  }

  datatype EncodeError = DoesNotFit(field: nat) | NotADigest(field: nat)

  /** The numbers at the front of the header. */
  method PutNumbers(buffer: array<byte>, h: Header)
    requires buffer.Length == HEADER_LEN && Written(buffer[..], h, 0)
    modifies buffer
    ensures Written(buffer[..], h, 20)
  {
    hide Written, Fills, Part, Start, ToLe, Magic, Metric, IdEncoding, Width;
    AllPartsFill(h);
    NumberParts(h);
    PutField(buffer, h, 0, Magic());
    PutField(buffer, h, 1, ToLe(1, 4));
    PutField(buffer, h, 2, ToLe(HEADER_LEN, 4));
    PutField(buffer, h, 3, ToLe(0x0102_0304, 4));
    PutField(buffer, h, 4, ToLe(EMBEDDING_DIM, 4));
    PutField(buffer, h, 5, ToLe(ID_BYTES, 4));
    PutField(buffer, h, 6, ToLe(VECTOR_BYTES, 4));
    PutField(buffer, h, 7, ToLe(h.vectorCount, 8));
    PutField(buffer, h, 8, ToLe(h.firstChunkId, 4));
    PutField(buffer, h, 9, ToLe(h.lastChunkId, 4));
    PutField(buffer, h, 10, ToLe(h.layout.idsOffset, 8));
    PutField(buffer, h, 11, ToLe(h.layout.idsLen, 8));
    PutField(buffer, h, 12, ToLe(h.layout.vectorsOffset, 8));
    PutField(buffer, h, 13, ToLe(h.layout.vectorsLen, 8));
    PutField(buffer, h, 14, ToLe(h.layout.fileSize, 8));
    PutField(buffer, h, 15, ToLe(|h.sourceId|, 2));
    PutField(buffer, h, 16, ToLe(|h.modelId|, 2));
    PutField(buffer, h, 17, ToLe(|Metric()|, 2));
    PutField(buffer, h, 18, ToLe(|IdEncoding()|, 2));
    PutField(buffer, h, 19, ToLe(|h.corpusId|, 2));
  }

  /** Encoding succeeds exactly when every text fits its field and both digests are digests. */
  method EncodeHeader(h: Header) returns (r: Result<seq<byte>, EncodeError>)
    ensures r.Ok? <==> Encodable(h)
    ensures r.Ok? ==> IsHeader(r.value, h)
  {
    hide Written, Fills, Part, Start, Metric, IdEncoding, Width, Padded, DecodeHex;
    var buffer := new byte[HEADER_LEN](_ => 0);
    NothingWritten(buffer[..], h);
    TextParts(h);
    NumberParts(h);
    AllPartsFill(h);
    PutNumbers(buffer, h);
    ReservedStaysZero(buffer[..], h, 20);
    if !FitsField(h.sourceId, Width(21)) {
      return Err(DoesNotFit(21));
    }
    TextFills(h, 21, h.sourceId);
    PutField(buffer, h, 21, h.sourceId);
    if !FitsField(h.modelId, Width(22)) {
      return Err(DoesNotFit(22));
    }
    TextFills(h, 22, h.modelId);
    PutField(buffer, h, 22, h.modelId);
    TextFills(h, 23, Metric());
    PutField(buffer, h, 23, Metric());
    TextFills(h, 24, IdEncoding());
    PutField(buffer, h, 24, IdEncoding());
    if !FitsField(h.corpusId, Width(25)) {
      return Err(DoesNotFit(25));
    }
    TextFills(h, 25, h.corpusId);
    PutField(buffer, h, 25, h.corpusId);
    if !IsSha256(h.modelFingerprint) {
      return Err(NotADigest(26));
    }
    PutField(buffer, h, 26, DigestBytes(h.modelFingerprint));
    if !IsSha256(h.embeddingSha) {
      return Err(NotADigest(27));
    }
    PutField(buffer, h, 27, DigestBytes(h.embeddingSha));
    ReservedStaysZero(buffer[..], h, 28);
    AllWritten(buffer[..], h);
    return Ok(buffer[..]);
  }

  lemma NothingWritten(b: seq<byte>, h: Header)
    requires |b| == HEADER_LEN && forall i :: 0 <= i < |b| ==> b[i] == 0
    ensures Written(b, h, 0)
  {
    hide Start;
    forall k | 0 <= k < FIELDS
      ensures Slice(b, k) == Zeros(Width(k))
    {
      StartsAscend(k, k + 1);
    }
  }

  lemma ReservedStaysZero(b: seq<byte>, h: Header, k: nat)
    requires (k == 20 || k == 28) && Written(b, h, k)
    ensures Written(b, h, k + 1)
  {
    ReservedPart(h, k);
    hide Slice, Part, Zeros, Width;
  }

  lemma ReservedPart(h: Header, k: nat)
    requires k == 20 || k == 28
    ensures Part(h, k) == Zeros(Width(k))
  {
  }

  lemma AllWritten(b: seq<byte>, h: Header)
    requires Encodable(h) && Written(b, h, FIELDS)
    ensures IsHeader(b, h)
  {
    hide Slice, Part;
  }

  // ----- decoding -----

  datatype DecodeError =
    | TooShort | BadMagic | UnsupportedVersion | IncompatibleShape | ReservedNonzero | LayoutOverflow
    | NoncanonicalLayout | BadField(field: nat) | BadSourceId | IncompatibleMetric | NoncanonicalForm

  function Num(b: seq<byte>, k: nat): nat
    requires |b| == HEADER_LEN && k < FIELDS
  {
    FromLe(Slice(b, k))
  }

  predicate AllZero(s: seq<byte>) {
    forall i :: 0 <= i < |s| ==> s[i] == 0
  }

  /** Small letters, digits and hyphens, at least one. */
  lemma SourceIdExactly(text: seq<byte>)
    ensures IsSourceId(text) <==>
            text != [] && forall i :: 0 <= i < |text| ==>
              var c := text[i] as char; 'a' <= c <= 'z' || '0' <= c <= '9' || c == '-'
  {
  }

  predicate IsSourceId(text: seq<byte>) {
    text != [] && forall i :: 0 <= i < |text| ==> 97 <= text[i] <= 122 || 48 <= text[i] <= 57 || text[i] == 45
  }

  /** The text of a fixed field: its length must be in range, its padding zero, its bytes UTF-8 without NUL. */
  function ReadField(utf8: seq<byte> -> bool, b: seq<byte>, k: nat, length: nat): Option<seq<byte>>
    requires |b| == HEADER_LEN && k < FIELDS
  {
    var field := Slice(b, k);
    if length == 0 || length > |field| then None
    else if !AllZero(field[length..]) then None
    else if !utf8(field[..length]) || 0 in field[..length] then None
    else Some(field[..length])
  }

  /** Everything that decoding checks before it compares with the canonical encoding. */
  function DecodeFields(utf8: seq<byte> -> bool, b: seq<byte>): Result<Header, DecodeError>
    requires |b| == HEADER_LEN
  {
    if Slice(b, 0) != Magic() then Err(BadMagic)
    else if Num(b, 1) != 1 || Num(b, 2) != HEADER_LEN || Num(b, 3) != 0x0102_0304 then Err(UnsupportedVersion)
    else if Num(b, 4) != EMBEDDING_DIM || Num(b, 5) != ID_BYTES || Num(b, 6) != VECTOR_BYTES then Err(IncompatibleShape)
    else if !AllZero(Slice(b, 20)) || !AllZero(Slice(b, 28)) then Err(ReservedNonzero)
    else
      var layout := SidecarLayout(Num(b, 7));
      if layout.None? then Err(LayoutOverflow)
      else if Layout(Num(b, 10), Num(b, 11), Num(b, 12), Num(b, 13), Num(b, 14)) != layout.value then Err(NoncanonicalLayout)
      else DecodeTexts(utf8, b, layout.value)
  }

  function DecodeTexts(utf8: seq<byte> -> bool, b: seq<byte>, layout: Layout): Result<Header, DecodeError>
    requires |b| == HEADER_LEN
  {
    var source := ReadField(utf8, b, 21, Num(b, 15));
    if source.None? then Err(BadField(21))
    else if !IsSourceId(source.value) then Err(BadSourceId)
    else
      var model := ReadField(utf8, b, 22, Num(b, 16));
      if model.None? then Err(BadField(22))
      else
        var metric := ReadField(utf8, b, 23, Num(b, 17));
        if metric.None? then Err(BadField(23))
        else
          var encoding := ReadField(utf8, b, 24, Num(b, 18));
          if encoding.None? then Err(BadField(24))
          else
            var corpus := ReadField(utf8, b, 25, Num(b, 19));
            if corpus.None? then Err(BadField(25))
            else if metric.value != Metric() || encoding.value != IdEncoding() then Err(IncompatibleMetric)
            else Ok(Header(source.value, model.value, EncodeHex(Slice(b, 26)), corpus.value, EncodeHex(Slice(b, 27)),
                           Num(b, 7), Num(b, 8), Num(b, 9), layout))
  }

  /** A header as the program builds it: valid texts, 32- and 64-bit numbers, the layout of its count. */
  ghost predicate ValidHeader(utf8: seq<byte> -> bool, h: Header) {
    && Encodable(h)
    && IsSourceId(h.sourceId) && utf8(h.sourceId) && utf8(h.modelId) && utf8(h.corpusId)
    && h.firstChunkId < U32_END && h.lastChunkId < U32_END
    && SidecarLayout(h.vectorCount) == Some(h.layout)
  }

  /** The program's own constants are UTF-8. */
  ghost predicate LawfulUtf8(utf8: seq<byte> -> bool) {
    utf8(Metric()) && utf8(IdEncoding())
  }

  lemma NumOfPart(b: seq<byte>, k: nat, n: nat)
    requires |b| == HEADER_LEN && k < FIELDS && Slice(b, k) == ToLe(n, Width(k)) && n < Power256(Width(k))
    ensures Num(b, k) == n
  {
    LeRoundTrip(n, Width(k));
  }

  /** The numbers of an encoded header, by byte offset. */
  lemma HeaderNumbers(utf8: seq<byte> -> bool, b: seq<byte>, h: Header)
    requires ValidHeader(utf8, h) && IsHeader(b, h)
    ensures |b| == 4096 && b[..16] == Ascii("AUSLEGAL-FLAT-I8")
    ensures FromLe(b[16..20]) == 1 && FromLe(b[20..24]) == 4096 && b[24..28] == [4, 3, 2, 1]
    ensures FromLe(b[28..32]) == 256 && FromLe(b[32..36]) == 4 && FromLe(b[36..40]) == 256
    ensures FromLe(b[40..48]) == h.vectorCount && FromLe(b[48..52]) == h.firstChunkId && FromLe(b[52..56]) == h.lastChunkId
    ensures FromLe(b[56..64]) == h.layout.idsOffset && FromLe(b[64..72]) == h.layout.idsLen
    ensures FromLe(b[72..80]) == h.layout.vectorsOffset && FromLe(b[80..88]) == h.layout.vectorsLen
    ensures FromLe(b[88..96]) == h.layout.fileSize
  {
    hide Slice, Part, ToLe, Power256, Metric, IdEncoding, Width, Num, SidecarLayout, FromLe, Magic;
    SlicesOfHeader(b, h);
    NumberParts(h);
    Widths();
    Powers();
    PlanesDisjointOf(h);
    MagicAt(b);
    EndianMark();
    NumberAt(b, 1, 16, 20, 1);
    NumberAt(b, 2, 20, 24, 4096);
    SliceAt(b, 3, 24, 28);
    NumberAt(b, 4, 28, 32, 256);
    NumberAt(b, 5, 32, 36, 4);
    NumberAt(b, 6, 36, 40, 256);
    NumberAt(b, 7, 40, 48, h.vectorCount);
    NumberAt(b, 8, 48, 52, h.firstChunkId);
    NumberAt(b, 9, 52, 56, h.lastChunkId);
    NumberAt(b, 10, 56, 64, h.layout.idsOffset);
    NumberAt(b, 11, 64, 72, h.layout.idsLen);
    NumberAt(b, 12, 72, 80, h.layout.vectorsOffset);
    NumberAt(b, 13, 80, 88, h.layout.vectorsLen);
    NumberAt(b, 14, 88, 96, h.layout.fileSize);
  }

  lemma MagicAt(b: seq<byte>)
    requires |b| == HEADER_LEN
    ensures Slice(b, 0) == Magic() ==> b[..16] == Ascii("AUSLEGAL-FLAT-I8")
  {
  }

  lemma EndianMark()
    ensures ToLe(0x0102_0304, 4) == [4, 3, 2, 1]
  {
    assert ToLe(0x0102_0304, 4) == [4] + ToLe(0x0001_0203, 3);
    assert ToLe(0x0001_0203, 3) == [3] + ToLe(0x0102, 2);
    assert ToLe(0x0102, 2) == [2] + ToLe(1, 1);
  }

  lemma SliceAt(b: seq<byte>, k: nat, from: nat, to: nat)
    requires |b| == HEADER_LEN && k < FIELDS && from <= to <= HEADER_LEN
    requires Start(k) == from && Start(k + 1) == to
    ensures Slice(b, k) == b[from..to]
  {
    hide Start;
  }

  lemma NumberAt(b: seq<byte>, k: nat, from: nat, to: nat, n: nat)
    requires |b| == HEADER_LEN && k < FIELDS && from <= to <= HEADER_LEN
    requires Start(k) == from && Start(k + 1) == to
    requires Slice(b, k) == ToLe(n, Width(k)) && n < Power256(Width(k))
    ensures FromLe(b[from..to]) == n
  {
    hide Start, ToLe, Power256, Width, FromLe;
    NumOfPart(b, k, n);
    SliceAt(b, k, from, to);
  }

  /** The texts and digests of an encoded header, by byte offset, and its reserved zeros. */
  lemma HeaderTexts(b: seq<byte>, h: Header)
    requires IsHeader(b, h)
    ensures |b| == 4096 && |h.sourceId| <= 64 && |h.modelId| <= 128 && |h.corpusId| <= 128
    ensures b[128..128 + |h.sourceId|] == h.sourceId && b[192..192 + |h.modelId|] == h.modelId
    ensures b[320..320 + 21] == Ascii("signed-int8-dot-exact") && b[384..384 + 19] == Ascii("sqlite-chunk-id-u32")
    ensures b[448..448 + |h.corpusId|] == h.corpusId
    ensures EncodeHex(b[576..608]) == h.modelFingerprint && EncodeHex(b[608..640]) == h.embeddingSha
    ensures forall i :: 106 <= i < 128 || 640 <= i < 4096 ==> b[i] == 0
  {
    hide Slice, Part, Padded, Width, Metric, IdEncoding, IsSha256, EncodeHex, DecodeHex, DigestBytes, FitsField;
    SlicesOfHeader(b, h);
    NumberParts(h);
    TextParts(h);
    TextsFit(h);
    TextAt(b, 21, 128, 192, h.sourceId);
    TextAt(b, 22, 192, 320, h.modelId);
    TextAt(b, 23, 320, 384, Ascii("signed-int8-dot-exact"));
    TextAt(b, 24, 384, 448, Ascii("sqlite-chunk-id-u32"));
    TextAt(b, 25, 448, 576, h.corpusId);
    SliceAt(b, 26, 576, 608);
    SliceAt(b, 27, 608, 640);
    DigestIsHex(h.modelFingerprint);
    DigestIsHex(h.embeddingSha);
    ReservedAt(b, h);
  }

  lemma TextsFit(h: Header)
    requires Encodable(h)
    ensures |h.sourceId| <= 64 && |h.modelId| <= 128 && |h.corpusId| <= 128
    ensures IsSha256(h.modelFingerprint) && IsSha256(h.embeddingSha)
    ensures Metric() == Ascii("signed-int8-dot-exact") && IdEncoding() == Ascii("sqlite-chunk-id-u32")
  {
  }

  lemma TextAt(b: seq<byte>, k: nat, from: nat, to: nat, text: seq<byte>)
    requires |b| == HEADER_LEN && k < FIELDS && from <= to <= HEADER_LEN
    requires Start(k) == from && Start(k + 1) == to && |text| <= to - from
    requires Slice(b, k) == Padded(text, to - from)
    ensures b[from..from + |text|] == text
  {
    hide Start;
    SliceAt(b, k, from, to);
    assert b[from..from + |text|] == b[from..to][..|text|];
  }

  lemma DigestIsHex(text: seq<byte>)
    requires IsSha256(text)
    ensures EncodeHex(DigestBytes(text)) == text
  {
    HexCanonical(text);
  }

  lemma ReservedAt(b: seq<byte>, h: Header)
    requires IsHeader(b, h)
    ensures forall i :: 106 <= i < 128 || 640 <= i < 4096 ==> b[i] == 0
  {
    hide Part, Encodable;
    SlicesOfHeader(b, h);
    SliceAt(b, 20, 106, 128);
    SliceAt(b, 28, 640, 4096);
    ReservedPart(h, 20);
    ReservedPart(h, 28);
    forall i | 106 <= i < 128 || 640 <= i < 4096 ensures b[i] == 0 {
      assert i < 128 ==> b[i] == b[106..128][i - 106];
      assert i >= 640 ==> b[i] == b[640..4096][i - 640];
    }
  }

  lemma SliceOfNum(b: seq<byte>, k: nat)
    requires |b| == HEADER_LEN && k < FIELDS
    ensures Slice(b, k) == ToLe(Num(b, k), Width(k)) && Num(b, k) < Power256(Width(k))
  {
    LeCanonical(Slice(b, k));
  }

  lemma ReadPadded(utf8: seq<byte> -> bool, b: seq<byte>, k: nat, text: seq<byte>)
    requires |b| == HEADER_LEN && k < FIELDS && Slice(b, k) == Padded(text, Width(k))
    requires FitsField(text, Width(k)) && utf8(text)
    ensures ReadField(utf8, b, k, |text|) == Some(text)
  {
    hide Slice, Width;
    var field := Slice(b, k);
    assert field[..|text|] == text;
    assert field[|text|..] == Zeros(Width(k) - |text|);
  }

  lemma PaddedRead(utf8: seq<byte> -> bool, b: seq<byte>, k: nat, length: nat)
    requires |b| == HEADER_LEN && k < FIELDS && ReadField(utf8, b, k, length).Some?
    ensures var text := ReadField(utf8, b, k, length).value;
            Slice(b, k) == Padded(text, Width(k)) && FitsField(text, Width(k)) && utf8(text) && |text| == length
  {
    hide Slice, Width;
    var field := Slice(b, k);
    assert field == field[..length] + field[length..];
    assert field[length..] == Zeros(|field| - length);
  }

  lemma SlicesOfHeader(b: seq<byte>, h: Header)
    requires IsHeader(b, h)
    ensures forall k :: 0 <= k < FIELDS ==> Slice(b, k) == Part(h, k)
  {
  }

  lemma Widths()
    ensures Width(0) == 16
    ensures Width(1) == Width(2) == Width(3) == Width(4) == Width(5) == Width(6) == Width(8) == Width(9) == 4
    ensures Width(7) == Width(10) == Width(11) == Width(12) == Width(13) == Width(14) == 8
    ensures Width(15) == Width(16) == Width(17) == Width(18) == Width(19) == 2
  {
    HeadWidths();
    IdWidths();
    LongWidths();
    ShortWidths();
  }

  lemma HeadWidths()
    ensures Width(1) == Width(2) == Width(3) == 4
  {
  }

  lemma IdWidths()
    ensures Width(4) == Width(5) == Width(6) == 4
    ensures Width(8) == Width(9) == 4
  {
    assert Start(8) == 48 && Start(9) == 52 && Start(10) == 56;
  }

  lemma LongWidths()
    ensures Width(7) == Width(10) == Width(11) == Width(12) == Width(13) == Width(14) == 8
  {
  }

  lemma ShortWidths()
    ensures Width(15) == Width(16) == Width(17) == Width(18) == Width(19) == 2
  {
  }

  lemma Powers()
    ensures Power256(2) == 0x1_0000 && Power256(4) == U32_END && Power256(8) == U64_END
  {
    assert Power256(2) == 256 * (256 * Power256(0));
    assert Power256(4) == 256 * (256 * Power256(2));
    assert Power256(6) == 256 * (256 * Power256(4));
  }

  /** Decoding an encoded valid header gives it back. */
  lemma DecodeAfterEncode(utf8: seq<byte> -> bool, b: seq<byte>, h: Header)
    requires LawfulUtf8(utf8) && ValidHeader(utf8, h) && IsHeader(b, h)
    ensures DecodeFields(utf8, b) == Ok(h)
  {
    hide Slice, Part, ToLe, Power256, Magic, Metric, IdEncoding, Padded, ReadField, Width, Num, SidecarLayout, DecodeTexts;
    SlicesOfHeader(b, h);
    NumberParts(h);
    Widths();
    Powers();
    PlanesDisjointOf(h);
    NumOfPart(b, 1, 1);
    NumOfPart(b, 2, HEADER_LEN);
    NumOfPart(b, 3, 0x0102_0304);
    NumOfPart(b, 4, EMBEDDING_DIM);
    NumOfPart(b, 5, ID_BYTES);
    NumOfPart(b, 6, VECTOR_BYTES);
    NumOfPart(b, 7, h.vectorCount);
    NumOfPart(b, 10, h.layout.idsOffset);
    NumOfPart(b, 11, h.layout.idsLen);
    NumOfPart(b, 12, h.layout.vectorsOffset);
    NumOfPart(b, 13, h.layout.vectorsLen);
    NumOfPart(b, 14, h.layout.fileSize);
    ReservedPart(h, 20);
    ReservedPart(h, 28);
    TextsAfterEncode(utf8, b, h);
  }

  lemma PlanesDisjointOf(h: Header)
    requires SidecarLayout(h.vectorCount) == Some(h.layout)
    ensures h.vectorCount < U64_END && h.layout.idsOffset < U64_END && h.layout.idsLen < U64_END
    ensures h.layout.vectorsOffset < U64_END && h.layout.vectorsLen < U64_END && h.layout.fileSize < U64_END
  {
  }

  lemma TextsAfterEncode(utf8: seq<byte> -> bool, b: seq<byte>, h: Header)
    requires LawfulUtf8(utf8) && ValidHeader(utf8, h) && IsHeader(b, h)
    ensures DecodeTexts(utf8, b, h.layout) == Ok(h)
  {
    hide Slice, Part, ToLe, Power256, Metric, IdEncoding, Padded, ReadField, Width, Num, SidecarLayout, DecodeHex, EncodeHex;
    SlicesOfHeader(b, h);
    NumberParts(h);
    TextParts(h);
    Widths();
    Powers();
    PlanesDisjointOf(h);
    ConstantsFit();
    NumOfPart(b, 7, h.vectorCount);
    NumOfPart(b, 8, h.firstChunkId);
    NumOfPart(b, 9, h.lastChunkId);
    NumOfPart(b, 15, |h.sourceId|);
    NumOfPart(b, 16, |h.modelId|);
    NumOfPart(b, 17, |Metric()|);
    NumOfPart(b, 18, |IdEncoding()|);
    NumOfPart(b, 19, |h.corpusId|);
    ReadPadded(utf8, b, 21, h.sourceId);
    ReadPadded(utf8, b, 22, h.modelId);
    ReadPadded(utf8, b, 23, Metric());
    ReadPadded(utf8, b, 24, IdEncoding());
    ReadPadded(utf8, b, 25, h.corpusId);
    HexCanonical(h.modelFingerprint);
    HexCanonical(h.embeddingSha);
  }

  lemma ConstantsFit()
    ensures FitsField(Metric(), 64) && FitsField(IdEncoding(), 64)
  {
    forall i | 0 <= i < |Metric()|
      ensures Metric()[i] != 0
    {
    }
    forall i | 0 <= i < |IdEncoding()|
      ensures IdEncoding()[i] != 0
    {
    }
  }

  /**
    Bytes that pass the field, padding, reserved and layout checks re-encode to themselves, so the
    final comparison with the canonical form can never fail.
   */
  lemma DecodedIsCanonical(utf8: seq<byte> -> bool, b: seq<byte>)
    requires |b| == HEADER_LEN && DecodeFields(utf8, b).Ok?
    ensures IsHeader(b, DecodeFields(utf8, b).value) && ValidHeader(utf8, DecodeFields(utf8, b).value)
  {
    hide Slice, Part, ToLe, Power256, Magic, Metric, IdEncoding, Padded, ReadField, Width, Num, SidecarLayout;
    hide DecodeHex, EncodeHex;
    var h := DecodeFields(utf8, b).value;
    TextsDecoded(utf8, b);
    Widths();
    Powers();
    NumberParts(h);
    SliceOfNum(b, 1);
    SliceOfNum(b, 2);
    SliceOfNum(b, 3);
    SliceOfNum(b, 4);
    SliceOfNum(b, 5);
    SliceOfNum(b, 6);
    SliceOfNum(b, 7);
    SliceOfNum(b, 8);
    SliceOfNum(b, 9);
    SliceOfNum(b, 10);
    SliceOfNum(b, 11);
    SliceOfNum(b, 12);
    SliceOfNum(b, 13);
    SliceOfNum(b, 14);
    ReservedPart(h, 20);
    ReservedPart(h, 28);
    assert Slice(b, 20) == Zeros(Width(20)) && Slice(b, 28) == Zeros(Width(28));
    forall k | 0 <= k < FIELDS
      ensures Slice(b, k) == Part(h, k)
    {
    }
  }

  lemma TextsDecoded(utf8: seq<byte> -> bool, b: seq<byte>)
    requires |b| == HEADER_LEN && DecodeFields(utf8, b).Ok?
    ensures var h := DecodeFields(utf8, b).value;
            && Encodable(h)
            && IsSourceId(h.sourceId) && utf8(h.sourceId) && utf8(h.modelId) && utf8(h.corpusId)
            && (forall k :: 15 <= k < 20 || 21 <= k < 28 ==> Slice(b, k) == Part(h, k))
  {
    hide Slice, Part, ToLe, Power256, Magic, Metric, IdEncoding, Padded, ReadField, Width, Num, SidecarLayout;
    hide DecodeHex, EncodeHex;
    var h := DecodeFields(utf8, b).value;
    Widths();
    TextParts(h);
    NumberParts(h);
    PaddedRead(utf8, b, 21, Num(b, 15));
    PaddedRead(utf8, b, 22, Num(b, 16));
    PaddedRead(utf8, b, 23, Num(b, 17));
    PaddedRead(utf8, b, 24, Num(b, 18));
    PaddedRead(utf8, b, 25, Num(b, 19));
    SliceOfNum(b, 15);
    SliceOfNum(b, 16);
    SliceOfNum(b, 17);
    SliceOfNum(b, 18);
    SliceOfNum(b, 19);
    DigestSlices(b);
    HexRoundTrip(Slice(b, 26));
    HexRoundTrip(Slice(b, 27));
    forall k | 15 <= k < 20 || 21 <= k < 28
      ensures Slice(b, k) == Part(h, k)
    {
    }
  }

  lemma DigestSlices(b: seq<byte>)
    requires |b| == HEADER_LEN
    ensures |Slice(b, 26)| == |Slice(b, 27)| == 32
    ensures IsSha256(EncodeHex(Slice(b, 26))) && IsSha256(EncodeHex(Slice(b, 27)))
  {
  }

  /** Decoding as the program does it, the comparison with the canonical encoding included. */
  method DecodeHeader(utf8: seq<byte> -> bool, bytes: seq<byte>) returns (r: Result<Header, DecodeError>)
    ensures r == if |bytes| < HEADER_LEN then Err(TooShort) else DecodeFields(utf8, bytes[..HEADER_LEN])
    ensures r.Ok? ==> IsHeader(bytes[..HEADER_LEN], r.value) && ValidHeader(utf8, r.value)
  {
    hide DecodeFields, IsHeader, ValidHeader, Encodable;
    if |bytes| < HEADER_LEN {
      return Err(TooShort);
    }
    var header := bytes[..HEADER_LEN];
    r := DecodeFields(utf8, header);
    if r.Ok? {
      DecodedIsCanonical(utf8, header);
      HeaderIsEncodable(header, r.value);
      var encoded := EncodeHeader(r.value);
      HeaderBytesUnique(header, encoded.value, r.value);
      if encoded.value != header {
        r := Err(NoncanonicalForm);
      }
    }
  }

  lemma HeaderIsEncodable(b: seq<byte>, h: Header)
    requires IsHeader(b, h)
    ensures Encodable(h)
  {
  }
}
