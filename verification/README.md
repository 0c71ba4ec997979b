# Verified models of the Australian legal corpus server

A Dafny 4.11 model of the seven parts of the repository whose correctness rests on reasoning across
many functions or many processes, and proofs of what each of them is for. `dafny verify dfyconfig.toml`
checks everything.

- **Chunk splitting and packing** (`src/chunker.rs`). `CursorScan` and `TypedMarkers` hold the marker
  scanner and why rescanning a suffix finds the same markers; `ExactSplit` the exact tokenizer pass;
  `Text`, `Packing` and `ChunkPacking` the approximate packing; `MarkerCuts` what packing does to markers;
  `ChunkPipeline` the two passes together.
- **Exact vector sidecar** (`src/ann.rs`). `TopK`, `DotKernels`, `Bitmap` and `SidecarScan` show that the
  parallel scan is sorting and truncating; `Bytes`, `SidecarFormat` and `VerifiedSidecar` the file format.
- **Content-addressed transport** (`scripts/azure_generation_transport.py`). `TransportManifest`,
  `ManifestParsing` (with `TextOrder`) and `ManifestLimits` are the manifest; `Hashing` says what is assumed of
  SHA-256; `Restore` and `Upload` are the two protocols as step systems with interleavings and stops, and
  `DirectoryUpload` is the second one over a store whose put is not atomic.
- **Register scan and reconciliation** (`src/frl.rs`). `KeysetScan`, `Reconcile` and `StyleInheritance`.
- **WordPiece** (`src/bert_tokenizer.rs`), **adaptive concurrency** (`src/adaptive_http.rs`) and the
  **signing-key cache** (`src/http_auth.rs`).

The style throughout: a definition that says what is meant, a method or a step relation that does what the
program does, and a theorem for all inputs or all runs that joins the two. Loops carry their invariants as a
predicate with one small lemma a step; definitions that a proof does not need are hidden from it, which keeps
every proof obligation small.

Assumptions are parameters or named predicates. SHA-256 is any function to digests, injective, where a theorem
says so, on the finite set of data the theorem names (`Hashing.Distinguishable` shows that this can be met). The
token counter is any deterministic partial function. White space is any predicate for which the separators are
white and brackets and full stops are not. Unicode tables are any that treat ASCII as Unicode does and expand
nothing into control characters. Compression is any inverse of decompression; over a directory, a compressed
chunk cut short does not decompress. Different manifests print differently.

## What is not as one might expect

Each of these is a property that fails, or holds only under a condition, and is stated exactly.

- A heading context opens the packed chunk text, which the exact pass expects, if and only if it starts
  visibly and something visible follows it (`ChunkPacking.ContextOpensPackedText`); blocks from the walk
  always qualify.
- `build_manifest` checks no resource limit, so a built manifest may be refused when read back
  (`ManifestParsing.BuiltIsAccepted`, with a case in `ManifestLimits.OversizeIsRefused`).
- `FileBlobStore.put_immutable` creates the file before it writes it and unlinks it when writing fails. A stored
  manifest is backed if and only if none of its chunks is created and not filled, or unlinked after it was there
  (`DirectoryUpload.ManifestIsBackedExactly`); it takes no stop to break that
  (`DirectoryUpload.PublishesOverTorn`), and after a stop no later upload repairs it
  (`DirectoryUpload.AbandonedForGood`).
  `Upload.ManifestIsLast` is about stores with an atomic put.
- Packing keeps markers whole only where it cuts by words. A sentence or row cut falls inside a marker if and only
  if it would cut the marker's own text (`MarkerCuts.MarkerIsCutExactly`), which happens to `[doc:` markers with
  white space in their value (`MarkerCuts.DocMarkerIsCut`).
- Interrupted reconciliation can bring an old inventory entry back when its document was lost and refetching
  gives the same text with different metadata (`Reconcile.ConvergesExactly` has the exact condition).
- The depth bound of style inheritance counts unremembered items only, so success, though never a value,
  depends on the visiting order (`StyleInheritance.OrderMatters`); `StyleInheritance.AllOrdersSucceedExactly`
  says when it does not. Two numbering settings do not always compose (`StyleInheritance.SettingsCompose`).
- Key-set refreshes are claimed five minutes apart; the requests themselves are so in every run if and only if
  each is sent the moment it is claimed (`KeyCache.SendsAreApartExactly`).

## Model

| member | source | states |
|---|---|---|
| CursorScan.SpansOrdered | src/chunker.rs:1043-1085 | Protected spans are disjoint and in text order. |
| CursorScan.SpansFromCut | src/chunker.rs:1043-1085 | A scan begun at any position, wherever it falls in a consumed region, agrees with the original scan on every span from the end of that region on. |
| CursorScan.Resynchronises | src/chunker.rs:1043-1085 | Scanning a suffix that begins at a safe cut finds again every later span of the whole text, for any scanner whose regions nest. |
| CursorScan.SafeSplitBoundaries | src/chunker.rs:1087-1111 | The boundaries are exactly the positions 1..n strictly inside no protected span, in order. |
| TypedMarkers.RegionsNest | src/chunker.rs:1047-1083 | A bracket region that opens inside another one, valid or not, over-long or not, closes no later: the fact that makes rescans agree. |
| TypedMarkers.MarkerIsAccepted | src/chunker.rs:1065-1080 | What is protected is a region the grammar accepts, from its bracket to its closing bracket. |
| TypedMarkers.MarkersResynchronise | src/chunker.rs:1043-1085 | Every marker after a safe cut is found again by a scan of the rest alone. |
| TypedMarkers.ScanRound | src/chunker.rs:1047-1082 | One round moves the cursor forward and accounts for exactly the spans between the two cursor positions. |
| TypedMarkers.TypedMarkerSpans | src/chunker.rs:1043-1085 | The scanning loop returns exactly the protected spans of the definition, and terminates. |
| TypedMarkers.TypedMarkerGrammarLawful | src/chunker.rs:1044-1080 | The four prefixes and the 600-byte bound make a grammar to which all scanner theorems apply, whatever the identifier checks accept. |
| TypedMarkers.AcceptsExactly | src/chunker.rs:1044-1080 | A bracket region is protected exactly when it is one of the four markers written out, with a valid value, at most 600 bytes in all and at most 512 in a `[doc:` value, whose identity ends at the first white space or `@`. |
| TypedMarkers.Utf8LenIsFewest | src/chunker.rs:1059-1077 | Byte lengths are those of UTF-8. |
| ExactSplit.FirstAtomIsFirstBoundary | src/chunker.rs:1007-1015 | The smallest boundary is the end of a leading marker, or one character: what the two refusals speak of. |
| ExactSplit.LongestFit | src/chunker.rs:996-1006 | For any counter, monotone or not, the search ends between a boundary that fits and the next one that does not. |
| ExactSplit.SplitStream | src/chunker.rs:979-1021 | The loop ends on every stream; success is an exact split; refusal means the counter failed or some shortest piece does not fit beside the heading, a marker or a character as the message says. |
| ExactSplit.SplitIsLossless | src/chunker.rs:989-1021 | The bodies of a split joined together are the stream. |
| ExactSplit.MarkersStayWhole | src/chunker.rs:989-1021 | Every marker protected in the stream lies wholly inside one body, although spans are recomputed on each suffix. |
| ExactSplit.ShouldRepeatHeading | src/chunker.rs:950-974 | A heading is repeated exactly when the first character and every marker of the body fit beside it. |
| ExactSplit.EnforceChunk | src/chunker.rs:928-1035 | A chunk becomes itself, recounted, or the pieces of an exact split behind its heading; it is refused only when the counter failed with that message or some shortest piece of its stream does not fit, a marker or a character as the message says. |
| ExactSplit.EnforceFinalTokenLimit | src/chunker.rs:920-1041 | One group a chunk, in order; ords are 0..n-1; every count is that of the stored text and within the limit; no heading-prefix expectation is reached unmet; a refusal is the refusal of one of the chunks. |
| ExactSplit.GroupWithinLimit | src/chunker.rs:984-1035 | Each stored text is the repeated heading and its body, and its stored count and ids are those of exactly that text. |
| ExactSplit.GroupIsLossless | src/chunker.rs:979-1035 | Heading and bodies joined, the repeated heading once, are the chunk text. |
| ExactSplit.GroupKeepsMarkersWhole | src/chunker.rs:979-1035 | Marker atomicity for the output of the whole pass. |
| ExactSplit.GroupLabels | src/chunker.rs:1015-1035 | Every piece has the anchor of its chunk, only the first its definition text, and the heading context exactly when the heading is repeated, which then opens the text. |
| Packing.AttachPendingHeadings | src/chunker.rs:523-563 | The loop computes attachment: pending headings join the next body, trailing ones become ordinary blocks. |
| Packing.AttachKeepsText | src/chunker.rs:523-563 | Attachment leaves the paragraph-break join of all block texts unchanged. |
| Packing.HeadingsJoinNextBody | src/chunker.rs:536-554 | A run of headings becomes the opening paragraphs and the context of the next body block, and lends it the first anchor among them. |
| Packing.WordEnds | src/chunker.rs:702-709 | The ends of the words, in order, as many as there are words. |
| Packing.WindowEnd | src/chunker.rs:681-691 | The cut is at the candidate, or where the marker across it begins, or where that marker ends if it comes first; it is positive and cuts no marker. |
| Packing.WindowKeeps | src/chunker.rs:675-698 | One window is visible, within the word budget or a marker, and drops nothing but white space, so the loop ends. |
| Packing.EnforceMaxTokens | src/chunker.rs:664-700 | A text within the budget is returned as it is; otherwise the pieces are exactly the windows of the target word count, moved off markers, and they keep every visible character, each within the budget or a single marker. |
| MarkerCuts.WindowsKeepMarkers | src/chunker.rs:675-698 | Every marker of the text to be cut is whole in one window, although spans are recomputed and white space is trimmed after every cut. |
| MarkerCuts.MarkerIsCutExactly | src/chunker.rs:715-771 | A sentence or row cut of a text falls inside a marker if and only if the text of that marker alone would be cut. |
| MarkerCuts.SpacelessIsNeverCut | src/chunker.rs:715-771 | A marker whose value has no white space is cut neither as a sentence nor as a row. |
| MarkerCuts.DocMarkerIsCut | src/chunker.rs:739-771 | For every document id, a `[doc:` marker with a full stop, a space and a capital in its citation text is protected and still cut by the sentence split. |
| Packing.SentenceSplit | src/chunker.rs:739-771 | The sentences are the text cut after every full stop that white space and a capital or parenthesis follow, trimmed, blanks dropped. |
| Packing.SentenceEndsExactly | src/chunker.rs:745-753 | A sentence ends at a stop exactly when only white space, and some, stands between it and a capital or an opening parenthesis. |
| Packing.TableRows | src/chunker.rs:715-720 | The rows are the lines, trimmed, blanks dropped. |
| Packing.CutPartsKeepInk | src/chunker.rs:739-771 | Cutting anywhere keeps the visible characters in order and makes no empty part. |
| Packing.GroupGreedily | src/chunker.rs:634-648 | Groups are whole, in order, within the budget unless single, and none could have taken the next part. |
| Packing.SplitOversizeBody | src/chunker.rs:617-660 | A table comes apart into whole rows, any other body into whole sentences; groups of them are greedy, and each group is one piece if its join is within the budget, else the windows of it; visible text and the budget-or-marker bound are kept, and only a prose body that ends in one piece keeps its definition text. |
| Packing.MaxTotalWords | src/chunker.rs:586-589 | The downward search finds the largest word count whose estimate is within the limit. |
| Packing.EstimateIsTruncated | src/chunker.rs:55-58 | The estimate is the greatest whole number within 1.3 tokens a word, and at least 1. |
| Packing.TargetIsTruncated | src/chunker.rs:670-673 | The window is the greatest whole number of words within the budget over 1.4, and at least 1. |
| Packing.SplitOversizeBlock | src/chunker.rs:570-615 | The pieces are the split body behind the repeated heading; the two prefix expectations hold. |
| Packing.BrokenWithinBudget | src/chunker.rs:570-615 | When the heading leaves room for one word, every piece with its heading is within the budget unless its body is one marker. |
| ChunkPacking.AttachedContextsOpen | src/chunker.rs:536-554 | A heading context always opens the attached text and definition text: the strip-prefix expectations in the packing cannot fail. |
| ChunkPacking.Pack | src/chunker.rs:777-892 | The chunks are those of a greedy packing of the attached blocks, numbered from 0. |
| ChunkPacking.TogetherLabels | src/chunker.rs:785-855 | A packed chunk has the context of its first block, the first anchor, the trimmed join of the texts, and is defined by the trimmed join of the definition texts unless that is empty. |
| ChunkPacking.BrokenLabels | src/chunker.rs:845-882 | A piece of an oversize block has the block's anchor and context and is defined by the heading and its own definition. |
| ChunkPacking.PackKeepsVisibleText | src/chunker.rs:777-892 | The visible characters of the chunks, a repeated heading once, are those of the blocks in order. |
| ChunkPacking.PackedWithinBudget | src/chunker.rs:857-882 | A chunk that is not from an oversize split has an estimate within the budget. |
| ChunkPacking.TrimKeepsPrefix | src/chunker.rs:794-812 | Trimming keeps a prefix that ends in white space exactly when the prefix starts visibly and something visible follows it. |
| ChunkPacking.ContextOpensPackedText | src/chunker.rs:940-949 | The heading context opens the trimmed chunk text if and only if it starts visibly and something visible follows. |
| ChunkPacking.BlankBodyLosesContext | src/chunker.rs:940-949 | A concrete block list, a heading over a blank body, for which the context does not open the chunk. |
| ChunkPacking.PackedContextsOpen | src/chunker.rs:940-949 | For blocks without outer white space, which is what the walk emits, the context of every packed chunk opens its text. |
| ChunkPipeline.ChunkBlocks | src/chunker.rs:1186-1197 | Blocks to final chunks: numbered, exactly counted, within the limit, rejoining to packed chunks whose visible text is that of the blocks, every marker of a packed chunk whole in one final chunk; refused only because the counter fails or a shortest piece of a packed chunk does not fit. |
| TopK.BestIsUnique | src/ann.rs:1036-1051 | The best selection of a multiset of hits is unique, since chunk ids break ties. |
| TopK.MergeBest | src/ann.rs:1085-1090 | Replacing a part by its own best selection does not change the best selection of the whole. |
| TopK.BestIsHighest | src/ann.rs:1036-1051 | The best selection in scores and ids: as many as fit, and nothing left out is above anything kept. |
| TopK.Heap.Push | src/ann.rs:1072-1083 | After a push the heap holds exactly the best of everything it has been given: every hit left out scores less than every hit kept, or the same with an id not smaller. |
| TopK.Heap.Merge | src/ann.rs:1085-1090 | Merging holds the highest of both histories, in the same plain terms, in whatever order the other heap is emptied. |
| TopK.Heap.IntoSorted | src/ann.rs:1092-1101 | All retained hits; scores fall, and among equal scores ids do not. |
| TopK.BestSortedIsFront | src/ann.rs:1085-1101 | The sorted best selection is the front of everything sorted. |
| DotKernels.DotScalar | src/ann.rs:1378-1386 | The scalar loop is the signed dot product. |
| DotKernels.OffsetCorrects | src/ann.rs:1224-1231 | Unsigned offsets change the sum by exactly 128 times the sum of the query. |
| DotKernels.DotOffset | src/ann.rs:1256-1292 | The lane-wise unsigned-offset kernel with its correction equals the signed dot product; no intermediate wraps. |
| DotKernels.DotWidened | src/ann.rs:1294-1333 | The widened pairwise kernel equals the signed dot product; no intermediate wraps. |
| DotKernels.Score | src/ann.rs:1168-1185 | Whatever kernel the processor selects, the score is the same. |
| Bitmap.SetBit | src/ann.rs:889 | Setting a bit sets that bit and no other. |
| Bitmap.SetBitFits | src/ann.rs:889 | The word stays within 64 bits. |
| Bitmap.WordsHave64Bits | src/ann.rs:889 | The bound on words is 2 to the 64th. |
| SidecarScan.EligibleRows | src/ann.rs:872-906 | Succeeds exactly when every requested id is in the file; the bits are exactly the requested rows, the count the size of the request; otherwise the reported absence is positive, without underflow. |
| SidecarScan.RunReduction | src/ann.rs:1402-1416 | Every fold and merge tree that covers the blocks has seen exactly the hits of its rows. |
| SidecarScan.ScanSidecar | src/ann.rs:1388-1425 | For every reduction tree and every kernel the result is the first min(limit, eligible) eligible rows, which is sorting and truncating; with rising ids the hits are eligible rows, scores fall strictly or stay and ids rise, and every eligible row not returned scores less than every hit or the same with a larger id. The underfill error never fires. |
| SidecarScan.ScanRequested | src/ann.rs:872-1425 | Eligibility and scan together: succeeds exactly when every requested id is in the file, and returns min(limit, requested) hits that are the top rows among those requested. |
| SidecarFormat.LayoutSucceedsExactly | src/ann.rs:126-151 | Layout fails exactly for no vectors and when the true file size does not fit 64 bits. |
| SidecarFormat.PlanesDisjoint | src/ann.rs:126-151 | Planes are page-aligned, disjoint, as tight as alignment allows, and end with the file. |
| SidecarFormat.FileSizeStrictlyIncreases | src/ann.rs:126-156 | More vectors, a larger file. |
| SidecarFormat.HeaderBytesUnique | src/ann.rs:288-342 | A header has one encoding. |
| SidecarFormat.HeaderNumbers | src/ann.rs:288-342 | Magic, version, shape, endian mark and every number of an encoded header at its byte offset. |
| SidecarFormat.HeaderTexts | src/ann.rs:288-342 | Every text and digest of an encoded header at its byte offset, and the reserved bytes zero. |
| SidecarFormat.SourceIdExactly | crates/legal-model/src/lib.rs:56-70 | A source id is one or more small letters, digits and hyphens. |
| SidecarFormat.EncodeHeader | src/ann.rs:288-342 | Encoding succeeds exactly when all texts fit their fields and both digests are digests, and writes that encoding. |
| SidecarFormat.DecodeAfterEncode | src/ann.rs:344-417 | Decoding an encoded valid header returns it. |
| SidecarFormat.DecodedIsCanonical | src/ann.rs:344-417 | Bytes that pass the field, padding, reserved and layout checks re-encode to themselves. |
| SidecarFormat.DecodeHeader | src/ann.rs:344-417 | The decoder as written, its final canonical comparison included: that comparison is implied by the earlier checks. |
| Bytes.HexRoundTrip | src/ann.rs:237-251 | Digest text and digest bytes: decoding an encoded digest. |
| Bytes.HexCanonical | src/ann.rs:237-251 | Encoding a decoded lower-case digest. |
| Bytes.LeastByteFirst | src/ann.rs:288-342 | Numbers are written least byte first. |
| Bytes.HexDigitsInOrder | src/ann.rs:237-251 | Hexadecimal digits are the sixteen in order. |
| VerifiedSidecar.EndpointsForceContiguity | src/ann.rs:1001-1017 | Strict increase with the declared endpoints and count leaves no gap. |
| VerifiedSidecar.DecodedHeader | src/ann.rs:958-962 | The decoded header is the expected one exactly when the bytes encode it. |
| VerifiedSidecar.ReadRows | src/ann.rs:1001-1012 | The row loop accepts exactly strictly increasing ids and digests every id and vector. |
| VerifiedSidecar.OpenVerifiedSidecar | src/ann.rs:939-1023 | Opening succeeds exactly on verified files; then chunk_id(row) is first + row for every row. |
| VerifiedSidecar.VerifiedBytes | src/ann.rs:939-1023 | Byte by byte: ids from byte 4096 on run on from the first, vectors are the last 256 bytes a row of the file, zeros between. |
| VerifiedSidecar.VerifiedManifest | src/ann.rs:675-716 | A verified file is the one its entry names, for the source and the model asked for. |
| VerifiedSidecar.CorpusIdExactly | src/ann.rs:72-74 | A corpus id is `sha256:` and a digest. |
| VerifiedSidecar.VerifiedFormat | src/ann.rs:675-716 | Its entry states this format, version, dimension and metric. |
| VerifiedSidecar.VerifiedDigests | src/ann.rs:939-1023 | Its digests cover the whole file, and the prefix with all ids and vectors. |
| TransportManifest.TilesDisjoint | scripts/azure_generation_transport.py:595-610 | Chunks of a file do not overlap. |
| TransportManifest.TilesCover | scripts/azure_generation_transport.py:595-610 | Every byte of a file is in a chunk. |
| TransportManifest.ExpectedPathsExactly | scripts/azure_generation_transport.py:70-77 | A generation has its own four files, and vectors and text index of every source. |
| TransportManifest.ChunkFile | scripts/azure_generation_transport.py:593-610 | The loop tiles the file exactly, every chunk full but the last, with the digest of its bytes; it fails only when two blocks of different lengths in the generation share a digest. |
| TransportManifest.BuildManifest | scripts/azure_generation_transport.py:584-629 | Building succeeds if and only if sizes and whole-file digests are those expected and no two blocks of different lengths share a digest; every recorded location holds the data of its digest, one location a digest. |
| ManifestParsing.ParseChunks | scripts/azure_generation_transport.py:688-714 | Accepts exactly the JSON spellings of a gap-free chunk list with digests. |
| ManifestParsing.ParseEntry | scripts/azure_generation_transport.py:664-714 | Accepts exactly the spellings of a valid entry. |
| ManifestParsing.ParseFiles | scripts/azure_generation_transport.py:659-721 | Accepts exactly entries with distinct paths within the totals, although totals are checked after every entry. |
| ManifestParsing.ParseManifest | scripts/azure_generation_transport.py:632-731 | Returns the spelt manifest with its files in path order exactly when it is valid. |
| ManifestParsing.ParsingIgnoresFileOrder | scripts/azure_generation_transport.py:724 | The order in which files are listed does not matter. |
| ManifestParsing.BuiltIsAccepted | scripts/azure_generation_transport.py:584-731 | A built manifest is accepted exactly when it is within the resource limits, which building does not check; its files are in order already. |
| ManifestParsing.LimitsInBytes | scripts/azure_generation_transport.py:44-47 | The limits in plain numbers. |
| ManifestParsing.PrintedConstants | scripts/azure_generation_transport.py:106-120 | The keys and constants of a printed manifest. |
| ManifestParsing.BuildThenParse | scripts/azure_generation_transport.py:584-731 | Build, print, parse, for any function into digests: building succeeds exactly for the expected files without a length collision, and then parsing gives the same manifest, if and only if it is within the limits. |
| ManifestLimits.EveryGenerationHasManifest | scripts/azure_generation_transport.py:584-629 | Every generation, with any hash function, has a manifest in the sense building is specified by. |
| ManifestLimits.TooLargeIsRefused | scripts/azure_generation_transport.py:632-731 | The manifest of any generation with a file over the size limit is refused. |
| ManifestLimits.OversizeIsRefused | scripts/azure_generation_transport.py:584-731 | A generation, with a hash function without collisions on it, that builds and whose manifest is refused at every printed length. |
| Hashing.Distinguishable | scripts/azure_generation_transport.py:593-610 | Every finite set of data no larger than the number of digests has a function into digests that is injective on it: the assumption made below can be met. |
| Restore.PrepareFiles | scripts/azure_generation_transport.py:1062-1070 | Every file is what was there, else the basis, else nothing, cut to size; it fails exactly when a needed clone fails and copying is not allowed. |
| Restore.HashRegion | scripts/azure_generation_transport.py:999-1010 | Reads of any length digest exactly the region, or report a short file. |
| Restore.PlanRestore | scripts/azure_generation_transport.py:1072-1086 | Exactly the regions with a wrong digest are planned; the conflicting-sizes error cannot fire. |
| Restore.RestoreTarget | scripts/azure_generation_transport.py:1123-1136 | Short writes of any length are steps of the protocol and together write the chunk at its place, nothing else. |
| Restore.WritesOnlyRepair | scripts/azure_generation_transport.py:1123-1136 | A write never turns a right byte into a wrong one, when digests tell apart the chunks of the generation and the data at hand. |
| Restore.FinishedIsRestored | scripts/azure_generation_transport.py:1155-1166 | With nothing left to write every file equals the one that was chunked. |
| Restore.RestoreConverges | scripts/azure_generation_transport.py:1062-1166 | From any contents and basis, any interleaving, any number of stops and reruns: a finished run has restored the generation, when digests tell apart its chunks, the regions hashed and the chunks fetched. |
| Restore.BuiltIsRestored | scripts/azure_generation_transport.py:584-629 | Building chained with restoring under one hash function: after a finished run every file walked is on the disk as it was. |
| Restore.RestoreCanGoOn | scripts/azure_generation_transport.py:1115-1136 | An unfinished run always has a next write that brings a target to its end. |
| Restore.RerunHasNothingToDo | scripts/azure_generation_transport.py:1072-1086 | A rerun over restored files plans nothing. |
| Restore.VerifyFiles | scripts/azure_generation_transport.py:1160-1167 | The final check passes exactly when sizes and digests match; when digests tell the two sets of files apart that is exactly when the generation is restored. |
| Upload.StepKeeps | scripts/azure_generation_transport.py:810-900 | Each step keeps the store invariant and changes no blob. |
| Upload.ManifestIsLast | scripts/azure_generation_transport.py:810-900 | At every moment of every run of many uploaders with an atomic put, each chunk a stored manifest names is stored and decompresses to data with that digest. |
| Upload.PublishedStays | scripts/azure_generation_transport.py:359-385 | What is stored is never replaced or removed. |
| Upload.RestoreFindsItsChunks | scripts/azure_generation_transport.py:1115-1122 | A restore of a published manifest finds exactly the bytes each target needs, when digests tell apart the chunks of the generation and what is stored. |
| Upload.BlobStore.PutImmutable | scripts/azure_generation_transport.py:359-385 | Put-if-absent with comparison on conflict. |
| Upload.BlobStore.UploadGeneration | scripts/azure_generation_transport.py:791-900 | One worker: lists, puts what is missing, reads the tree again, puts the manifest. Every put is a step of the protocol; success if and only if no chunk to be put has changed, the tree has not, and no other manifest is there; after a failure there is no new manifest. |
| DirectoryUpload.StepKeeps | scripts/azure_generation_transport.py:248-272 | Create, fill, finish, unlink, compare and stop, interleaved with listing and planning: every step keeps that files hold beginnings of what is meant for them and that a manifest is begun only when each of its chunks was there at some time. |
| DirectoryUpload.ChunkIsGoodExactly | scripts/azure_generation_transport.py:248-272 | In every kept state a chunk of a stored manifest is stored and decompresses to data of its digest if and only if its file is neither created and not filled nor unlinked. |
| DirectoryUpload.ManifestIsBackedExactly | scripts/azure_generation_transport.py:248-272 | For all runs over the directory store: every chunk of a stored manifest is good if and only if none is created and not filled or unlinked after being there. |
| DirectoryUpload.PublishesOverTorn | scripts/azure_generation_transport.py:841-900 | For any manifest that can be built and any one of its digests, without any stop: a second uploader lists the half-written chunk, puts all others whole, publishes, and that chunk cannot be read. |
| DirectoryUpload.AbandonedForGood | scripts/azure_generation_transport.py:248-272 | A file whose writer has stopped halfway is the same half-written file in every continuation of every run: no later uploader repairs it. |
| DirectoryUpload.TornIsLeftOrRemoved | scripts/azure_generation_transport.py:248-272 | A torn file is abandoned when its writer stops and unlinked when its write raises, while all other files, a manifest naming it included, stay. |
| KeysetScan.AfterFilterIsStrictOrder | src/frl.rs:994-1005 | The after-filter admits exactly the registered rows that are later, or as late with a greater title, or then a later start, or then a later retrospective start. |
| KeysetScan.CompleteIsWindow | src/frl.rs:1088-1098 | A complete scan holds exactly the keys registered in the window from seven days before the old cursor to the start of the scan, each with its newest row. |
| TextOrder.BeforeIsLexicographic | src/frl.rs:400-402 | Texts compare by the first character in which they differ, a prefix first. |
| KeysetScan.QueryFilterIsRange | src/frl.rs:760-771 | The whole query filter is the range between boundary and ceiling, after the cursor, nulls excluded. |
| KeysetScan.LessIsTransitive | src/frl.rs:400-402 | The cursor order is transitive (with totality, a linear order). |
| KeysetScan.AfterIsSuffix | src/frl.rs:760-773 | What a query after a cursor selects is the rest of what the query without it selects. |
| KeysetScan.PageIsNext | src/frl.rs:1340-1349 | With a server that keeps its contract each page is the next rows in order, all after the cursor. |
| KeysetScan.ScanPage | src/frl.rs:1350-1387 | For any page the kept versions are latest by cursor and the maximum is that of old cursor and rows seen. |
| KeysetScan.ScanVersions | src/frl.rs:1320-1405 | With a server that keeps its contract the keys found are exactly those of rows registered from seven days before the old cursor (or ever, without one) to the start of the scan, each with its newest row; cursors rise strictly; the proposed cursor is the maximum of the old one and all rows seen; the only failure is the page cap, which fires exactly when distinct rows number at least cap times page size. |
| Reconcile.StepKeepsState | src/frl.rs:1809-1823 | The committed state changes only at a commit, to exactly the authoritative titles, and the cursor does not move back. |
| Reconcile.HistoryKeeps | src/frl.rs:1725-1903 | Over any history of plans, runs and stops: cursors never go back and every staged or committed entry keeps its document. |
| Reconcile.CommitsPlanned | src/frl.rs:1725-1903 | Over any history, interrupted or not, whatever was staged: what has been committed is of the planned versions and titles with documents stored, and other titles keep what the run had read. |
| Reconcile.InterruptedRunsConverge | src/frl.rs:1725-1903 | Any number of interrupted runs of a plan, then a commit, commit the state of one uninterrupted run, provided no entry can be revived. |
| Reconcile.RevivedEntryIsCommitted | src/frl.rs:1853-1903 | Otherwise a stop between storing a document and staging its entry makes a later run commit the old entry. |
| Reconcile.ConvergesExactly | src/frl.rs:1840-1903 | Convergence holds if and only if no title has a committed entry of the planned version whose document is gone, which refetching gives back unchanged while the entry itself differs. |
| Reconcile.InterruptionCanMatter | src/frl.rs:1840-1903 | A concrete plan and workspace for which interruption matters. |
| Reconcile.Workspace.AcquirePlannedVersion | src/frl.rs:1840-1903 | Reuse, or fetch, store, stage: the new workspace in every case. It fails exactly when there is no right entry; otherwise the entry is of the planned version and title and its document is stored. |
| Reconcile.Workspace.FetchPlan | src/frl.rs:1725-1829 | For any staging left behind: succeeds exactly when every planned title has a right entry and every other title an entry; then each planned title has the staged entry of that version if usable, else the committed one of that version if usable, else one made of the planned version and what is fetched, its document stored; other titles keep their entries; the cursor is the later of the two; completed counts exactly the titles whose entry was neither staged nor committed before. Otherwise the state stays. |
| StyleInheritance.CyclesFail | src/frl.rs:3267-3269 | What inherits from itself has no value at any depth. |
| StyleInheritance.MissingBaseFails | src/frl.rs:3270-3272 | Nor has what leads to a missing item. |
| StyleInheritance.Resolver.Resolve | src/frl.rs:3255-3284 | Memoised resolution succeeds exactly when the plain recursion has a value and the depth bound leaves room to the next remembered item; the value is that of plain recursion; in-progress items are restored. |
| StyleInheritance.Resolver.ResolveAll | src/frl.rs:3244-3248 | A visiting order succeeds exactly when each item in turn is within reach of those before it; then all values are those of plain recursion. |
| StyleInheritance.MoreCachedIsResolvable | src/frl.rs:3255-3284 | Earlier resolution never takes an item out of reach. |
| StyleInheritance.OrderMatters | src/frl.rs:3264-3266 | A chain of 129 items: whether it resolves depends on the order, because the bound counts only unremembered items. |
| StyleInheritance.AllOrdersSucceedExactly | src/frl.rs:3244-3284 | Every visiting order of all items succeeds if and only if every item can be resolved with nothing remembered. |
| StyleInheritance.StyleHasNumbering | src/frl.rs:3255-3284 | A style has a value, possibly none, if and only if its chain of bases ends in a style without one. |
| StyleInheritance.PlainStyleInherits | src/frl.rs:3273-3280 | A style without numbering of its own has a value if and only if its base has that value; without a base it has none. |
| StyleInheritance.InstanceIsNearest | src/frl.rs:3177-3192 | The instance of a style is the nearest one set along its chain of bases; there is no numbering exactly when none is set or the nearest is 0. |
| StyleInheritance.LevelIsOwnOrInherited | src/frl.rs:3177-3192 | The level is the own one, else that of the base's numbering, else 0. |
| StyleInheritance.SettingsCompose | src/frl.rs:3177-3192 | Any two settings in a row act as one setting, except exactly when the nearer has an instance but no level and the farther a level but no instance, none of them zero: that level takes effect only over something inherited. |
| StyleInheritance.LinkedInstance | src/frl.rs:2995-3044 | The value of a linked numbering instance is the linked instance with its overrides. |
| StyleInheritance.OwnInstance | src/frl.rs:2995-3044 | An instance with an abstract numbering has exactly that numbering with its overrides. |
| WordPiece.SplitAtSpace | src/bert_tokenizer.rs:73-125 | With SplitWithoutSpace, what splitting into words means. |
| WordPiece.PiecesMakeWord | src/bert_tokenizer.rs:168-204 | The greedy pieces concatenate to the word. |
| WordPiece.GreedyIsUnique | src/bert_tokenizer.rs:168-204 | A word has at most one greedy cutting. |
| WordPiece.TokensAreCutting | src/bert_tokenizer.rs:168-204 | The tokens of a word are exactly the ids of a cutting into longest pieces, the first from the initial vocabulary and all later from the continuing one, or [100] when there is none or the word is longer than 100. |
| WordPiece.UnknownExactly | src/bert_tokenizer.rs:168-204 | When no initial piece has id 100, a word is [100] if and only if it is too long or cannot be cut. |
| WordPiece.Encoder.TokenizeWord | src/bert_tokenizer.rs:168-204 | For a word of at most 100 characters that can be cut, appends the ids of its cutting: the first piece the longest that begins words, every later one the longest that continues them; otherwise exactly one 100, after taking back partial output. Earlier ids are untouched. |
| WordPiece.Encoder.FlushWord | src/bert_tokenizer.rs:160-166 | Ends the word in progress. |
| WordPiece.Encoder.PushNormalizedCharacter | src/bert_tokenizer.rs:127-158 | The expansion of one character feeds what the later passes make of it. |
| WordPiece.NormalisedOne | src/bert_tokenizer.rs:88-121 | The separate passes over one character come to the branches of the one-pass encoder. |
| WordPiece.NormalisedInPlain | src/bert_tokenizer.rs:88-121 | The normalisation of one character in plain code points: white space, controls, ASCII punctuation and letters, removed and Chinese characters, and all others. |
| WordPiece.FinishedInPlain | src/bert_tokenizer.rs:127-158 | Of a decomposed character marks go; of its lower case white space separates, ASCII and Unicode punctuation stands alone, and all else stays. |
| WordPiece.LetterPairs | src/bert_tokenizer.rs:140-158 | Capitals become the small letters in the same place. |
| WordPiece.OtherLetters | src/bert_tokenizer.rs:140-158 | Every other character is its own ASCII lower case. |
| WordPiece.ChineseExactly | src/bert_tokenizer.rs:279-291 | The Chinese characters are the eight blocks. |
| WordPiece.LawfulTables | src/bert_tokenizer.rs:88-121 | What is assumed of the Unicode tables can be met, with control characters above ASCII. |
| WordPiece.NormalisedAppend | src/bert_tokenizer.rs:73-125 | The passes act character by character, so prefixes may be processed one at a time. |
| WordPiece.Encoder.Run | src/bert_tokenizer.rs:85-124 | One pass equals the batch definition. |
| WordPiece.Encode | src/bert_tokenizer.rs:73-125 | A text that is some text, one of the five special tokens and some text goes to the reference tokenizer; for any other the result is 101, the tokens of the words of the normalised text, 102. |
| AdaptiveConcurrency.Controller.TryAcquire | src/adaptive_http.rs:64-76 | One turn of the waiting loop. |
| AdaptiveConcurrency.Controller.Finish | src/adaptive_http.rs:88-137 | The new state for every outcome. |
| AdaptiveConcurrency.Controller.ReleaseUnfinished | src/adaptive_http.rs:163-170 | A request dropped without an outcome gives back its place and changes neither limit nor ceiling; the same state function is the release step of the protocol. |
| AdaptiveConcurrency.StepKeepsInv | src/adaptive_http.rs:62-170 | Every step keeps: active counts the held requests, at most 10; 1 <= limit <= ceiling <= 10; limit below ceiling implies successes below limit; nobody sleeps while there is room. |
| AdaptiveConcurrency.RunKeepsInv | src/adaptive_http.rs:62-170 | So does every interleaving. |
| AdaptiveConcurrency.TenAtOnce | src/adaptive_http.rs:62-170 | In every run at most ten requests are held at once; the limit is between 1 and the ceiling, the ceiling at most 10. |
| AdaptiveConcurrency.NeverSaturates | src/adaptive_http.rs:93 | The saturating subtraction never saturates. |
| AdaptiveConcurrency.WaiterCanBeAdmitted | src/adaptive_http.rs:68-74 | With nothing active nobody sleeps and any waiter can be admitted. |
| AdaptiveConcurrency.NoFourthFall | src/adaptive_http.rs:111-119 | In no run does the learned ceiling fall at four moments. |
| AdaptiveConcurrency.CeilingFallsAtMostThreeTimes | src/adaptive_http.rs:111-119 | After one, two and three falls the ceiling is at most 5, 2 and 1. |
| AdaptiveConcurrency.StepMoves | src/adaptive_http.rs:111-131 | The ceiling never rises and falls only outside an open congestion window, to half the limit. |
| AdaptiveConcurrency.TransientHalves | src/adaptive_http.rs:107-110 | A transient failure halves the limit, to 1 at the lowest, and leaves ceiling and window. |
| AdaptiveConcurrency.ThreeTransientsLeaveOne | src/adaptive_http.rs:107-110 | Three transient failures one after another bring any limit to 1. |
| AdaptiveConcurrency.CongestionLowers | src/adaptive_http.rs:111-131 | Congestion lowers the ceiling to half the limit exactly outside an open window and when that is lower; the limit stays within it and the window ends no earlier than the retry delay from now. |
| AdaptiveConcurrency.NeutralOnlyReleases | src/adaptive_http.rs:106-106 | A neutral outcome or a dropped request only gives back its place. |
| AdaptiveConcurrency.FallsAreApart | src/adaptive_http.rs:111-131 | Two falls are at least the first retry delay apart. |
| AdaptiveConcurrency.SuccessesReachCeiling | src/adaptive_http.rs:97-105 | Clean responses bring the limit to the ceiling after exactly the needed number. |
| AdaptiveConcurrency.FullSpeedAfter45 | src/adaptive_http.rs:97-105 | From the start that number is 45. |
| KeyCache.Authenticator.JwkFor | src/http_auth.rs:574-624 | One request, with any change others make to the cache before its second look and during its fetch: it refreshes exactly when a refresh is due at both looks and it has the lock, that is five minutes after the last claim when the key is missing or its set is six hours old; a key is answered from a set of at most 24 hours; result and new cache in every case. |
| KeyCache.JwkForIsRun | src/http_auth.rs:574-624 | That outcome, without interference, is what a run of the step system gives the request. |
| KeyCache.LooksRefreshWhenDue | src/http_auth.rs:574-612 | In the step system a request wants a refresh at its first look, and claims one at its second, exactly when one is due in those terms. |
| KeyCache.Authenticator.Prewarm | src/http_auth.rs:171-184 | A successful prewarm stores the set and the retry bound. |
| KeyCache.StepKeepsInv | src/http_auth.rs:574-624 | Every step of any interleaving of requests and prewarms keeps the invariant. |
| KeyCache.SingleFlight | src/http_auth.rs:593-597 | At most one request-driven refresh is in flight. |
| KeyCache.ClaimsFiveMinutesApart | src/http_auth.rs:598-612 | Refreshes are claimed at clock readings at least five minutes apart. |
| KeyCache.SendsAreAlmostApart | src/http_auth.rs:611-613 | Requests actually sent are at least five minutes apart less the delay of the first after its claim. |
| KeyCache.SendsCanBeClose | src/http_auth.rs:611-613 | That slack is real: for every delay up to five minutes a run whose first request is sent that late and whose second is sent five minutes after the first claim. |
| KeyCache.SendsAreApartExactly | src/http_auth.rs:611-613 | With delays between claim and send bounded by D, all runs send at least five minutes apart if and only if D is 0. |
| KeyCache.ReturnedKeyIsRecent | src/http_auth.rs:574-624 | A returned key was found in a set that this request received earlier in the run, or is from a set at most 24 hours old at a clock reading this request took. |

## Left out

- Walking HTML into blocks, text normalisation and anchors (`src/chunker.rs:64-500`): the model starts from the
  list of blocks. That the walk emits blocks without outer white space, headings with their text as definition
  text, and no context yet is taken from where it makes them (`src/chunker.rs:401-521`).
- The identifier checks inside typed markers (`is_canonical_public_component`, `AssetRef`, `DocumentId`,
  `parse_doc_uri`): parameters of the grammar. The byte length bounds are modelled.
- Floating point in the word estimates: `1.3 * words` and `max / 1.4` are the exact integer functions
  `13 * words / 10` and `5 * max / 7`.
- A bound on pieces whose heading leaves no room for a word, and totality of the exact split: the program
  promises neither.
- TopK.Heap.Push: the library heap is a multiset with a worst element; its array layout is not modelled. The
  same holds for `sort` in TopK.Heap.IntoSorted, which is a selection of the best remaining hit.
- Words of the eligibility bitmap are natural numbers below 2 to the 64th with bit operations defined bit by bit.
- Conversions between 64-bit and platform integers in `src/ann.rs`, and the overflow check on the row count plus 63.
- The rayon scheduler: any split of the blocks is a reduction tree; the sequential fold of a leaf is the block
  loop.
- File identity, links, page alignment of the mapping and the embedding vectors' own validation in
  `src/ann.rs:719-830` and `src/ann.rs:491-617`.
- JSON text of manifests and the overflow of JSON numbers: a manifest is exchanged as a JSON value. Python
  accepts `true` where 1 is meant and a float equal to an integer in the version fields; the model does not.
- Paths, links, permissions, free space, progress output and the cache file of the transport; HTTP retries of
  the store, whose outcomes are those of one put.
- Restore.RestoreTarget: files are values of a map, so writing in place is an update of that map.
- Upload.BlobStore.UploadGeneration: one worker; many workers are the step system. Building the manifest again
  is an input, and its comparison is of manifests where the program compares printed bytes.
- DirectoryUpload.StepKeeps: the directory's steps have no second building of the manifest, which only lets fewer
  runs publish; bytes reach the file in order.
- The slack of one mebibyte allowed for a compressed chunk, and the decompressor's own limits.
- Malformed times and identifiers of register rows, which end a scan with an error; the order in which the
  kept versions are listed (KeysetScan.ScanVersions returns a map); times are whole ticks of 100 nanoseconds.
- Titles, renditions and document pages (`src/frl.rs:1226-1300`, `src/frl.rs:1487-1560`): the same paging shape
  with one-column cursors. The choice of a title's authoritative version is an input of the plan.
- Normalisation of EPUB, DOCX and PDF, the content hash and assets: a stored document is its identity, address
  and hash, present when it loads. A corrupt file in a document's place is not modelled.
- Style and numbering XML; level patches and overrides are one partial function. List counters and restarts
  are not modelled.
- WordPiece.Encode: canonical reordering of combining marks across characters is not modelled, as the program
  decomposes character by character; inputs with literal special tokens are delegated, as in the program.
- Log lines and timings of the concurrency controller; poisoning of its mutex and of the key cache's.
- HTTP fetching, token and signature checks, API keys and configuration in `src/http_auth.rs`.
- SQLite, build orchestration, extraction, rendering and user interfaces: foreign calls and glue.
