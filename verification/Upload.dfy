/**
  Publishing a generation: uploaders put missing chunks into a put-if-absent store in any order
  and put the manifest last. Uploaders run at the same time, stop anywhere and start again.
 */
module Upload {
  import opened Common
  import opened Bytes
  import opened Hashing
  import opened TransportManifest
  import Restore

  datatype BlobName = ChunkBlob(digest: string) | ManifestBlob(generationId: string)

  type Store = map<BlobName, seq<byte>>

  /** Hashing, decompression and manifest printing; compression is any inverse of decompression. */
  datatype Codec = Codec(sha: seq<byte> -> string, decompress: seq<byte> -> Option<seq<byte>>, printed: Manifest -> seq<byte>)

  /** No printed manifest is the beginning of another. */
  ghost predicate PrintsApart(c: Codec) {
    forall a, b :: c.printed(a) <= c.printed(b) ==> a == b
  }

  // ----- the store -----

  datatype Put = Created | AlreadyThere | Collision

  /** A blob is created once and never changed. */
  function PutOutcome(store: Store, name: BlobName, data: seq<byte>): Put {
    if name !in store then Created else if store[name] == data then AlreadyThere else Collision
  }

  function AfterPut(store: Store, name: BlobName, data: seq<byte>): (r: Store)
    ensures forall other :: other in store ==> other in r && r[other] == store[other]
    ensures r.Keys == store.Keys + {name}
    ensures PutOutcome(store, name, data) != Collision <==> r[name] == data
  {
    if name in store then store else store[name := data]
  }

  // ----- uploaders -----

  /** Between planning and publishing an uploader holds its manifest and the chunks not yet acknowledged. */
  datatype Uploader = Uploading(manifest: Manifest, pending: set<string>) | Published | Stopped

  datatype State = State(store: Store, uploaders: map<nat, Uploader>)

  /** What `build_manifest` gives: the entries describe some files. */
  ghost predicate IsBuilt(c: Codec, m: Manifest) {
    exists generation :: Restore.IsOf(c.sha, m, generation)
  }

  /** The chunk listing is a set of names that exist by the time it is complete. */
  ghost predicate PlanStep(c: Codec, s: State, s': State, u: nat, m: Manifest, listed: set<string>) {
    && (u in s.uploaders ==> s.uploaders[u] == Stopped || s.uploaders[u] == Published)
    && IsBuilt(c, m)
    && (forall digest :: digest in listed ==> ChunkBlob(digest) in s.store)
    && s' == s.(uploaders := s.uploaders[u := Uploading(m, FileDigests(m.files) - listed)])
  }

  /** A worker reads its chunk again, checks the digest, compresses it and puts it. */
  ghost predicate ChunkStep(c: Codec, s: State, s': State, u: nat, digest: string, data: seq<byte>, blob: seq<byte>) {
    && u in s.uploaders && s.uploaders[u].Uploading? && digest in s.uploaders[u].pending
    && c.sha(data) == digest && c.decompress(blob) == Some(data)
    && s'.store == AfterPut(s.store, ChunkBlob(digest), blob)
    && (s'.uploaders == s.uploaders
        || s'.uploaders == s.uploaders[u := if PutOutcome(s.store, ChunkBlob(digest), blob) == Collision then Stopped
                                            else s.uploaders[u].(pending := s.uploaders[u].pending - {digest})])
  }

  /** With nothing pending the manifest is put. */
  ghost predicate PublishStep(c: Codec, s: State, s': State, u: nat) {
    && u in s.uploaders && s.uploaders[u].Uploading? && s.uploaders[u].pending == {}
    && var m := s.uploaders[u].manifest;
       && s'.store == AfterPut(s.store, ManifestBlob(m.generationId), c.printed(m))
       && (s'.uploaders == s.uploaders
           || s'.uploaders == s.uploaders[u := if PutOutcome(s.store, ManifestBlob(m.generationId), c.printed(m)) == Collision
                                               then Stopped else Published])
  }

  ghost predicate StopStep(s: State, s': State, u: nat) {
    u in s.uploaders && s' == s.(uploaders := s.uploaders[u := Stopped])
  }

  ghost predicate Next(c: Codec, s: State, s': State) {
    || (exists u, m, listed :: PlanStep(c, s, s', u, m, listed))
    || (exists u, digest, data, blob :: ChunkStep(c, s, s', u, digest, data, blob))
    || (exists u :: PublishStep(c, s, s', u))
    || (exists u :: StopStep(s, s', u))
  }

  // ----- what every run keeps -----

  /** A chunk blob decompresses to data with the digest it is named by. */
  ghost predicate ChunksAreGood(c: Codec, store: Store) {
    forall digest :: ChunkBlob(digest) in store ==>
      var data := c.decompress(store[ChunkBlob(digest)]);
      data.Some? && c.sha(data.value) == digest
  }

  ghost predicate HasChunks(store: Store, digests: set<string>) {
    forall digest :: digest in digests ==> ChunkBlob(digest) in store
  }

  /** Every manifest in the store was built, is stored under its own id, and has all its chunks in the store. */
  ghost predicate ManifestsAreBacked(c: Codec, store: Store) {
    forall id :: ManifestBlob(id) in store ==> exists m :: IsBackedBy(c, store, id, m)
  }

  ghost predicate IsBackedBy(c: Codec, store: Store, id: string, m: Manifest) {
    && ManifestBlob(id) in store && store[ManifestBlob(id)] == c.printed(m) && m.generationId == id
    && IsBuilt(c, m) && HasChunks(store, FileDigests(m.files))
  }

  ghost predicate UploadersAreHonest(c: Codec, s: State) {
    forall u :: u in s.uploaders && s.uploaders[u].Uploading? ==>
      && IsBuilt(c, s.uploaders[u].manifest)
      && HasChunks(s.store, FileDigests(s.uploaders[u].manifest.files) - s.uploaders[u].pending)
  }

  ghost predicate Kept(c: Codec, s: State) {
    ChunksAreGood(c, s.store) && ManifestsAreBacked(c, s.store) && UploadersAreHonest(c, s)
  }

  ghost predicate Grows(store: Store, store': Store) {
    forall name :: name in store ==> name in store' && store'[name] == store[name]
  }

  lemma BackedGrows(c: Codec, store: Store, store': Store, id: string, m: Manifest)
    requires Grows(store, store') && IsBackedBy(c, store, id, m)
    ensures IsBackedBy(c, store', id, m)
  {
  }

  lemma HonestGrows(c: Codec, s: State, s': State, u: nat, next: Uploader)
    requires UploadersAreHonest(c, s) && Grows(s.store, s'.store)
    requires s'.uploaders == s.uploaders[u := next]
    requires next.Uploading? ==> IsBuilt(c, next.manifest) && HasChunks(s'.store, FileDigests(next.manifest.files) - next.pending)
    ensures UploadersAreHonest(c, s')
  {
    hide IsBuilt, FileDigests;
  }

  lemma PlanKeeps(c: Codec, s: State, s': State, u: nat, m: Manifest, listed: set<string>)
    requires Kept(c, s) && PlanStep(c, s, s', u, m, listed)
    ensures Kept(c, s')
  {
    hide IsBuilt, FileDigests, ChunksAreGood, ManifestsAreBacked;
    HonestGrows(c, s, s', u, s'.uploaders[u]);
  }

  lemma ChunkKeeps(c: Codec, s: State, s': State, u: nat, digest: string, data: seq<byte>, blob: seq<byte>)
    requires Kept(c, s) && ChunkStep(c, s, s', u, digest, data, blob)
    ensures Kept(c, s')
  {
    hide IsBuilt, FileDigests, UploadersAreHonest, ManifestsAreBacked, IsBackedBy;
    var up := s.uploaders[u];
    assert IsBuilt(c, up.manifest) && HasChunks(s.store, FileDigests(up.manifest.files) - up.pending) by {
      HonestAt(c, s, u);
    }
    assert s.uploaders == s.uploaders[u := up];
    HonestGrows(c, s, s', u, if s'.uploaders == s.uploaders then up else s'.uploaders[u]);
    StoreGrows(c, s.store, s'.store);
  }

  lemma HonestAt(c: Codec, s: State, u: nat)
    requires UploadersAreHonest(c, s) && u in s.uploaders && s.uploaders[u].Uploading?
    ensures IsBuilt(c, s.uploaders[u].manifest)
    ensures HasChunks(s.store, FileDigests(s.uploaders[u].manifest.files) - s.uploaders[u].pending)
  {
  }

  lemma StoreGrows(c: Codec, store: Store, store': Store)
    requires Grows(store, store') && ManifestsAreBacked(c, store)
    requires forall id :: ManifestBlob(id) in store' ==> ManifestBlob(id) in store
    ensures ManifestsAreBacked(c, store')
  {
    hide IsBackedBy;
    forall id | ManifestBlob(id) in store' ensures exists m :: IsBackedBy(c, store', id, m) {
      var m :| IsBackedBy(c, store, id, m);
      BackedGrows(c, store, store', id, m);
    }
  }

  lemma PublishKeeps(c: Codec, s: State, s': State, u: nat)
    requires Kept(c, s) && PublishStep(c, s, s', u)
    ensures Kept(c, s')
  {
    hide IsBuilt, FileDigests, UploadersAreHonest;
    var up := s.uploaders[u];
    HonestAt(c, s, u);
    assert FileDigests(up.manifest.files) - up.pending == FileDigests(up.manifest.files);
    assert s.uploaders == s.uploaders[u := up];
    HonestGrows(c, s, s', u, if s'.uploaders == s.uploaders then up else s'.uploaders[u]);
    PublishedIsBacked(c, s.store, s'.store, up.manifest);
  }

  lemma PublishedIsBacked(c: Codec, store: Store, store': Store, m: Manifest)
    requires ManifestsAreBacked(c, store) && IsBuilt(c, m) && HasChunks(store, FileDigests(m.files))
    requires store' == AfterPut(store, ManifestBlob(m.generationId), c.printed(m))
    ensures ManifestsAreBacked(c, store')
  {
    hide IsBuilt, FileDigests;
    forall id | ManifestBlob(id) in store' ensures exists other :: IsBackedBy(c, store', id, other) {
      if ManifestBlob(id) in store {
        var other :| IsBackedBy(c, store, id, other);
        BackedGrows(c, store, store', id, other);
      } else {
        assert IsBackedBy(c, store', id, m);
      }
    }
  }

  lemma StopKeeps(c: Codec, s: State, s': State, u: nat)
    requires Kept(c, s) && StopStep(s, s', u)
    ensures Kept(c, s')
  {
    hide ChunksAreGood, ManifestsAreBacked;
    HonestGrows(c, s, s', u, Stopped);
  }

  lemma StepKeeps(c: Codec, s: State, s': State)
    requires Kept(c, s) && Next(c, s, s')
    ensures Kept(c, s') && Grows(s.store, s'.store)
  {
    hide Kept, IsBuilt, FileDigests;
    if u, m, listed :| PlanStep(c, s, s', u, m, listed) {
      PlanKeeps(c, s, s', u, m, listed);
    } else if u, digest, data, blob :| ChunkStep(c, s, s', u, digest, data, blob) {
      ChunkKeeps(c, s, s', u, digest, data, blob);
    } else if u :| PublishStep(c, s, s', u) {
      PublishKeeps(c, s, s', u);
    } else {
      var u :| StopStep(s, s', u);
      StopKeeps(c, s, s', u);
    }
  }

  ghost predicate IsRun(c: Codec, run: seq<State>) {
    && run != []
    && run[0] == State(map[], map[])
    && forall i :: 0 < i < |run| ==> Next(c, run[i - 1], run[i])
  }

  lemma {:induction false} RunKeeps(c: Codec, run: seq<State>)
    requires IsRun(c, run)
    ensures Kept(c, run[|run| - 1])
  {
    hide Next;
    var n := |run| - 1;
    if n > 0 {
      RunKeeps(c, run[..n]);
      assert Next(c, run[n - 1], run[n]);
      StepKeeps(c, run[n - 1], run[n]);
    }
  }

  lemma {:induction false} DigestsOfFile(files: seq<FileEntry>, i: nat, k: nat)
    requires i < |files| && k < |files[i].chunks|
    ensures files[i].chunks[k].sha256 in FileDigests(files)
  {
    if i < |files| - 1 {
      DigestsOfFile(files[..|files| - 1], i, k);
    }
  }

  /**
    Manifest last: at every moment of every run, each chunk that a stored manifest names is stored
    and decompresses to data with that digest.
   */
  lemma ManifestIsLast(c: Codec, run: seq<State>, m: Manifest, digest: string)
    requires PrintsApart(c) && IsRun(c, run) && ManifestBlob(m.generationId) in run[|run| - 1].store
    requires run[|run| - 1].store[ManifestBlob(m.generationId)] == c.printed(m) && digest in FileDigests(m.files)
    ensures IsGood(c, run[|run| - 1].store, digest)
  {
    hide Next, IsBuilt, FileDigests, UploadersAreHonest;
    RunKeeps(c, run);
    var other :| IsBackedBy(c, run[|run| - 1].store, m.generationId, other);
    assert other == m;
  }

  /** The chunk is stored and decompresses to data with its digest. */
  ghost predicate IsGood(c: Codec, store: Store, digest: string) {
    && ChunkBlob(digest) in store
    && c.decompress(store[ChunkBlob(digest)]).Some? && c.sha(c.decompress(store[ChunkBlob(digest)]).value) == digest
  }

  /** What the chunk blobs of a store decompress to. */
  function Unpacked(c: Codec, store: Store): set<seq<byte>> {
    set name | name in store && name.ChunkBlob? && c.decompress(store[name]).Some? :: c.decompress(store[name]).value
  }

  lemma {:induction false} DigestIsChunk(files: seq<FileEntry>, digest: string) returns (i: nat, k: nat)
    requires digest in FileDigests(files)
    ensures i < |files| && k < |files[i].chunks| && files[i].chunks[k].sha256 == digest
  {
    var last := |files| - 1;
    if digest in Digests(files[last].chunks) {
      i := last;
      k :| k < |files[last].chunks| && files[last].chunks[k].sha256 == digest;
    } else {
      i, k := DigestIsChunk(files[..last], digest);
    }
  }

  /**
    A restore of a published manifest finds, for every target, exactly the bytes it needs, when digests
    tell the generation's chunks and what is stored apart.
   */
  lemma RestoreFindsItsChunks(c: Codec, run: seq<State>, m: Manifest, generation: Restore.Disk, digest: string, t: Restore.Target)
    requires PrintsApart(c) && IsRun(c, run) && ManifestBlob(m.generationId) in run[|run| - 1].store
    requires run[|run| - 1].store[ManifestBlob(m.generationId)] == c.printed(m)
    requires Restore.IsOf(c.sha, m, generation) && Restore.IsTarget(m, digest, t)
    requires InjectiveOn(c.sha, Restore.Chunks(m, generation) + Unpacked(c, run[|run| - 1].store))
    ensures ChunkBlob(digest) in run[|run| - 1].store && Restore.Inside(generation, t)
    ensures c.decompress(run[|run| - 1].store[ChunkBlob(digest)]) == Some(Restore.Region(generation, t))
  {
    hide Next, Restore.IsOf, Restore.Chunks;
    var i, k :| Restore.IsChunkAt(m, digest, t, i, k);
    DigestsOfFile(m.files, i, k);
    ManifestIsLast(c, run, m, digest);
    assert Restore.IsTarget(m, digest, t);
    var store := run[|run| - 1].store;
    var data := c.decompress(store[ChunkBlob(digest)]).value;
    assert data in Unpacked(c, store);
    Restore.DigestMeansChunk(c.sha, m, generation, Restore.Chunks(m, generation) + Unpacked(c, store), digest, t, data);
  }

  /** A manifest, once published, is never replaced or removed. */
  lemma {:induction false} PublishedStays(c: Codec, run: seq<State>, i: nat)
    requires IsRun(c, run) && i < |run|
    ensures Grows(run[i].store, run[|run| - 1].store)
  {
    hide Next;
    var n := |run| - 1;
    if i < n {
      PublishedStays(c, run[..n], i);
      RunKeeps(c, run[..n]);
      assert Next(c, run[n - 1], run[n]);
      StepKeeps(c, run[n - 1], run[n]);
    }
  }

  // ----- one uploader -----

  class BlobStore {
    var blobs: Store

    constructor ()
      ensures blobs == map[]
    {
      blobs := map[];
    }

    method PutImmutable(name: BlobName, data: seq<byte>) returns (r: Put)
      modifies this
      ensures r == PutOutcome(old(blobs), name, data) && blobs == AfterPut(old(blobs), name, data)
    {
      if name !in blobs {
        blobs := blobs[name := data];
        return Created;
      }
      return if blobs[name] == data then AlreadyThere else Collision;
    }

    /**
      The whole upload with one worker: list, put what is missing, build the manifest again and put it
      if it is the same. `again` is what building again gives. Every put is a step of the protocol.
     */
    method UploadGeneration(c: Codec, compress: seq<byte> -> seq<byte>, m: Manifest, unique: seq<string>,
                            chunks: map<string, seq<byte>>, again: Manifest)
      returns (r: bool, ghost trail: seq<State>)
      requires IsBuilt(c, m) && (forall digest :: digest in unique <==> digest in FileDigests(m.files))
      requires forall i, j :: 0 <= i < j < |unique| ==> unique[i] != unique[j]
      requires forall digest :: digest in unique ==> digest in chunks
      requires forall data :: c.decompress(compress(data)) == Some(data)
      requires Kept(c, State(blobs, map[]))
      modifies this
      ensures IsTrail(c, trail, old(blobs), blobs) && Kept(c, trail[|trail| - 1]) && Grows(old(blobs), blobs)
      ensures r <==>
              && (forall digest :: digest in unique && ChunkBlob(digest) !in old(blobs) ==> c.sha(chunks[digest]) == digest)
              && again == m
              && (ManifestBlob(m.generationId) in old(blobs) ==> old(blobs)[ManifestBlob(m.generationId)] == c.printed(m))
      ensures r ==> trail[|trail| - 1].uploaders == map[0 := Published]
      ensures r ==> ManifestBlob(m.generationId) in blobs && blobs[ManifestBlob(m.generationId)] == c.printed(m)
      ensures !r ==> forall id :: ManifestBlob(id) in blobs ==> ManifestBlob(id) in old(blobs)
    {
      hide IsBuilt, FileDigests, Kept, Next, IsTrail;
      var existing := set name | name in blobs.Keys && name.ChunkBlob? :: name.digest;
      var missing := Missing(unique, existing);
      ghost var before := blobs;
      Planned(c, m, existing, blobs);
      assert FileDigests(m.files) - existing == set digest | digest in missing;
      ghost var planned := State(blobs, map[0 := Uploading(m, set digest | digest in missing)]);
      StepKeeps(c, State(blobs, map[]), planned);
      TrailStarts(c, blobs, planned);
      var ok;
      ok, trail := PutMissing(c, compress, m, missing, chunks, [State(blobs, map[]), planned]);
      if !ok || again != m {
        return false, trail;
      }
      ghost var put0 := trail[|trail| - 1];
      var put := PutImmutable(ManifestBlob(m.generationId), c.printed(m));
      ghost var after := State(blobs, map[0 := if put == Collision then Stopped else Published]);
      ManifestPut(c, put0, after, m);
      StepKeeps(c, put0, after);
      TrailStep(c, trail, before, after);
      trail := trail + [after];
      return put != Collision, trail;
    }

    /** The names of the chunks that the listing lacks. */
    method Missing(unique: seq<string>, existing: set<string>) returns (missing: seq<string>)
      requires forall i, j :: 0 <= i < j < |unique| ==> unique[i] != unique[j]
      ensures forall digest :: digest in missing <==> digest in unique && digest !in existing
      ensures forall j, k :: 0 <= j < k < |missing| ==> missing[j] != missing[k]
    {
      missing := [];
      for i := 0 to |unique|
        invariant forall digest :: digest in missing <==> digest in unique[..i] && digest !in existing
        invariant forall j, k :: 0 <= j < k < |missing| ==> missing[j] != missing[k]
      {
        assert unique[i] !in unique[..i];
        if unique[i] !in existing {
          missing := missing + [unique[i]];
        }
      }
      assert unique[..|unique|] == unique;
    }

    /** The missing chunks are put one after another; it stops at one whose data has changed. */
    method PutMissing(c: Codec, compress: seq<byte> -> seq<byte>, m: Manifest, missing: seq<string>, chunks: map<string, seq<byte>>,
                      ghost trail: seq<State>)
      returns (ok: bool, ghost longer: seq<State>)
      requires forall digest :: digest in missing ==> digest in chunks && ChunkBlob(digest) !in blobs
      requires forall j, k :: 0 <= j < k < |missing| ==> missing[j] != missing[k]
      requires forall data :: c.decompress(compress(data)) == Some(data)
      requires trail != [] && IsTrail(c, trail, trail[0].store, blobs) && Kept(c, trail[|trail| - 1])
      requires trail[|trail| - 1] == State(blobs, map[0 := Uploading(m, set digest | digest in missing)])
      modifies this
      ensures longer != [] && IsTrail(c, longer, trail[0].store, blobs) && Kept(c, longer[|longer| - 1])
      ensures Grows(old(blobs), blobs) && forall id :: ManifestBlob(id) in blobs <==> ManifestBlob(id) in old(blobs)
      ensures ok <==> forall digest :: digest in missing ==> c.sha(chunks[digest]) == digest
      ensures ok ==> longer[|longer| - 1] == State(blobs, map[0 := Uploading(m, {})])
    {
      hide Kept, Next, IsTrail;
      longer := trail;
      ghost var pending := set digest | digest in missing;
      for i := 0 to |missing|
        invariant longer != [] && IsTrail(c, longer, trail[0].store, blobs) && Kept(c, longer[|longer| - 1])
        invariant longer[|longer| - 1] == State(blobs, map[0 := Uploading(m, pending)])
        invariant Grows(old(blobs), blobs)
        invariant forall digest :: digest in missing[i..] <==> digest in pending
        invariant forall digest :: digest in pending ==> ChunkBlob(digest) !in blobs
        invariant forall id :: ManifestBlob(id) in blobs <==> ManifestBlob(id) in old(blobs)
        invariant forall k :: 0 <= k < i ==> c.sha(chunks[missing[k]]) == missing[k]
      {
        var digest := missing[i];
        assert missing[i..] == [digest] + missing[i + 1..];
        var raw := chunks[digest];
        if c.sha(raw) != digest {
          assert digest in missing;
          return false, longer;
        }
        ghost var before := longer[|longer| - 1];
        var put := PutImmutable(ChunkBlob(digest), compress(raw));
        pending := pending - {digest};
        ghost var after := State(blobs, map[0 := Uploading(m, pending)]);
        ChunkPut(c, before, after, m, digest, raw, compress(raw));
        StepKeeps(c, before, after);
        TrailLast(c, longer, trail[0].store, before.store);
        TrailStep(c, longer, trail[0].store, after);
        longer := longer + [after];
      }
      assert pending == {};
      return true, longer;
    }
  }

  lemma TrailLast(c: Codec, trail: seq<State>, from: Store, to: Store)
    requires IsTrail(c, trail, from, to)
    ensures trail != [] && trail[|trail| - 1].store == to
  {
  }

  lemma TrailStarts(c: Codec, store: Store, next: State)
    requires Next(c, State(store, map[]), next)
    ensures IsTrail(c, [State(store, map[]), next], store, next.store)
  {
  }

  /** Steps of the protocol from one store to another. */
  ghost predicate IsTrail(c: Codec, trail: seq<State>, from: Store, to: Store) {
    && trail != [] && trail[0] == State(from, map[]) && trail[|trail| - 1].store == to
    && forall i :: 0 < i < |trail| ==> Next(c, trail[i - 1], trail[i])
  }

  lemma TrailStep(c: Codec, trail: seq<State>, from: Store, next: State)
    requires trail != [] && IsTrail(c, trail, from, trail[|trail| - 1].store) && Next(c, trail[|trail| - 1], next)
    ensures IsTrail(c, trail + [next], from, next.store)
  {
    hide Next;
    var more := trail + [next];
    forall i | 0 < i < |more| ensures Next(c, more[i - 1], more[i]) {
      if i < |trail| {
        assert Next(c, trail[i - 1], trail[i]);
      }
    }
  }

  lemma Planned(c: Codec, m: Manifest, listed: set<string>, store: Store)
    requires IsBuilt(c, m) && forall digest :: digest in listed ==> ChunkBlob(digest) in store
    ensures Next(c, State(store, map[]), State(store, map[0 := Uploading(m, FileDigests(m.files) - listed)]))
  {
    hide IsBuilt, FileDigests;
    assert PlanStep(c, State(store, map[]), State(store, map[0 := Uploading(m, FileDigests(m.files) - listed)]), 0, m, listed);
  }

  lemma ChunkPut(c: Codec, s: State, s': State, m: Manifest, digest: string, data: seq<byte>, blob: seq<byte>)
    requires 0 in s.uploaders && s.uploaders[0].Uploading? && s.uploaders == map[0 := s.uploaders[0]] && s.uploaders[0].manifest == m
    requires digest in s.uploaders[0].pending && ChunkBlob(digest) !in s.store && c.sha(data) == digest && c.decompress(blob) == Some(data)
    requires s' == State(AfterPut(s.store, ChunkBlob(digest), blob), map[0 := Uploading(m, s.uploaders[0].pending - {digest})])
    ensures Next(c, s, s')
  {
    assert ChunkStep(c, s, s', 0, digest, data, blob);
  }

  lemma ManifestPut(c: Codec, s: State, s': State, m: Manifest)
    requires s.uploaders == map[0 := Uploading(m, {})]
    requires s'.store == AfterPut(s.store, ManifestBlob(m.generationId), c.printed(m))
    requires s'.uploaders == map[0 := if PutOutcome(s.store, ManifestBlob(m.generationId), c.printed(m)) == Collision then Stopped else Published]
    ensures Next(c, s, s')
  {
    assert PublishStep(c, s, s', 0);
  }
}
