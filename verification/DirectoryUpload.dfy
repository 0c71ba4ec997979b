/**
  Uploading to a directory. The directory store creates a file, fills it and, if writing fails, removes
  it again, and other uploaders see every state in between: they list the file, or find it there and
  compare. The theorem says exactly when a stored manifest has its chunks.
 */
module DirectoryUpload {
  import opened Common
  import opened Bytes
  import opened TransportManifest
  import opened Upload
  import Restore

  /** A compressed chunk cut short does not decompress. */
  ghost predicate CutIsUnreadable(c: Codec) {
    forall blob, n :: 0 <= n < |blob| && c.decompress(blob).Some? ==> c.decompress(blob[..n]).None?
  }

  ghost predicate Lawful(c: Codec) {
    PrintsApart(c) && CutIsUnreadable(c)
  }

  // ----- uploaders -----

  /** What is left to put: waiting, being filled by this uploader, or failed. */
  datatype Work = Waiting | Filling | Failed

  /** `last` says that the work is the manifest. An uploader without work left has published. */
  datatype Uploader = Listing(manifest: Manifest, listed: set<string>) | Putting(manifest: Manifest, work: map<BlobName, Work>, last: bool)

  /**
    The files; what each was created to hold; the names taken away after a failed write and not
    created since; and the uploaders at work.
   */
  datatype Directory = Directory(files: Store, meant: Store, removed: set<BlobName>, uploaders: map<nat, Uploader>)

  /** Created and not filled. */
  predicate IsTorn(s: Directory, name: BlobName) {
    name in s.files && name in s.meant && |s.files[name]| < |s.meant[name]|
  }

  function Todo(names: set<BlobName>): map<BlobName, Work> {
    map name | name in names :: Waiting
  }

  function ChunkNames(digests: set<string>): set<BlobName> {
    set digest | digest in digests :: ChunkBlob(digest)
  }

  /** What may be put under a name: a compressed chunk of that digest, or the manifest. */
  ghost predicate Belongs(c: Codec, m: Manifest, name: BlobName, blob: seq<byte>) {
    match name
    case ChunkBlob(digest) => c.decompress(blob).Some? && c.sha(c.decompress(blob).value) == digest
    case ManifestBlob(id) => id == m.generationId && blob == c.printed(m)
  }

  ghost predicate Has(s: Directory, u: nat, name: BlobName, w: Work) {
    u in s.uploaders && s.uploaders[u].Putting? && name in s.uploaders[u].work && s.uploaders[u].work[name] == w
  }

  function With(s: Directory, u: nat, up: Uploader): Directory {
    s.(uploaders := s.uploaders[u := up])
  }

  // ----- steps -----

  ghost predicate BeginStep(c: Codec, s: Directory, s': Directory, u: nat, m: Manifest) {
    u !in s.uploaders && IsBuilt(c, m) && s' == With(s, u, Listing(m, {}))
  }

  /** The walk of the directory comes upon some files, whatever is in them. */
  ghost predicate ListStep(s: Directory, s': Directory, u: nat, found: set<string>) {
    && u in s.uploaders && s.uploaders[u].Listing? && ChunkNames(found) <= s.files.Keys
    && s' == With(s, u, s.uploaders[u].(listed := s.uploaders[u].listed + found))
  }

  ghost predicate PlanStep(s: Directory, s': Directory, u: nat) {
    && u in s.uploaders && s.uploaders[u].Listing?
    && var up := s.uploaders[u];
       s' == With(s, u, Putting(up.manifest, Todo(ChunkNames(FileDigests(up.manifest.files) - up.listed)), false))
  }

  /** With no chunk left, the manifest is next. */
  ghost predicate TurnStep(s: Directory, s': Directory, u: nat) {
    && u in s.uploaders && s.uploaders[u].Putting? && !s.uploaders[u].last && s.uploaders[u].work == map[]
    && s' == With(s, u, Putting(s.uploaders[u].manifest, Todo({ManifestBlob(s.uploaders[u].manifest.generationId)}), true))
  }

  function WithWork(s: Directory, u: nat, work: map<BlobName, Work>): Directory
    requires u in s.uploaders && s.uploaders[u].Putting?
  {
    With(s, u, s.uploaders[u].(work := work))
  }

  /** The file is created empty. */
  ghost predicate CreateStep(c: Codec, s: Directory, s': Directory, u: nat, name: BlobName, blob: seq<byte>) {
    && Has(s, u, name, Waiting) && name !in s.files && Belongs(c, s.uploaders[u].manifest, name, blob)
    && s' == WithWork(s, u, s.uploaders[u].work[name := Filling])
             .(files := s.files[name := []], meant := s.meant[name := blob], removed := s.removed - {name})
  }

  /** The file is there; with the same content that is as good as having put it, otherwise the put fails. */
  ghost predicate CompareStep(c: Codec, s: Directory, s': Directory, u: nat, name: BlobName, blob: seq<byte>) {
    && Has(s, u, name, Waiting) && name in s.files && Belongs(c, s.uploaders[u].manifest, name, blob)
    && s' == if s.files[name] == blob then WithWork(s, u, s.uploaders[u].work - {name})
             else WithWork(s, u, s.uploaders[u].work[name := Failed])
  }

  /** More of the content is written. */
  ghost predicate FillStep(s: Directory, s': Directory, u: nat, name: BlobName, n: nat) {
    && Has(s, u, name, Filling) && name in s.files && name in s.meant && |s.files[name]| <= n <= |s.meant[name]|
    && s' == s.(files := s.files[name := s.meant[name][..n]])
  }

  ghost predicate FinishStep(s: Directory, s': Directory, u: nat, name: BlobName) {
    && Has(s, u, name, Filling) && name in s.files && name in s.meant && s.files[name] == s.meant[name]
    && s' == WithWork(s, u, s.uploaders[u].work - {name})
  }

  /** Writing or syncing fails, and the file is unlinked. */
  ghost predicate RemoveStep(s: Directory, s': Directory, u: nat, name: BlobName) {
    && Has(s, u, name, Filling) && name in s.files
    && s' == WithWork(s, u, s.uploaders[u].work[name := Failed])
             .(files := s.files - {name}, meant := s.meant - {name}, removed := s.removed + {name})
  }

  /** The process stops; the files stay as they are. */
  ghost predicate StopStep(s: Directory, s': Directory, u: nat) {
    u in s.uploaders && s' == s.(uploaders := s.uploaders - {u})
  }

  ghost predicate PutStep(c: Codec, s: Directory, s': Directory, u: nat, name: BlobName) {
    || (exists blob :: CreateStep(c, s, s', u, name, blob))
    || (exists blob :: CompareStep(c, s, s', u, name, blob))
    || (exists n: nat :: FillStep(s, s', u, name, n))
    || FinishStep(s, s', u, name)
    || RemoveStep(s, s', u, name)
  }

  ghost predicate Next(c: Codec, s: Directory, s': Directory) {
    || (exists u: nat, m :: BeginStep(c, s, s', u, m))
    || (exists u: nat, found :: ListStep(s, s', u, found))
    || (exists u: nat :: PlanStep(s, s', u))
    || (exists u: nat :: TurnStep(s, s', u))
    || (exists u: nat, name :: PutStep(c, s, s', u, name))
    || (exists u: nat :: StopStep(s, s', u))
  }

  // ----- what every run keeps -----

  /** A file holds the beginning of what it is meant to hold. */
  ghost predicate FilesAreMeant(s: Directory) {
    && s.meant.Keys == s.files.Keys && s.removed !! s.files.Keys
    && forall name :: name in s.files ==> s.files[name] <= s.meant[name]
  }

  /** The name was created at some time. */
  predicate WasThere(s: Directory, name: BlobName) {
    name in s.files || name in s.removed
  }

  ghost predicate AllWereThere(s: Directory, m: Manifest) {
    forall digest :: digest in FileDigests(m.files) ==> WasThere(s, ChunkBlob(digest))
  }

  /** What is meant for a name belongs to it; a manifest is begun only when all its chunks were there. */
  ghost predicate MeantWell(c: Codec, s: Directory, name: BlobName) {
    name in s.meant && exists m :: IsBuilt(c, m) && Belongs(c, m, name, s.meant[name]) && (name.ManifestBlob? ==> AllWereThere(s, m))
  }

  ghost predicate Honest(c: Codec, s: Directory, up: Uploader) {
    && IsBuilt(c, up.manifest)
    && match up
       case Listing(m, listed) => forall digest :: digest in listed ==> WasThere(s, ChunkBlob(digest))
       case Putting(m, work, last) =>
         if last then AllWereThere(s, m)
         else
           && (forall name :: name in work ==> name.ChunkBlob?)
           && forall digest :: digest in FileDigests(m.files) ==> WasThere(s, ChunkBlob(digest)) || ChunkBlob(digest) in work
  }

  ghost predicate Kept(c: Codec, s: Directory) {
    && FilesAreMeant(s)
    && (forall name :: name in s.meant ==> MeantWell(c, s, name))
    && forall u :: u in s.uploaders ==> Honest(c, s, s.uploaders[u])
  }

  /** What was there once was there for ever. */
  ghost predicate Remembers(s: Directory, s': Directory) {
    forall name :: WasThere(s, name) ==> WasThere(s', name)
  }

  lemma HonestLater(c: Codec, s: Directory, s': Directory, up: Uploader)
    requires Honest(c, s, up) && Remembers(s, s')
    ensures Honest(c, s', up)
  {
    hide IsBuilt, FileDigests;
  }

  lemma MeantLater(c: Codec, s: Directory, s': Directory, name: BlobName)
    requires name in s.meant && MeantWell(c, s, name) && Remembers(s, s') && name in s'.meant && s'.meant[name] == s.meant[name]
    ensures MeantWell(c, s', name)
  {
    hide IsBuilt, FileDigests, Belongs;
    var m :| IsBuilt(c, m) && Belongs(c, m, name, s.meant[name]) && (name.ManifestBlob? ==> AllWereThere(s, m));
    assert name.ManifestBlob? ==> AllWereThere(s', m);
  }

  /** A step of one uploader keeps what the others rely on. */
  lemma OthersKeep(c: Codec, s: Directory, s': Directory, u: nat, changed: set<BlobName>)
    requires Kept(c, s) && Remembers(s, s') && FilesAreMeant(s')
    requires s'.uploaders.Keys <= s.uploaders.Keys + {u}
    requires forall v :: v in s'.uploaders && v != u ==> s'.uploaders[v] == s.uploaders[v]
    requires u in s'.uploaders ==> Honest(c, s', s'.uploaders[u])
    requires forall name :: name in s'.meant && name !in changed ==> name in s.meant && s'.meant[name] == s.meant[name]
    requires forall name :: name in s'.meant && name in changed ==> MeantWell(c, s', name)
    ensures Kept(c, s')
  {
    hide Honest, MeantWell, Remembers, FilesAreMeant;
    forall v | v in s'.uploaders ensures Honest(c, s', s'.uploaders[v]) {
      if v != u {
        HonestLater(c, s, s', s.uploaders[v]);
      }
    }
    forall name | name in s'.meant ensures MeantWell(c, s', name) {
      if name !in changed {
        MeantLater(c, s, s', name);
      }
    }
  }

  /** Steps that touch no file. */
  lemma QuietKeeps(c: Codec, s: Directory, s': Directory, u: nat)
    requires Kept(c, s) && s'.files == s.files && s'.meant == s.meant && s'.removed == s.removed
    requires s'.uploaders.Keys <= s.uploaders.Keys + {u}
    requires forall v :: v in s'.uploaders && v != u ==> v in s.uploaders && s'.uploaders[v] == s.uploaders[v]
    requires u in s'.uploaders ==> Honest(c, s', s'.uploaders[u])
    ensures Kept(c, s') && Remembers(s, s')
  {
    hide Honest, MeantWell;
    assert Remembers(s, s');
    OthersKeep(c, s, s', u, {});
  }

  lemma BeginKeeps(c: Codec, s: Directory, s': Directory, u: nat, m: Manifest)
    requires Kept(c, s) && BeginStep(c, s, s', u, m)
    ensures Kept(c, s') && Remembers(s, s')
  {
    hide IsBuilt, Kept;
    QuietKeeps(c, s, s', u);
  }

  lemma ListKeeps(c: Codec, s: Directory, s': Directory, u: nat, found: set<string>)
    requires Kept(c, s) && ListStep(s, s', u, found)
    ensures Kept(c, s') && Remembers(s, s')
  {
    hide IsBuilt, Kept, MeantWell;
    HonestAt(c, s, u);
    forall digest | digest in found ensures WasThere(s, ChunkBlob(digest)) {
      assert ChunkBlob(digest) in ChunkNames(found);
    }
    QuietKeeps(c, s, s', u);
  }

  lemma HonestAt(c: Codec, s: Directory, u: nat)
    requires Kept(c, s) && u in s.uploaders
    ensures Honest(c, s, s.uploaders[u])
  {
    hide Honest;
  }

  lemma PlanKeeps(c: Codec, s: Directory, s': Directory, u: nat)
    requires Kept(c, s) && PlanStep(s, s', u)
    ensures Kept(c, s') && Remembers(s, s')
  {
    hide IsBuilt, Kept, FileDigests;
    HonestAt(c, s, u);
    QuietKeeps(c, s, s', u);
  }

  lemma TurnKeeps(c: Codec, s: Directory, s': Directory, u: nat)
    requires Kept(c, s) && TurnStep(s, s', u)
    ensures Kept(c, s') && Remembers(s, s')
  {
    hide IsBuilt, Kept, FileDigests;
    HonestAt(c, s, u);
    QuietKeeps(c, s, s', u);
  }

  lemma StopKeeps(c: Codec, s: Directory, s': Directory, u: nat)
    requires Kept(c, s) && StopStep(s, s', u)
    ensures Kept(c, s') && Remembers(s, s')
  {
    hide Kept, Honest;
    QuietKeeps(c, s, s', u);
  }

  lemma CreateKeeps(c: Codec, s: Directory, s': Directory, u: nat, name: BlobName, blob: seq<byte>)
    requires Kept(c, s) && CreateStep(c, s, s', u, name, blob)
    ensures Kept(c, s') && Remembers(s, s')
  {
    hide IsBuilt, FileDigests, Belongs;
    assert Remembers(s, s');
    HonestAt(c, s, u);
    HonestLater(c, s, s', s.uploaders[u]);
    assert MeantWell(c, s', name);
    OthersKeep(c, s, s', u, {name});
  }

  lemma CompareKeeps(c: Codec, s: Directory, s': Directory, u: nat, name: BlobName, blob: seq<byte>)
    requires Kept(c, s) && CompareStep(c, s, s', u, name, blob)
    ensures Kept(c, s') && Remembers(s, s')
  {
    hide IsBuilt, FileDigests, Belongs, MeantWell, FilesAreMeant;
    HonestAt(c, s, u);
    QuietKeeps(c, s, s', u);
  }

  lemma FillKeeps(c: Codec, s: Directory, s': Directory, u: nat, name: BlobName, n: nat)
    requires Kept(c, s) && FillStep(s, s', u, name, n)
    ensures Kept(c, s') && Remembers(s, s')
  {
    hide IsBuilt, FileDigests, MeantWell;
    assert Remembers(s, s');
    HonestAt(c, s, u);
    HonestLater(c, s, s', s.uploaders[u]);
    OthersKeep(c, s, s', u, {});
  }

  lemma FinishKeeps(c: Codec, s: Directory, s': Directory, u: nat, name: BlobName)
    requires Kept(c, s) && FinishStep(s, s', u, name)
    ensures Kept(c, s') && Remembers(s, s')
  {
    hide IsBuilt, FileDigests, MeantWell, FilesAreMeant;
    HonestAt(c, s, u);
    QuietKeeps(c, s, s', u);
  }

  lemma RemoveKeeps(c: Codec, s: Directory, s': Directory, u: nat, name: BlobName)
    requires Kept(c, s) && RemoveStep(s, s', u, name)
    ensures Kept(c, s') && Remembers(s, s')
  {
    hide IsBuilt, FileDigests, MeantWell;
    assert Remembers(s, s');
    HonestAt(c, s, u);
    HonestLater(c, s, s', s.uploaders[u]);
    OthersKeep(c, s, s', u, {});
  }

  lemma StepKeeps(c: Codec, s: Directory, s': Directory)
    requires Kept(c, s) && Next(c, s, s')
    ensures Kept(c, s') && Remembers(s, s')
  {
    hide Kept, Remembers, BeginStep, ListStep, PlanStep, TurnStep, CreateStep, CompareStep, FillStep, FinishStep, RemoveStep, StopStep;
    if u: nat, m :| BeginStep(c, s, s', u, m) {
      BeginKeeps(c, s, s', u, m);
    } else if u: nat, found :| ListStep(s, s', u, found) {
      ListKeeps(c, s, s', u, found);
    } else if u: nat :| PlanStep(s, s', u) {
      PlanKeeps(c, s, s', u);
    } else if u: nat :| TurnStep(s, s', u) {
      TurnKeeps(c, s, s', u);
    } else if u: nat, name :| PutStep(c, s, s', u, name) {
      if blob :| CreateStep(c, s, s', u, name, blob) {
        CreateKeeps(c, s, s', u, name, blob);
      } else if blob :| CompareStep(c, s, s', u, name, blob) {
        CompareKeeps(c, s, s', u, name, blob);
      } else if n: nat :| FillStep(s, s', u, name, n) {
        FillKeeps(c, s, s', u, name, n);
      } else if FinishStep(s, s', u, name) {
        FinishKeeps(c, s, s', u, name);
      } else {
        RemoveKeeps(c, s, s', u, name);
      }
    } else {
      var u: nat :| StopStep(s, s', u);
      StopKeeps(c, s, s', u);
    }
  }

  const EMPTY := Directory(map[], map[], {}, map[])

  ghost predicate IsRun(c: Codec, run: seq<Directory>) {
    && run != [] && run[0] == EMPTY
    && forall i :: 0 < i < |run| ==> Next(c, run[i - 1], run[i])
  }

  lemma {:induction false} RunKeeps(c: Codec, run: seq<Directory>)
    requires IsRun(c, run)
    ensures Kept(c, run[|run| - 1])
  {
    hide Next;
    var n := |run| - 1;
    if n > 0 {
      RunKeeps(c, run[..n]);
      assert Next(c, run[n - 1], run[n]);
      StepKeeps(c, run[n - 1], run[n]);
    }
  }

  /** A chunk that a stored manifest names is good exactly when it is neither half written nor removed. */
  lemma ChunkIsGoodExactly(c: Codec, s: Directory, m: Manifest, digest: string)
    requires Lawful(c) && Kept(c, s) && ManifestBlob(m.generationId) in s.files
    requires s.files[ManifestBlob(m.generationId)] == c.printed(m) && digest in FileDigests(m.files)
    ensures IsGood(c, s.files, digest) <==> !IsTorn(s, ChunkBlob(digest)) && ChunkBlob(digest) !in s.removed
  {
    hide IsBuilt, FileDigests;
    var id := ManifestBlob(m.generationId);
    assert MeantWell(c, s, id);
    var other :| IsBuilt(c, other) && Belongs(c, other, id, s.meant[id]) && AllWereThere(s, other);
    assert other == m;
    var name := ChunkBlob(digest);
    assert WasThere(s, name);
    if name in s.files {
      assert MeantWell(c, s, name);
      if IsTorn(s, name) {
        assert s.files[name] == s.meant[name][..|s.files[name]|];
      } else {
        assert s.files[name] == s.meant[name];
      }
    }
  }

  /**
    At every moment of every run: the chunks of a stored manifest are all stored and readable if and
    only if none of them is, right now, created and not filled, or removed again after a failed write.
   */
  lemma ManifestIsBackedExactly(c: Codec, run: seq<Directory>, m: Manifest)
    requires Lawful(c) && IsRun(c, run)
    requires ManifestBlob(m.generationId) in run[|run| - 1].files
    requires run[|run| - 1].files[ManifestBlob(m.generationId)] == c.printed(m)
    ensures var s := run[|run| - 1];
            (forall digest :: digest in FileDigests(m.files) ==> IsGood(c, s.files, digest))
            <==> forall digest :: digest in FileDigests(m.files) ==> !IsTorn(s, ChunkBlob(digest)) && ChunkBlob(digest) !in s.removed
  {
    hide Next, Kept, FileDigests, IsGood, IsTorn, Lawful;
    RunKeeps(c, run);
    var s := run[|run| - 1];
    forall digest | digest in FileDigests(m.files)
      ensures IsGood(c, s.files, digest) <==> !IsTorn(s, ChunkBlob(digest)) && ChunkBlob(digest) !in s.removed
    {
      ChunkIsGoodExactly(c, s, m, digest);
    }
  }

  // ----- runs in which it fails -----

  lemma Extend(c: Codec, run: seq<Directory>, s: Directory)
    requires IsRun(c, run) && Next(c, run[|run| - 1], s)
    ensures IsRun(c, run + [s])
  {
    hide Next;
    var longer := run + [s];
    forall i | 0 < i < |longer| ensures Next(c, longer[i - 1], longer[i]) {
      if i < |run| {
        assert Next(c, run[i - 1], run[i]);
      }
    }
  }

  lemma RunHasStates(c: Codec, run: seq<Directory>)
    requires IsRun(c, run)
    ensures run != []
  {
  }

  function Created(s: Directory, u: nat, name: BlobName, blob: seq<byte>): Directory
    requires u in s.uploaders && s.uploaders[u].Putting?
  {
    WithWork(s, u, s.uploaders[u].work[name := Filling])
    .(files := s.files[name := []], meant := s.meant[name := blob], removed := s.removed - {name})
  }

  /** The uploader has put the file. */
  function Done(s: Directory, u: nat, name: BlobName, blob: seq<byte>): Directory
    requires u in s.uploaders && s.uploaders[u].Putting?
  {
    WithWork(s, u, s.uploaders[u].work - {name})
    .(files := s.files[name := blob], meant := s.meant[name := blob], removed := s.removed - {name})
  }

  lemma Creates(c: Codec, run: seq<Directory>, u: nat, name: BlobName, blob: seq<byte>)
    requires IsRun(c, run) && Has(run[|run| - 1], u, name, Waiting) && name !in run[|run| - 1].files
    requires Belongs(c, run[|run| - 1].uploaders[u].manifest, name, blob)
    ensures IsRun(c, run + [Created(run[|run| - 1], u, name, blob)])
  {
    hide IsRun, Belongs;
    RunHasStates(c, run);
    var s, created := run[|run| - 1], Created(run[|run| - 1], u, name, blob);
    assert CreateStep(c, s, created, u, name, blob);
    assert PutStep(c, s, created, u, name);
    Extend(c, run, created);
  }

  lemma Fills(c: Codec, run: seq<Directory>, u: nat, name: BlobName) returns (longer: seq<Directory>)
    requires IsRun(c, run) && Has(run[|run| - 1], u, name, Filling)
    requires name in run[|run| - 1].files && name in run[|run| - 1].meant && run[|run| - 1].files[name] == []
    ensures IsRun(c, longer)
    ensures longer[|longer| - 1] == run[|run| - 1].(files := run[|run| - 1].files[name := run[|run| - 1].meant[name]])
  {
    hide IsRun;
    RunHasStates(c, run);
    var s := run[|run| - 1];
    var blob := s.meant[name];
    var filled := s.(files := s.files[name := blob[..|blob|]]);
    assert blob[..|blob|] == blob;
    assert FillStep(s, filled, u, name, |blob|);
    assert PutStep(c, s, filled, u, name);
    Extend(c, run, filled);
    longer := run + [filled];
  }

  lemma Finishes(c: Codec, run: seq<Directory>, u: nat, name: BlobName) returns (longer: seq<Directory>)
    requires IsRun(c, run) && Has(run[|run| - 1], u, name, Filling)
    requires name in run[|run| - 1].files && name in run[|run| - 1].meant && run[|run| - 1].files[name] == run[|run| - 1].meant[name]
    ensures IsRun(c, longer)
    ensures longer[|longer| - 1] == WithWork(run[|run| - 1], u, run[|run| - 1].uploaders[u].work - {name})
  {
    hide IsRun;
    RunHasStates(c, run);
    var s := run[|run| - 1];
    var finished := WithWork(s, u, s.uploaders[u].work - {name});
    assert FinishStep(s, finished, u, name);
    assert PutStep(c, s, finished, u, name);
    Extend(c, run, finished);
    longer := run + [finished];
  }

  lemma DoneIs(s: Directory, u: nat, name: BlobName, blob: seq<byte>)
    requires u in s.uploaders && s.uploaders[u].Putting?
    ensures var created := Created(s, u, name, blob);
            var filled := created.(files := created.files[name := created.meant[name]]);
            && Has(created, u, name, Filling) && Has(filled, u, name, Filling)
            && WithWork(filled, u, filled.uploaders[u].work - {name}) == Done(s, u, name, blob)
  {
    assert s.uploaders[u].work[name := Filling] - {name} == s.uploaders[u].work - {name};
    var up := s.uploaders[u];
    assert s.uploaders[u := up.(work := up.work[name := Filling])][u := up.(work := up.work - {name})]
        == s.uploaders[u := up.(work := up.work - {name})];
    assert s.files[name := []][name := blob] == s.files[name := blob];
  }

  /** One uploader creates, fills and finishes a file. */
  lemma PutWhole(c: Codec, run: seq<Directory>, u: nat, name: BlobName, blob: seq<byte>) returns (longer: seq<Directory>)
    requires IsRun(c, run) && Has(run[|run| - 1], u, name, Waiting) && name !in run[|run| - 1].files
    requires Belongs(c, run[|run| - 1].uploaders[u].manifest, name, blob)
    ensures IsRun(c, longer) && longer[|longer| - 1] == Done(run[|run| - 1], u, name, blob)
  {
    hide IsRun, Belongs, WithWork, Done;
    RunHasStates(c, run);
    var s := run[|run| - 1];
    DoneIs(s, u, name, blob);
    Creates(c, run, u, name, blob);
    longer := run + [Created(s, u, name, blob)];
    longer := Fills(c, longer, u, name);
    RunHasStates(c, longer);
    longer := Finishes(c, longer, u, name);
    RunHasStates(c, longer);
  }

  lemma DigestHasData(c: Codec, m: Manifest, generation: Restore.Disk, digest: string) returns (data: seq<byte>)
    requires Restore.IsOf(c.sha, m, generation) && digest in FileDigests(m.files)
    ensures c.sha(data) == digest
  {
    var i, k := DigestIsChunk(m.files, digest);
    var e := m.files[i];
    assert Describes(c.sha, e, generation[e.path]);
    data := generation[e.path][e.chunks[k].offset..e.chunks[k].offset + e.chunks[k].size];
  }

  /** Compression undoes decompression and never gives nothing. */
  ghost predicate Compresses(c: Codec, compress: seq<byte> -> seq<byte>) {
    forall data :: c.decompress(compress(data)) == Some(data) && compress(data) != []
  }

  /** Waiting chunks of the manifest, none of them there yet. */
  ghost predicate OnlyWaits(s: Directory, u: nat, m: Manifest) {
    && u in s.uploaders && s.uploaders[u].Putting? && s.uploaders[u].manifest == m && !s.uploaders[u].last
    && forall name :: name in s.uploaders[u].work ==>
         && s.uploaders[u].work[name] == Waiting && name !in s.files
         && name.ChunkBlob? && name.digest in FileDigests(m.files)
  }

  /** The work of uploader `u` is done; all else is as it was. */
  ghost predicate Worked(c: Codec, s: Directory, s': Directory, u: nat, m: Manifest)
    requires OnlyWaits(s, u, m)
  {
    && s'.uploaders == s.uploaders[u := Putting(m, map[], false)] && s'.removed <= s.removed
    && s'.files.Keys == s.files.Keys + s.uploaders[u].work.Keys
    && (forall name :: name in s.files ==> s'.files[name] == s.files[name])
    && (forall name :: name in s.meant && name in s.files ==> name in s'.meant && s'.meant[name] == s.meant[name])
    && forall digest :: ChunkBlob(digest) in s.uploaders[u].work ==> IsGood(c, s'.files, digest)
  }

  lemma {:induction false} PutRest(c: Codec, compress: seq<byte> -> seq<byte>, m: Manifest, generation: Restore.Disk,
                                   run: seq<Directory>, u: nat)
    returns (longer: seq<Directory>)
    requires Compresses(c, compress) && Restore.IsOf(c.sha, m, generation)
    requires IsRun(c, run) && OnlyWaits(run[|run| - 1], u, m)
    ensures IsRun(c, longer) && Worked(c, run[|run| - 1], longer[|longer| - 1], u, m)
    decreases |run[|run| - 1].uploaders[u].work|
  {
    hide IsRun, Restore.IsOf, FileDigests, Worked, OnlyWaits, IsGood, Done, Compresses;
    RunHasStates(c, run);
    var s := run[|run| - 1];
    WaitsHere(s, u, m);
    if s.uploaders[u].work == map[] {
      longer := run;
      NothingWorked(c, s, u, m);
    } else {
      var name :| name in s.uploaders[u].work;
      WaitsFor(s, u, m, name);
      var data := DigestHasData(c, m, generation, name.digest);
      CompressedIsGood(c, compress, data);
      longer := PutWhole(c, run, u, name, compress(data));
      RunHasStates(c, longer);
      WaitsLess(c, s, u, m, name, compress(data));
      longer := PutRest(c, compress, m, generation, longer, u);
      RunHasStates(c, longer);
      WorkedMore(c, s, longer[|longer| - 1], u, m, name, compress(data));
    }
  }

  lemma WaitsHere(s: Directory, u: nat, m: Manifest)
    requires OnlyWaits(s, u, m)
    ensures u in s.uploaders && s.uploaders[u].Putting? && s.uploaders[u].manifest == m && !s.uploaders[u].last
  {
  }

  lemma WaitsFor(s: Directory, u: nat, m: Manifest, name: BlobName)
    requires OnlyWaits(s, u, m) && name in s.uploaders[u].work
    ensures Has(s, u, name, Waiting) && name !in s.files && name.ChunkBlob? && name.digest in FileDigests(m.files)
  {
    hide FileDigests;
  }

  lemma NothingWorked(c: Codec, s: Directory, u: nat, m: Manifest)
    requires OnlyWaits(s, u, m) && s.uploaders[u].work == map[]
    ensures Worked(c, s, s, u, m)
  {
    hide FileDigests;
    assert s.uploaders == s.uploaders[u := Putting(m, map[], false)];
  }

  lemma CompressedIsGood(c: Codec, compress: seq<byte> -> seq<byte>, data: seq<byte>)
    requires Compresses(c, compress)
    ensures c.decompress(compress(data)) == Some(data) && compress(data) != []
  {
  }

  lemma WaitsLess(c: Codec, s: Directory, u: nat, m: Manifest, name: BlobName, blob: seq<byte>)
    requires OnlyWaits(s, u, m) && name in s.uploaders[u].work
    ensures OnlyWaits(Done(s, u, name, blob), u, m)
    ensures |Done(s, u, name, blob).uploaders[u].work| < |s.uploaders[u].work|
  {
    hide FileDigests;
    var work := s.uploaders[u].work;
    assert work == (work - {name})[name := work[name]];
  }

  lemma WorkedMore(c: Codec, s: Directory, s': Directory, u: nat, m: Manifest, name: BlobName, blob: seq<byte>)
    requires OnlyWaits(s, u, m) && OnlyWaits(Done(s, u, name, blob), u, m) && name in s.uploaders[u].work && name.ChunkBlob?
    requires c.decompress(blob).Some? && c.sha(c.decompress(blob).value) == name.digest
    requires Worked(c, Done(s, u, name, blob), s', u, m)
    ensures Worked(c, s, s', u, m)
  {
    hide FileDigests, IsGood, Done, OnlyWaits;
    WaitsHere(s, u, m);
    WaitsFor(s, u, m, name);
    var next := Done(s, u, name, blob);
    DoneFacts(s, u, name, blob);
    assert s'.files[name] == blob;
    assert IsGood(c, s'.files, name.digest) by {
      BlobIsGood(c, s'.files, name.digest);
    }
    forall digest | ChunkBlob(digest) in s.uploaders[u].work ensures IsGood(c, s'.files, digest) {
      if ChunkBlob(digest) != name {
        assert ChunkBlob(digest) in next.uploaders[u].work;
      }
    }
  }

  lemma DoneFacts(s: Directory, u: nat, name: BlobName, blob: seq<byte>)
    requires u in s.uploaders && s.uploaders[u].Putting? && name in s.uploaders[u].work
    ensures var next := Done(s, u, name, blob);
            && next.files == s.files[name := blob] && next.meant == s.meant[name := blob] && next.removed <= s.removed
            && u in next.uploaders && next.uploaders[u].Putting?
            && next.uploaders[u].work == s.uploaders[u].work - {name}
            && s.files.Keys + s.uploaders[u].work.Keys == next.files.Keys + next.uploaders[u].work.Keys
            && next.uploaders[u := Putting(s.uploaders[u].manifest, map[], false)]
                                      == s.uploaders[u := Putting(s.uploaders[u].manifest, map[], false)]
  {
  }

  lemma BlobIsGood(c: Codec, files: Store, digest: string)
    requires ChunkBlob(digest) in files && c.decompress(files[ChunkBlob(digest)]).Some?
    requires c.sha(c.decompress(files[ChunkBlob(digest)]).value) == digest
    ensures IsGood(c, files, digest)
  {
  }

  /**
    For any manifest that can be built and any one of its chunks: a first uploader creates the chunk's
    file and has written nothing yet; a second one finds it in its listing, puts all other chunks and the
    manifest. The chunk is not there to be read.
   */
  lemma PublishesOverTorn(c: Codec, compress: seq<byte> -> seq<byte>, m: Manifest, generation: Restore.Disk, digest: string)
    returns (run: seq<Directory>)
    requires Lawful(c) && Compresses(c, compress) && Restore.IsOf(c.sha, m, generation) && digest in FileDigests(m.files)
    ensures IsRun(c, run)
    ensures var s := run[|run| - 1];
            && Has(s, 0, ChunkBlob(digest), Filling) && IsTorn(s, ChunkBlob(digest))
            && ManifestBlob(m.generationId) in s.files && s.files[ManifestBlob(m.generationId)] == c.printed(m)
            && (forall other :: other in FileDigests(m.files) && other != digest ==> IsGood(c, s.files, other))
            && !IsGood(c, s.files, digest)
  {
    hide IsRun, Restore.IsOf, FileDigests, Next;
    var name, all := ChunkBlob(digest), FileDigests(m.files);
    var data := DigestHasData(c, m, generation, digest);
    run := TornChunk(c, m, generation, digest, compress(data));
    RunHasStates(c, run);
    var torn := run[|run| - 1];
    run := SecondPlans(c, m, generation, digest, run);
    RunHasStates(c, run);
    var planned := run[|run| - 1];
    assert OnlyWaits(planned, 1, m);
    run := PutRest(c, compress, m, generation, run, 1);
    RunHasStates(c, run);
    var put := run[|run| - 1];
    forall other | other in all && other != digest ensures IsGood(c, put.files, other) {
      assert ChunkBlob(other) in planned.uploaders[1].work;
    }
    run := PutManifest(c, m, run, 1);
    RunHasStates(c, run);
    var s := run[|run| - 1];
    assert IsTorn(s, name) && s.files[name] == [] == s.meant[name][..0];
  }

  lemma TornChunk(c: Codec, m: Manifest, generation: Restore.Disk, digest: string, blob: seq<byte>) returns (run: seq<Directory>)
    requires Restore.IsOf(c.sha, m, generation) && digest in FileDigests(m.files)
    requires c.decompress(blob).Some? && c.sha(c.decompress(blob).value) == digest
    ensures IsRun(c, run)
    ensures var s := run[|run| - 1];
            && s.uploaders.Keys == {0} && Has(s, 0, ChunkBlob(digest), Filling) && s.removed == {}
            && s.files == map[ChunkBlob(digest) := []] && s.meant == map[ChunkBlob(digest) := blob]
  {
    hide Restore.IsOf, FileDigests;
    assert IsBuilt(c, m) by {
      BuiltFrom(c, m, generation);
    }
    var name := ChunkBlob(digest);
    var begun := With(EMPTY, 0, Listing(m, {}));
    assert BeginStep(c, EMPTY, begun, 0, m);
    assert IsRun(c, [EMPTY]);
    Extend(c, [EMPTY], begun);
    var planned := With(begun, 0, Putting(m, Todo(ChunkNames(FileDigests(m.files) - {})), false));
    assert PlanStep(begun, planned, 0);
    Extend(c, [EMPTY] + [begun], planned);
    assert name in planned.uploaders[0].work;
    var created := WithWork(planned, 0, planned.uploaders[0].work[name := Filling])
                   .(files := planned.files[name := []], meant := planned.meant[name := blob], removed := planned.removed - {name});
    assert CreateStep(c, planned, created, 0, name, blob);
    assert PutStep(c, planned, created, 0, name);
    Extend(c, [EMPTY] + [begun] + [planned], created);
    run := [EMPTY] + [begun] + [planned] + [created];
  }

  lemma BuiltFrom(c: Codec, m: Manifest, generation: Restore.Disk)
    requires Restore.IsOf(c.sha, m, generation)
    ensures IsBuilt(c, m)
  {
  }

  /** A second uploader lists the chunk that is being written and plans the others. */
  lemma SecondPlans(c: Codec, m: Manifest, generation: Restore.Disk, digest: string, run: seq<Directory>) returns (longer: seq<Directory>)
    requires Restore.IsOf(c.sha, m, generation) && IsRun(c, run)
    requires 1 !in run[|run| - 1].uploaders && run[|run| - 1].files.Keys == {ChunkBlob(digest)}
    ensures IsRun(c, longer)
    ensures longer[|longer| - 1] == With(run[|run| - 1], 1, Putting(m, Todo(ChunkNames(FileDigests(m.files) - {digest})), false))
  {
    hide Restore.IsOf, FileDigests, IsRun;
    RunHasStates(c, run);
    assert IsBuilt(c, m) by {
      BuiltFrom(c, m, generation);
    }
    var s := run[|run| - 1];
    var begun := With(s, 1, Listing(m, {}));
    assert BeginStep(c, s, begun, 1, m);
    Extend(c, run, begun);
    var listed := With(begun, 1, Listing(m, {} + {digest}));
    assert ListStep(begun, listed, 1, {digest});
    Extend(c, run + [begun], listed);
    var planned := With(listed, 1, Putting(m, Todo(ChunkNames(FileDigests(m.files) - ({} + {digest}))), false));
    assert PlanStep(listed, planned, 1);
    Extend(c, run + [begun] + [listed], planned);
    longer := run + [begun] + [listed] + [planned];
    assert {} + {digest} == {digest};
    assert planned.uploaders == s.uploaders[1 := Putting(m, Todo(ChunkNames(FileDigests(m.files) - {digest})), false)];
  }

  lemma PutManifest(c: Codec, m: Manifest, run: seq<Directory>, u: nat) returns (longer: seq<Directory>)
    requires IsRun(c, run) && u in run[|run| - 1].uploaders && run[|run| - 1].uploaders[u] == Putting(m, map[], false)
    requires ManifestBlob(m.generationId) !in run[|run| - 1].files
    ensures IsRun(c, longer)
    ensures var s, s', id := run[|run| - 1], longer[|longer| - 1], ManifestBlob(m.generationId);
            && s'.files == s.files[id := c.printed(m)] && s'.meant == s.meant[id := c.printed(m)]
            && s'.uploaders == s.uploaders[u := Putting(m, map[], true)]
  {
    hide IsRun;
    RunHasStates(c, run);
    var s, id := run[|run| - 1], ManifestBlob(m.generationId);
    var turned := With(s, u, Putting(m, Todo({id}), true));
    assert TurnStep(s, turned, u);
    Extend(c, run, turned);
    longer := PutWhole(c, run + [turned], u, id, c.printed(m));
    assert Todo({id}) - {id} == map[];
  }

  // ----- chunks that stay torn -----

  /** A file being filled is there and has one uploader filling it. */
  ghost predicate OneFills(s: Directory) {
    && (forall u, name :: Has(s, u, name, Filling) ==> name in s.files)
    && forall u, v, name :: Has(s, u, name, Filling) && Has(s, v, name, Filling) ==> u == v
  }

  /** Half written, and nobody is writing it. */
  ghost predicate IsAbandoned(s: Directory, name: BlobName) {
    IsTorn(s, name) && forall u :: !Has(s, u, name, Filling)
  }

  ghost predicate FillsNoMore(s: Directory, s': Directory) {
    forall u, name :: Has(s', u, name, Filling) ==> Has(s, u, name, Filling)
  }

  /** Only uploader `u`'s filling of `name` is new, and only a file that is not there or that `u` fills changes. */
  ghost predicate TouchesOnly(s: Directory, s': Directory, u: nat, name: BlobName) {
    && (forall v, n :: (v != u || n != name) && Has(s', v, n, Filling) ==> Has(s, v, n, Filling))
    && (forall n :: n in s.files && n != name ==> n in s'.files && s'.files[n] == s.files[n])
    && (forall n :: n in s.meant && n != name ==> n in s'.meant && s'.meant[n] == s.meant[n])
    && (Has(s', u, name, Filling) ==> name in s'.files)
    && (name in s.files ==> Has(s, u, name, Filling))
  }

  ghost predicate TouchesOwn(s: Directory, s': Directory) {
    || (s'.files == s.files && s'.meant == s.meant && FillsNoMore(s, s'))
    || exists u, name :: TouchesOnly(s, s', u, name)
  }

  lemma CreateTouchesOnly(c: Codec, s: Directory, s': Directory, u: nat, name: BlobName, blob: seq<byte>)
    requires CreateStep(c, s, s', u, name, blob)
    ensures TouchesOnly(s, s', u, name)
  {
    hide Belongs;
  }

  lemma FillTouchesOnly(s: Directory, s': Directory, u: nat, name: BlobName, n: nat)
    requires FillStep(s, s', u, name, n)
    ensures TouchesOnly(s, s', u, name)
  {
  }

  lemma RemoveTouchesOnly(s: Directory, s': Directory, u: nat, name: BlobName)
    requires RemoveStep(s, s', u, name)
    ensures TouchesOnly(s, s', u, name)
  {
  }

  lemma FilledTouchesOwn(c: Codec, s: Directory, s': Directory, u: nat, name: BlobName, blob: seq<byte>)
    requires CompareStep(c, s, s', u, name, blob) || FinishStep(s, s', u, name)
    ensures TouchesOwn(s, s')
  {
    hide Belongs;
    assert FillsNoMore(s, s');
  }

  lemma PutTouchesOwn(c: Codec, s: Directory, s': Directory, u: nat, name: BlobName)
    requires PutStep(c, s, s', u, name)
    ensures TouchesOwn(s, s')
  {
    hide CreateStep, CompareStep, FillStep, FinishStep, RemoveStep, TouchesOnly, FillsNoMore;
    if blob :| CreateStep(c, s, s', u, name, blob) {
      CreateTouchesOnly(c, s, s', u, name, blob);
    } else if blob :| CompareStep(c, s, s', u, name, blob) {
      FilledTouchesOwn(c, s, s', u, name, blob);
    } else if n: nat :| FillStep(s, s', u, name, n) {
      FillTouchesOnly(s, s', u, name, n);
    } else if FinishStep(s, s', u, name) {
      FilledTouchesOwn(c, s, s', u, name, []);
    } else {
      RemoveTouchesOnly(s, s', u, name);
    }
  }

  lemma StepTouchesOwn(c: Codec, s: Directory, s': Directory)
    requires Next(c, s, s')
    ensures TouchesOwn(s, s')
  {
    hide IsBuilt, FileDigests, PutStep, TouchesOwn;
    if u: nat, name :| PutStep(c, s, s', u, name) {
      PutTouchesOwn(c, s, s', u, name);
    } else {
      assert s'.files == s.files && s'.meant == s.meant && FillsNoMore(s, s');
      assert TouchesOwn(s, s') by {
        QuietTouchesOwn(s, s');
      }
    }
  }

  lemma QuietTouchesOwn(s: Directory, s': Directory)
    requires s'.files == s.files && s'.meant == s.meant && FillsNoMore(s, s')
    ensures TouchesOwn(s, s')
  {
  }

  lemma AbandonedStep(s: Directory, s': Directory, name: BlobName)
    requires OneFills(s) && TouchesOwn(s, s')
    ensures OneFills(s')
    ensures IsAbandoned(s, name) ==> IsAbandoned(s', name) && s'.files[name] == s.files[name]
  {
    hide Has;
  }

  lemma {:induction false} RunHasOneFiller(c: Codec, run: seq<Directory>)
    requires IsRun(c, run)
    ensures OneFills(run[|run| - 1])
  {
    hide Next, OneFills;
    var n := |run| - 1;
    if n > 0 {
      RunHasOneFiller(c, run[..n]);
      assert Next(c, run[n - 1], run[n]);
      StepTouchesOwn(c, run[n - 1], run[n]);
      AbandonedStep(run[n - 1], run[n], ChunkBlob(""));
    } else {
      assert OneFills(EMPTY) by {
        NobodyFills();
      }
    }
  }

  lemma NobodyFills()
    ensures OneFills(EMPTY)
  {
  }

  /** A file whose writer has stopped halfway stays as it is in every continuation of the run. */
  lemma {:induction false} AbandonedForGood(c: Codec, run: seq<Directory>, i: nat, name: BlobName)
    requires IsRun(c, run) && i < |run| && IsAbandoned(run[i], name)
    ensures IsAbandoned(run[|run| - 1], name) && run[|run| - 1].files[name] == run[i].files[name]
  {
    hide Next, OneFills, IsAbandoned;
    var n := |run| - 1;
    if i < n {
      AbandonedForGood(c, run[..n], i, name);
      RunHasOneFiller(c, run[..n]);
      assert Next(c, run[n - 1], run[n]);
      StepTouchesOwn(c, run[n - 1], run[n]);
      AbandonedStep(run[n - 1], run[n], name);
    }
  }

  /**
    The first uploader may stop there: the file is abandoned and stays as it is for good. Or its write
    may fail, and the file goes. The manifest stands in either case.
   */
  lemma TornIsLeftOrRemoved(c: Codec, run: seq<Directory>, digest: string) returns (stopped: seq<Directory>, failed: seq<Directory>)
    requires IsRun(c, run) && Has(run[|run| - 1], 0, ChunkBlob(digest), Filling) && IsTorn(run[|run| - 1], ChunkBlob(digest))
    ensures IsRun(c, stopped) && IsAbandoned(stopped[|stopped| - 1], ChunkBlob(digest))
    ensures stopped[|stopped| - 1].files == run[|run| - 1].files
    ensures IsRun(c, failed) && ChunkBlob(digest) in failed[|failed| - 1].removed
    ensures failed[|failed| - 1].files == run[|run| - 1].files - {ChunkBlob(digest)}
  {
    hide IsRun;
    RunHasStates(c, run);
    RunHasOneFiller(c, run);
    var s, name := run[|run| - 1], ChunkBlob(digest);
    var stop := s.(uploaders := s.uploaders - {0});
    assert StopStep(s, stop, 0);
    Extend(c, run, stop);
    stopped := run + [stop];
    assert forall u :: Has(stop, u, name, Filling) ==> Has(s, u, name, Filling) && u != 0;
    var fail := WithWork(s, 0, s.uploaders[0].work[name := Failed])
                .(files := s.files - {name}, meant := s.meant - {name}, removed := s.removed + {name});
    assert RemoveStep(s, fail, 0, name);
    assert PutStep(c, s, fail, 0, name);
    Extend(c, run, fail);
    failed := run + [fail];
  }
}
