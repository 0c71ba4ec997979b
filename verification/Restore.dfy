/**
  Restoring a generation: files are cut to size, each chunk region is checked against its digest,
  and the wrong regions are overwritten by workers whose writes interleave freely. Any number of
  stops and reruns may happen in between.
 */
module Restore {
  import opened Common
  import opened Bytes
  import opened Hashing
  import opened TransportManifest

  const READ_SIZE := 8 * 1024 * 1024

  type Disk = map<string, seq<byte>>

  datatype Target = Target(path: string, offset: int, size: int)

  type Missing = map<string, seq<Target>>

  datatype RestoreError = CloneFailed | ShortRead | ConflictingSizes | FileMismatch(path: string)

  // ----- preparing the files -----

  /** Cut or zero-filled to `size`. */
  function Truncated(data: seq<byte>, size: nat): (r: seq<byte>)
    ensures |r| == size
  {
    if size <= |data| then data[..size] else data + Zeros(size - |data|)
  }

  /** An existing file is kept; otherwise the basis is cloned or copied. */
  function CloneOrCreate(existing: Option<seq<byte>>, basis: Option<seq<byte>>, size: nat, cloneWorks: bool, allowFullCopy: bool)
    : (r: Result<seq<byte>, RestoreError>)
    ensures r.Ok? ==> |r.value| == size
    ensures r.Err? <==> existing.None? && basis.Some? && !cloneWorks && !allowFullCopy
  {
    if existing.Some? then Ok(Truncated(existing.value, size))
    else if basis.Some? && !cloneWorks && !allowFullCopy then Err(CloneFailed)
    else Ok(Truncated(if basis.Some? then basis.value else [], size))
  }

  // ----- what a manifest describes -----

  /** Every entry of the manifest describes a file of the generation. */
  ghost predicate IsOf(sha: seq<byte> -> string, m: Manifest, generation: Disk) {
    forall i :: 0 <= i < |m.files| ==>
      m.files[i].path in generation && Describes(sha, m.files[i], generation[m.files[i].path])
  }

  /** The disk holds every file, at its size. */
  ghost predicate Sized(m: Manifest, disk: Disk) {
    forall i :: 0 <= i < |m.files| ==> m.files[i].path in disk && |disk[m.files[i].path]| == m.files[i].size
  }

  function TargetOf(e: FileEntry, c: Chunk): Target {
    Target(e.path, c.offset, c.size)
  }

  /** `t` is the place of a chunk of the manifest with digest `digest`. */
  ghost predicate IsTarget(m: Manifest, digest: string, t: Target) {
    exists i, k :: IsChunkAt(m, digest, t, i, k)
  }

  ghost predicate IsChunkAt(m: Manifest, digest: string, t: Target, i: int, k: int) {
    && 0 <= i < |m.files| && 0 <= k < |m.files[i].chunks|
    && TargetOf(m.files[i], m.files[i].chunks[k]) == t && m.files[i].chunks[k].sha256 == digest
  }

  predicate Inside(disk: Disk, t: Target) {
    t.path in disk && 0 <= t.offset && 0 <= t.size && t.offset + t.size <= |disk[t.path]|
  }

  function Region(disk: Disk, t: Target): (r: seq<byte>)
    requires Inside(disk, t)
    ensures |r| == t.size
  {
    disk[t.path][t.offset..t.offset + t.size]
  }

  lemma TargetsAreRegions(sha: seq<byte> -> string, m: Manifest, generation: Disk, digest: string, t: Target)
    requires IsOf(sha, m, generation) && IsTarget(m, digest, t)
    ensures Inside(generation, t) && sha(Region(generation, t)) == digest
    ensures forall disk :: Sized(m, disk) ==> Inside(disk, t)
  {
    var i, k :| IsChunkAt(m, digest, t, i, k);
    assert Describes(sha, m.files[i], generation[m.files[i].path]);
  }

  /** The file on disk is what was there, or else the basis, or nothing, cut to size. */
  ghost predicate Prepared(prior: Disk, basis: Disk, e: FileEntry, disk: Disk) {
    && e.path in disk && 0 <= e.size
    && disk[e.path] == Truncated(if e.path in prior then prior[e.path] else if e.path in basis then basis[e.path] else [], e.size)
  }

  /** Every file is prepared, or a basis file can be neither cloned nor copied. */
  method PrepareFiles(m: Manifest, prior: Disk, basis: Disk, cloneWorks: bool, allowFullCopy: bool)
    returns (r: Result<Disk, RestoreError>)
    requires forall i :: 0 <= i < |m.files| ==> m.files[i].size >= 0
    requires forall i, j :: 0 <= i < j < |m.files| ==> m.files[i].path != m.files[j].path
    ensures r.Ok? ==> Sized(m, r.value)
    ensures r.Ok? ==> forall i :: 0 <= i < |m.files| ==> Prepared(prior, basis, m.files[i], r.value)
    ensures r.Ok? ==> forall path :: path in prior && path !in (set i | 0 <= i < |m.files| :: m.files[i].path) ==>
                        path in r.value && r.value[path] == prior[path]
    ensures r.Err? <==>
            !cloneWorks && !allowFullCopy && exists i :: 0 <= i < |m.files| && m.files[i].path in basis && m.files[i].path !in prior
  {
    hide Truncated;
    var disk := prior;
    for i := 0 to |m.files|
      invariant forall k :: 0 <= k < i ==> Prepared(prior, basis, m.files[k], disk)
      invariant forall k :: i <= k < |m.files| ==> (m.files[k].path in disk <==> m.files[k].path in prior)
      invariant forall k :: i <= k < |m.files| && m.files[k].path in prior ==> disk[m.files[k].path] == prior[m.files[k].path]
      invariant forall path :: path in prior && path !in (set k | 0 <= k < |m.files| :: m.files[k].path) ==>
                  path in disk && disk[path] == prior[path]
      invariant !cloneWorks && !allowFullCopy ==>
                  forall k :: 0 <= k < i ==> m.files[k].path in prior || m.files[k].path !in basis
    {
      var e := m.files[i];
      var existing := if e.path in disk then Some(disk[e.path]) else None;
      var source := if e.path in basis then Some(basis[e.path]) else None;
      var file := CloneOrCreate(existing, source, e.size, cloneWorks, allowFullCopy);
      if file.Err? {
        return Err(file.error);
      }
      disk := disk[e.path := file.value];
    }
    return Ok(disk);
  }

  /** The data that the chunks of the manifest have on a disk. */
  function Chunks(m: Manifest, disk: Disk): set<seq<byte>> {
    set i, k | 0 <= i < |m.files| && 0 <= k < |m.files[i].chunks| && Inside(disk, TargetOf(m.files[i], m.files[i].chunks[k])) ::
      Region(disk, TargetOf(m.files[i], m.files[i].chunks[k]))
  }

  function Files(m: Manifest, disk: Disk): set<seq<byte>> {
    set i | 0 <= i < |m.files| && m.files[i].path in disk :: disk[m.files[i].path]
  }

  lemma RegionIsChunk(m: Manifest, disk: Disk, digest: string, t: Target)
    requires IsTarget(m, digest, t) && Inside(disk, t)
    ensures Region(disk, t) in Chunks(m, disk)
  {
    var i, k :| IsChunkAt(m, digest, t, i, k);
  }

  /** What is hashed in a restore: the chunks of the generation and `known` data, all told apart by their digests. */
  ghost predicate ToldApart(sha: seq<byte> -> string, m: Manifest, generation: Disk, known: set<seq<byte>>) {
    InjectiveOn(sha, known) && Chunks(m, generation) <= known
  }

  /** Known data with the digest of a chunk is that chunk. */
  lemma DigestMeansChunk(sha: seq<byte> -> string, m: Manifest, generation: Disk, known: set<seq<byte>>, digest: string, t: Target,
                         data: seq<byte>)
    requires ToldApart(sha, m, generation, known) && IsOf(sha, m, generation) && IsTarget(m, digest, t)
    requires data in known && sha(data) == digest
    ensures Inside(generation, t) && data == Region(generation, t)
  {
    hide IsTarget, IsOf, Chunks;
    TargetsAreRegions(sha, m, generation, digest, t);
    RegionIsChunk(m, generation, digest, t);
  }

  // ----- checking the regions -----

  /** Reads come back in pieces of any length; the digest is that of the region. */
  method HashRegion(sha: seq<byte> -> string, file: seq<byte>, offset: nat, size: nat) returns (r: Result<string, RestoreError>)
    ensures r == if size == 0 || offset + size <= |file| then Ok(sha(file[Min(offset, |file|)..Min(offset, |file|) + size])) else Err(ShortRead)
  {
    var digested: seq<byte> := [];
    var remaining := size;
    var at := offset;
    while remaining > 0
      invariant 0 <= remaining <= size && at == offset + size - remaining
      invariant remaining < size ==> at <= |file|
      invariant digested == if at == offset then [] else file[offset..at]
    {
      var available := Min(Min(READ_SIZE, remaining), |file| - at);
      if available <= 0 {
        return Err(ShortRead);
      }
      var got :| 0 < got <= available;
      digested := digested + file[at..at + got];
      at := at + got;
      remaining := remaining - got;
    }
    assert digested == file[Min(offset, |file|)..Min(offset, |file|) + size];
    return Ok(sha(digested));
  }

  ghost predicate Pending(missing: Missing, digest: string, t: Target) {
    digest in missing && t in missing[digest]
  }

  /** The first `n` chunks are on disk already or are planned. */
  ghost predicate IsPlanned(sha: seq<byte> -> string, e: FileEntry, n: nat, disk: Disk, missing: Missing) {
    forall k :: 0 <= k < n && k < |e.chunks| ==>
      var t := TargetOf(e, e.chunks[k]);
      Inside(disk, t) && (sha(Region(disk, t)) == e.chunks[k].sha256 || Pending(missing, e.chunks[k].sha256, t))
  }

  /** Only wrong regions are planned, and the noted size is that of every target of the digest. */
  ghost predicate IsNeeded(sha: seq<byte> -> string, m: Manifest, disk: Disk, missing: Missing, sizes: map<string, int>) {
    && missing.Keys == sizes.Keys
    && (forall digest :: digest in missing ==> missing[digest] != [])
    && forall digest, t :: Pending(missing, digest, t) ==>
         && IsTarget(m, digest, t) && sizes[digest] == t.size
         && Inside(disk, t) && sha(Region(disk, t)) != digest
  }

  function Added(missing: Missing, digest: string, t: Target): Missing {
    missing[digest := (if digest in missing then missing[digest] else []) + [t]]
  }

  lemma AddedIsPending(missing: Missing, digest: string, t: Target)
    ensures forall d, u :: Pending(Added(missing, digest, t), d, u) <==> Pending(missing, d, u) || (d == digest && u == t)
    ensures forall d :: d in missing && missing[d] != [] ==> Added(missing, digest, t)[d] != []
    ensures Added(missing, digest, t)[digest] != []
  {
  }

  lemma PlanStep(sha: seq<byte> -> string, m: Manifest, disk: Disk, missing: Missing, sizes: map<string, int>,
                 digest: string, t: Target)
    requires IsNeeded(sha, m, disk, missing, sizes) && (digest in sizes ==> sizes[digest] == t.size)
    requires IsTarget(m, digest, t) && Inside(disk, t) && sha(Region(disk, t)) != digest
    ensures IsNeeded(sha, m, disk, Added(missing, digest, t), sizes[digest := t.size])
  {
    hide IsTarget, Inside, Region;
    AddedIsPending(missing, digest, t);
    var more, noted := Added(missing, digest, t), sizes[digest := t.size];
    assert more.Keys == missing.Keys + {digest} == noted.Keys;
    forall d, u | Pending(more, d, u)
      ensures IsTarget(m, d, u) && noted[d] == u.size && Inside(disk, u) && sha(Region(disk, u)) != d
    {
      if d != digest || u != t {
        assert Pending(missing, d, u);
        assert d == digest ==> sizes[d] == u.size == t.size;
      }
    }
  }

  lemma SizesAgree(sha: seq<byte> -> string, m: Manifest, generation: Disk, disk: Disk, missing: Missing, sizes: map<string, int>,
                   digest: string, t: Target)
    requires InjectiveOn(sha, Chunks(m, generation)) && IsOf(sha, m, generation)
    requires IsNeeded(sha, m, disk, missing, sizes) && IsTarget(m, digest, t) && digest in sizes
    ensures sizes[digest] == t.size
  {
    hide IsTarget, IsOf, Chunks;
    var other := missing[digest][0];
    assert Pending(missing, digest, other);
    TargetsAreRegions(sha, m, generation, digest, other);
    TargetsAreRegions(sha, m, generation, digest, t);
    RegionIsChunk(m, generation, digest, other);
    RegionIsChunk(m, generation, digest, t);
    assert Region(generation, other) == Region(generation, t);
  }

  lemma PlannedGrows(sha: seq<byte> -> string, e: FileEntry, n: nat, disk: Disk, missing: Missing, digest: string, t: Target)
    requires IsPlanned(sha, e, n, disk, missing)
    ensures IsPlanned(sha, e, n, disk, Added(missing, digest, t))
  {
    hide Pending, Inside, Region;
    AddedIsPending(missing, digest, t);
  }

  lemma PlannedStep(sha: seq<byte> -> string, e: FileEntry, n: nat, disk: Disk, missing: Missing)
    requires IsPlanned(sha, e, n, disk, missing) && n < |e.chunks| && Inside(disk, TargetOf(e, e.chunks[n]))
    requires
      || sha(Region(disk, TargetOf(e, e.chunks[n]))) == e.chunks[n].sha256
      || Pending(missing, e.chunks[n].sha256, TargetOf(e, e.chunks[n]))
    ensures IsPlanned(sha, e, n + 1, disk, missing)
  {
    hide Pending, Inside, Region;
  }

  ghost predicate ArePlanned(sha: seq<byte> -> string, m: Manifest, n: nat, disk: Disk, missing: Missing) {
    forall i :: 0 <= i < n && i < |m.files| ==> IsPlanned(sha, m.files[i], |m.files[i].chunks|, disk, missing)
  }

  lemma ArePlannedGrows(sha: seq<byte> -> string, m: Manifest, n: nat, disk: Disk, missing: Missing, digest: string, t: Target)
    requires ArePlanned(sha, m, n, disk, missing)
    ensures ArePlanned(sha, m, n, disk, Added(missing, digest, t))
  {
    hide IsPlanned;
    forall i | 0 <= i < n && i < |m.files|
      ensures IsPlanned(sha, m.files[i], |m.files[i].chunks|, disk, Added(missing, digest, t))
    {
      PlannedGrows(sha, m.files[i], |m.files[i].chunks|, disk, missing, digest, t);
    }
  }

  /** The planning pass over one file. */
  method PlanFile(sha: seq<byte> -> string, m: Manifest, generation: Disk, disk: Disk, i: nat,
                  missing: Missing, sizes: map<string, int>)
    returns (r: Result<Missing, RestoreError>, sizes': map<string, int>)
    requires i < |m.files| && IsOf(sha, m, generation) && Sized(m, disk)
    requires IsNeeded(sha, m, disk, missing, sizes) && ArePlanned(sha, m, i, disk, missing)
    ensures r.Ok? ==> IsNeeded(sha, m, disk, r.value, sizes') && ArePlanned(sha, m, i + 1, disk, r.value)
    ensures InjectiveOn(sha, Chunks(m, generation)) ==> r.Ok?
  {
    hide IsNeeded, ArePlanned, IsPlanned, IsTarget, IsOf, Pending, InjectiveOn, Chunks;
    var found := missing;
    sizes' := sizes;
    var e := m.files[i];
    assert IsPlanned(sha, e, 0, disk, found) by {
      NothingPlanned(sha, e, disk, found);
    }
    for k := 0 to |e.chunks|
      invariant IsNeeded(sha, m, disk, found, sizes') && ArePlanned(sha, m, i, disk, found)
      invariant IsPlanned(sha, e, k, disk, found)
    {
      var c := e.chunks[k];
      var t := TargetOf(e, c);
      assert IsTarget(m, c.sha256, t) by {
        ChunkIsTarget(m, i, k);
      }
      TargetsAreRegions(sha, m, generation, c.sha256, t);
      var actual := HashRegion(sha, disk[e.path], c.offset, c.size);
      if actual.Err? || actual.value != c.sha256 {
        if c.sha256 in sizes' && sizes'[c.sha256] != c.size {
          if InjectiveOn(sha, Chunks(m, generation)) {
            SizesAgree(sha, m, generation, disk, found, sizes', c.sha256, t);
          }
          return Err(ConflictingSizes), sizes';
        }
        PlanStep(sha, m, disk, found, sizes', c.sha256, t);
        ArePlannedGrows(sha, m, i, disk, found, c.sha256, t);
        PlannedGrows(sha, e, k, disk, found, c.sha256, t);
        AddedIsPending(found, c.sha256, t);
        sizes' := sizes'[c.sha256 := c.size];
        found := Added(found, c.sha256, t);
      }
      PlannedStep(sha, e, k, disk, found);
    }
    PlannedFile(sha, m, i, disk, found);
    return Ok(found), sizes';
  }

  lemma NothingPlanned(sha: seq<byte> -> string, e: FileEntry, disk: Disk, missing: Missing)
    ensures IsPlanned(sha, e, 0, disk, missing)
  {
  }

  lemma ChunkIsTarget(m: Manifest, i: nat, k: nat)
    requires i < |m.files| && k < |m.files[i].chunks|
    ensures IsTarget(m, m.files[i].chunks[k].sha256, TargetOf(m.files[i], m.files[i].chunks[k]))
  {
    assert IsChunkAt(m, m.files[i].chunks[k].sha256, TargetOf(m.files[i], m.files[i].chunks[k]), i, k);
  }

  lemma PlannedFile(sha: seq<byte> -> string, m: Manifest, i: nat, disk: Disk, missing: Missing)
    requires i < |m.files| && ArePlanned(sha, m, i, disk, missing) && IsPlanned(sha, m.files[i], |m.files[i].chunks|, disk, missing)
    ensures ArePlanned(sha, m, i + 1, disk, missing)
  {
    hide IsPlanned;
  }

  /** The planning pass: exactly the regions with a wrong digest become targets. */
  ghost predicate Plans(sha: seq<byte> -> string, m: Manifest, disk: Disk, missing: Missing) {
    && ArePlanned(sha, m, |m.files|, disk, missing)
    && forall digest, t :: Pending(missing, digest, t) ==>
         IsTarget(m, digest, t) && Inside(disk, t) && sha(Region(disk, t)) != digest
  }

  /** The conflicting-sizes error cannot fire when digests are distinct. */
  method PlanRestore(sha: seq<byte> -> string, m: Manifest, generation: Disk, disk: Disk)
    returns (r: Result<Missing, RestoreError>)
    requires IsOf(sha, m, generation) && Sized(m, disk)
    ensures r.Ok? ==> Plans(sha, m, disk, r.value)
    ensures InjectiveOn(sha, Chunks(m, generation)) ==> r.Ok?
  {
    hide IsPlanned, IsTarget, IsOf, InjectiveOn, Chunks, Sized;
    var missing: Missing := map[];
    var sizes: map<string, int> := map[];
    for i := 0 to |m.files|
      invariant IsNeeded(sha, m, disk, missing, sizes) && ArePlanned(sha, m, i, disk, missing)
    {
      var planned;
      planned, sizes := PlanFile(sha, m, generation, disk, i, missing, sizes);
      if planned.Err? {
        return planned;
      }
      missing := planned.value;
    }
    return Ok(missing);
  }

  // ----- the workers -----

  /** The disk, the plan, and how many bytes of every target have been written. */
  datatype State = State(disk: Disk, missing: Missing, written: map<Target, int>)

  function Patched(file: seq<byte>, at: nat, data: seq<byte>): (r: seq<byte>)
    requires at + |data| <= |file|
    ensures |r| == |file|
    ensures forall p :: 0 <= p < |file| ==> r[p] == if at <= p < at + |data| then data[p - at] else file[p]
  {
    file[..at] + data + file[at + |data|..]
  }

  /** A run begins: whatever is there is cut to size, then planned; its regions are known data. */
  ghost predicate Start(sha: seq<byte> -> string, m: Manifest, known: set<seq<byte>>, s: State) {
    && Sized(m, s.disk) && Chunks(m, s.disk) <= known
    && Plans(sha, m, s.disk, s.missing)
    && (forall t :: t in s.written <==> exists digest :: Pending(s.missing, digest, t))
    && forall t :: t in s.written ==> s.written[t] == 0
  }

  /** Some worker writes the next `count` bytes of a downloaded and verified chunk to one of its targets. */
  ghost predicate Writes(sha: seq<byte> -> string, known: set<seq<byte>>, s: State, s': State, digest: string, t: Target,
                         data: seq<byte>, count: int)
  {
    && Pending(s.missing, digest, t) && t in s.written && Inside(s.disk, t)
    && sha(data) == digest && |data| == t.size && data in known
    && 0 <= s.written[t] && 0 < count && s.written[t] + count <= t.size
    && s' == State(s.disk[t.path := Patched(s.disk[t.path], t.offset + s.written[t], data[s.written[t]..s.written[t] + count])],
                   s.missing, s.written[t := s.written[t] + count])
  }

  ghost predicate WriteStep(sha: seq<byte> -> string, known: set<seq<byte>>, s: State, s': State) {
    exists digest, t, data, count :: Writes(sha, known, s, s', digest, t, data, count)
  }

  /** A write, or a stop after which a new run begins on whatever files the stop left. */
  ghost predicate Next(sha: seq<byte> -> string, m: Manifest, known: set<seq<byte>>, s: State, s': State) {
    WriteStep(sha, known, s, s') || Start(sha, m, known, s')
  }

  ghost predicate Finished(s: State) {
    forall t :: t in s.written ==> s.written[t] == t.size
  }

  /** How far the bytes of a target are known to be right. */
  function Upto(s: State, t: Target): int {
    if t in s.written then s.written[t] else t.size
  }

  ghost predicate RightUpto(generation: Disk, disk: Disk, t: Target, n: int) {
    && Inside(disk, t) && Inside(generation, t) && 0 <= n <= t.size
    && forall p :: t.offset <= p < t.offset + n ==> disk[t.path][p] == generation[t.path][p]
  }

  ghost predicate Sound(m: Manifest, generation: Disk, s: State) {
    && Sized(m, s.disk)
    && (forall digest, t :: Pending(s.missing, digest, t) ==> IsTarget(m, digest, t))
    && (forall t :: t in s.written <==> exists digest :: Pending(s.missing, digest, t))
    && forall digest, t :: IsTarget(m, digest, t) ==> RightUpto(generation, s.disk, t, Upto(s, t))
  }

  lemma StartIsSound(sha: seq<byte> -> string, m: Manifest, generation: Disk, known: set<seq<byte>>, s: State)
    requires ToldApart(sha, m, generation, known) && IsOf(sha, m, generation) && Start(sha, m, known, s)
    ensures Sound(m, generation, s)
  {
    hide IsTarget, IsOf, ArePlanned, Sized, Pending, Chunks, ToldApart;
    forall digest, t | IsTarget(m, digest, t) ensures RightUpto(generation, s.disk, t, Upto(s, t)) {
      TargetsAreRegions(sha, m, generation, digest, t);
      if t !in s.written {
        TargetWasPlanned(sha, m, known, s, digest, t);
        RegionIsChunk(m, s.disk, digest, t);
        DigestMeansChunk(sha, m, generation, known, digest, t, Region(s.disk, t));
        SameRegion(generation, s.disk, t);
      }
    }
  }

  lemma SameRegion(generation: Disk, disk: Disk, t: Target)
    requires Inside(disk, t) && Inside(generation, t) && Region(disk, t) == Region(generation, t)
    ensures RightUpto(generation, disk, t, t.size)
  {
    forall p | t.offset <= p < t.offset + t.size ensures disk[t.path][p] == generation[t.path][p] {
      assert Region(disk, t)[p - t.offset] == Region(generation, t)[p - t.offset];
    }
  }

  lemma TargetWasPlanned(sha: seq<byte> -> string, m: Manifest, known: set<seq<byte>>, s: State, digest: string, t: Target)
    requires Start(sha, m, known, s) && IsTarget(m, digest, t) && t !in s.written
    ensures Inside(s.disk, t) && sha(Region(s.disk, t)) == digest
  {
    hide Pending;
    var i, k :| IsChunkAt(m, digest, t, i, k);
    assert IsPlanned(sha, m.files[i], |m.files[i].chunks|, s.disk, s.missing);
    assert !Pending(s.missing, digest, t);
  }

  /** A write puts the bytes of the generation where they belong: no right byte is ever lost. */
  lemma WritesOnlyRepair(sha: seq<byte> -> string, m: Manifest, generation: Disk, known: set<seq<byte>>, s: State, s': State)
    requires ToldApart(sha, m, generation, known) && IsOf(sha, m, generation) && Sound(m, generation, s) && WriteStep(sha, known, s, s')
    ensures s'.disk.Keys == s.disk.Keys
    ensures forall path :: path in s.disk ==> |s'.disk[path]| == |s.disk[path]|
    ensures forall path, p :: path in s.disk && path in generation && 0 <= p < |s.disk[path]| && p < |generation[path]| ==>
              s'.disk[path][p] == s.disk[path][p] || s'.disk[path][p] == generation[path][p]
  {
    hide IsTarget, IsOf, Sized, Patched, Pending, RightUpto, ToldApart;
    var digest, t, data, count :| Writes(sha, known, s, s', digest, t, data, count);
    TargetsAreRegions(sha, m, generation, digest, t);
    DigestMeansChunk(sha, m, generation, known, digest, t, data);
    var at, piece := t.offset + s.written[t], data[s.written[t]..s.written[t] + count];
    forall p | 0 <= p < |s.disk[t.path]| && p < |generation[t.path]|
      ensures s'.disk[t.path][p] == s.disk[t.path][p] || s'.disk[t.path][p] == generation[t.path][p]
    {
      PatchedAt(s.disk[t.path], at, piece, p);
      if at <= p < at + count {
        assert piece[p - at] == data[p - t.offset] == generation[t.path][p];
      }
    }
  }

  lemma PatchedAt(file: seq<byte>, at: nat, data: seq<byte>, p: nat)
    requires at + |data| <= |file| && p < |file|
    ensures Patched(file, at, data)[p] == if at <= p < at + |data| then data[p - at] else file[p]
  {
    hide Patched;
  }

  lemma WriteAdvances(sha: seq<byte> -> string, m: Manifest, generation: Disk, known: set<seq<byte>>, s: State, s': State,
                      digest: string, t: Target, data: seq<byte>, count: int)
    requires ToldApart(sha, m, generation, known) && IsOf(sha, m, generation) && Sound(m, generation, s)
    requires Writes(sha, known, s, s', digest, t, data, count)
    ensures RightUpto(generation, s'.disk, t, s'.written[t])
  {
    hide IsTarget, IsOf, Sized, Patched, ToldApart;
    TargetsAreRegions(sha, m, generation, digest, t);
    DigestMeansChunk(sha, m, generation, known, digest, t, data);
    assert RightUpto(generation, s.disk, t, s.written[t]);
    forall p | t.offset <= p < t.offset + s'.written[t] ensures s'.disk[t.path][p] == generation[t.path][p] {
      if p >= t.offset + s.written[t] {
        var piece := data[s.written[t]..s.written[t] + count];
        assert s'.disk[t.path][p] == piece[p - (t.offset + s.written[t])];
        assert data[p - t.offset] == generation[t.path][p];
      }
    }
  }

  /** One worker writes one target: short writes of any length, each a step of the protocol. */
  method RestoreTarget(sha: seq<byte> -> string, m: Manifest, ghost generation: Disk, ghost known: set<seq<byte>>, s: State,
                       digest: string, t: Target, data: seq<byte>)
    returns (s': State)
    requires ToldApart(sha, m, generation, known) && IsOf(sha, m, generation) && Sound(m, generation, s)
    requires Pending(s.missing, digest, t) && t in s.written && s.written[t] == 0
    requires sha(data) == digest && |data| == t.size && data in known
    ensures Sound(m, generation, s') && s'.missing == s.missing && s'.written == s.written[t := t.size]
    ensures s'.disk == s.disk[t.path := Patched(s.disk[t.path], t.offset, data)]
  {
    hide Sound, IsOf, ToldApart, Patched, Pending;
    s' := s;
    TargetFits(sha, m, generation, s, digest, t);
    var written := 0;
    assert NothingPatched(s.disk[t.path], t.offset, data) by {
      PatchNone(s.disk[t.path], t.offset, data);
    }
    while written < |data|
      invariant 0 <= written <= |data| && Inside(s.disk, t) && Inside(s'.disk, t)
      invariant Sound(m, generation, s') && s'.missing == s.missing && s'.written == s.written[t := written]
      invariant s'.disk == s.disk[t.path := Patched(s.disk[t.path], t.offset, data[..written])]
    {
      var count :| 0 < count <= |data| - written;
      ghost var before := s';
      PatchMore(s.disk[t.path], t.offset, data, written, count);
      s' := State(s'.disk[t.path := Patched(s'.disk[t.path], t.offset + written, data[written..written + count])],
                  s'.missing, s'.written[t := written + count]);
      assert Writes(sha, known, before, s', digest, t, data, count);
      WriteIsSound(sha, m, generation, known, before, s');
      written := written + count;
    }
    assert data[..written] == data;
  }

  predicate NothingPatched(file: seq<byte>, at: nat, data: seq<byte>)
    requires at + |data| <= |file|
  {
    Patched(file, at, data[..0]) == file
  }

  lemma PatchNone(file: seq<byte>, at: nat, data: seq<byte>)
    requires at + |data| <= |file|
    ensures NothingPatched(file, at, data)
  {
  }

  lemma PatchMore(file: seq<byte>, at: nat, data: seq<byte>, written: nat, count: nat)
    requires at + |data| <= |file| && written + count <= |data|
    ensures Patched(Patched(file, at, data[..written]), at + written, data[written..written + count])
            == Patched(file, at, data[..written + count])
  {
    hide Patched;
    var a := Patched(Patched(file, at, data[..written]), at + written, data[written..written + count]);
    var b := Patched(file, at, data[..written + count]);
    forall p | 0 <= p < |file| ensures a[p] == b[p] {
    }
    assert a == b;
  }

  lemma TargetFits(sha: seq<byte> -> string, m: Manifest, generation: Disk, s: State, digest: string, t: Target)
    requires IsOf(sha, m, generation) && Sound(m, generation, s) && Pending(s.missing, digest, t)
    ensures Inside(s.disk, t)
  {
    hide IsOf, IsTarget;
    TargetsAreRegions(sha, m, generation, digest, t);
  }

  lemma RightIsKept(generation: Disk, s: State, s': State, t: Target, n: int)
    requires RightUpto(generation, s.disk, t, n)
    requires s'.disk.Keys == s.disk.Keys && forall path :: path in s.disk ==> |s'.disk[path]| == |s.disk[path]|
    requires forall path, p :: path in s.disk && path in generation && 0 <= p < |s.disk[path]| && p < |generation[path]| ==>
               s'.disk[path][p] == s.disk[path][p] || s'.disk[path][p] == generation[path][p]
    ensures RightUpto(generation, s'.disk, t, n)
  {
  }

  lemma WriteIsSound(sha: seq<byte> -> string, m: Manifest, generation: Disk, known: set<seq<byte>>, s: State, s': State)
    requires ToldApart(sha, m, generation, known) && IsOf(sha, m, generation) && Sound(m, generation, s) && WriteStep(sha, known, s, s')
    ensures Sound(m, generation, s')
  {
    hide IsTarget, IsOf, Patched, RightUpto, Pending, ToldApart;
    WritesOnlyRepair(sha, m, generation, known, s, s');
    var digest, t, data, count :| Writes(sha, known, s, s', digest, t, data, count);
    WriteAdvances(sha, m, generation, known, s, s', digest, t, data, count);
    assert s'.written.Keys == s.written.Keys && s'.missing == s.missing;
    forall d, u | IsTarget(m, d, u) ensures RightUpto(generation, s'.disk, u, Upto(s', u)) {
      TargetsAreRegions(sha, m, generation, d, u);
      if u != t {
        assert Upto(s', u) == Upto(s, u);
        RightIsKept(generation, s, s', u, Upto(s, u));
      }
    }
  }

  /** With nothing left to write, every file is the one that was chunked. */
  lemma FinishedIsRestored(sha: seq<byte> -> string, m: Manifest, generation: Disk, s: State)
    requires IsOf(sha, m, generation) && Sound(m, generation, s) && Finished(s)
    ensures IsRestored(m, generation, s.disk)
  {
    hide IsTarget, Pending;
    forall i | 0 <= i < |m.files| ensures s.disk[m.files[i].path] == generation[m.files[i].path] {
      var e := m.files[i];
      forall p | 0 <= p < e.size ensures s.disk[e.path][p] == generation[e.path][p] {
        var k := TilesCover(e.chunks, 0, e.size, p);
        ChunkIsTarget(m, i, k);
        assert RightUpto(generation, s.disk, TargetOf(e, e.chunks[k]), Upto(s, TargetOf(e, e.chunks[k])));
      }
    }
  }

  ghost predicate IsRestored(m: Manifest, generation: Disk, disk: Disk) {
    forall i :: 0 <= i < |m.files| ==>
      m.files[i].path in disk && m.files[i].path in generation && disk[m.files[i].path] == generation[m.files[i].path]
  }

  ghost predicate IsRun(sha: seq<byte> -> string, m: Manifest, known: set<seq<byte>>, run: seq<State>) {
    && run != []
    && Start(sha, m, known, run[0])
    && forall i :: 0 < i < |run| ==> Next(sha, m, known, run[i - 1], run[i])
  }

  lemma {:induction false} RunIsSound(sha: seq<byte> -> string, m: Manifest, generation: Disk, known: set<seq<byte>>, run: seq<State>)
    requires ToldApart(sha, m, generation, known) && IsOf(sha, m, generation) && IsRun(sha, m, known, run)
    ensures Sound(m, generation, run[|run| - 1])
  {
    hide IsOf, Sound, Start, WriteStep, ToldApart;
    var n := |run| - 1;
    if n == 0 {
      StartIsSound(sha, m, generation, known, run[0]);
    } else {
      RunIsSound(sha, m, generation, known, run[..n]);
      assert Next(sha, m, known, run[n - 1], run[n]);
      if Start(sha, m, known, run[n]) {
        StartIsSound(sha, m, generation, known, run[n]);
      } else {
        WriteIsSound(sha, m, generation, known, run[n - 1], run[n]);
      }
    }
  }

  /** Restore converges: any contents, any interleaving, any stops and reruns. */
  lemma RestoreConverges(sha: seq<byte> -> string, m: Manifest, generation: Disk, known: set<seq<byte>>, run: seq<State>)
    requires ToldApart(sha, m, generation, known) && IsOf(sha, m, generation) && IsRun(sha, m, known, run) && Finished(run[|run| - 1])
    ensures IsRestored(m, generation, run[|run| - 1].disk)
  {
    hide IsOf, Sound, Start, Next, Finished, IsRestored, ToldApart;
    RunIsSound(sha, m, generation, known, run);
    FinishedIsRestored(sha, m, generation, run[|run| - 1]);
  }

  /** From building to restoring, with one hash function: every file walked is on the disk as it was. */
  lemma BuiltIsRestored(sha: seq<byte> -> string, m: Manifest, generation: Disk, paths: seq<string>, known: set<seq<byte>>, run: seq<State>)
    requires IsManifestOf(sha, m, generation, paths) && ToldApart(sha, m, generation, known)
    requires IsRun(sha, m, known, run) && Finished(run[|run| - 1])
    ensures forall i :: 0 <= i < |paths| ==>
              paths[i] in run[|run| - 1].disk && run[|run| - 1].disk[paths[i]] == generation[paths[i]]
  {
    hide Describes, Sound, Start, Next, Finished, ToldApart;
    RestoreConverges(sha, m, generation, known, run);
    forall i | 0 <= i < |paths|
      ensures paths[i] in run[|run| - 1].disk && run[|run| - 1].disk[paths[i]] == generation[paths[i]]
    {
      assert m.files[i].path == paths[i];
    }
  }

  /** An unfinished run can always write on. */
  lemma RestoreCanGoOn(sha: seq<byte> -> string, m: Manifest, generation: Disk, known: set<seq<byte>>, s: State)
    returns (t: Target, next: State)
    requires IsOf(sha, m, generation) && Chunks(m, generation) <= known && Sound(m, generation, s) && !Finished(s)
    ensures WriteStep(sha, known, s, next) && t in s.written && s.written[t] < t.size
    ensures next.written == s.written[t := t.size]
  {
    hide IsTarget, IsOf, Sized, Chunks;
    t :| t in s.written && s.written[t] != t.size;
    var digest :| Pending(s.missing, digest, t);
    TargetsAreRegions(sha, m, generation, digest, t);
    assert RightUpto(generation, s.disk, t, Upto(s, t));
    var data := Region(generation, t);
    RegionIsChunk(m, generation, digest, t);
    var count := t.size - s.written[t];
    next := State(s.disk[t.path := Patched(s.disk[t.path], t.offset + s.written[t], data[s.written[t]..s.written[t] + count])],
                  s.missing, s.written[t := s.written[t] + count]);
    assert Writes(sha, known, s, next, digest, t, data, count);
  }

  lemma RestoredIsNotPending(sha: seq<byte> -> string, m: Manifest, generation: Disk, known: set<seq<byte>>, s: State, digest: string, t: Target)
    requires IsOf(sha, m, generation) && IsRestored(m, generation, s.disk) && Start(sha, m, known, s)
    ensures !Pending(s.missing, digest, t)
  {
    hide IsOf, ArePlanned, Sized, Pending;
    if IsTarget(m, digest, t) {
      TargetsAreRegions(sha, m, generation, digest, t);
      var i, k :| IsChunkAt(m, digest, t, i, k);
      assert s.disk[m.files[i].path] == generation[m.files[i].path];
    }
  }

  /** A rerun over restored files finds nothing to write. */
  lemma RerunHasNothingToDo(sha: seq<byte> -> string, m: Manifest, generation: Disk, known: set<seq<byte>>, s: State)
    requires IsOf(sha, m, generation) && IsRestored(m, generation, s.disk) && Start(sha, m, known, s)
    ensures s.written == map[]
  {
    hide IsOf, Plans, Sized, Pending, IsRestored;
    forall digest, t ensures !Pending(s.missing, digest, t) {
      RestoredIsNotPending(sha, m, generation, known, s, digest, t);
    }
  }

  // ----- the final check -----

  /** Every file has the size and the digest of its entry. */
  ghost predicate AllMatch(sha: seq<byte> -> string, m: Manifest, disk: Disk) {
    forall i :: 0 <= i < |m.files| ==> Matches(sha, m.files[i], disk)
  }

  predicate Matches(sha: seq<byte> -> string, e: FileEntry, disk: Disk) {
    e.path in disk && |disk[e.path]| == e.size && sha(disk[e.path]) == e.sha256
  }

  /** Files that match are those of the generation, when the digests tell the files concerned apart. */
  lemma MatchingIsRestored(sha: seq<byte> -> string, m: Manifest, generation: Disk, disk: Disk)
    requires IsOf(sha, m, generation) && InjectiveOn(sha, Files(m, generation) + Files(m, disk))
    ensures AllMatch(sha, m, disk) <==> IsRestored(m, generation, disk)
  {
    hide Tiles, ChunksDescribe;
    forall i | 0 <= i < |m.files|
      ensures Matches(sha, m.files[i], disk) <==>
              m.files[i].path in disk && disk[m.files[i].path] == generation[m.files[i].path]
    {
      var e := m.files[i];
      assert Describes(sha, e, generation[e.path]);
      assert generation[e.path] in Files(m, generation);
      assert e.path in disk ==> disk[e.path] in Files(m, disk);
    }
  }

  /** Whole files are compared with their digests. */
  method VerifyFiles(sha: seq<byte> -> string, m: Manifest, ghost generation: Disk, disk: Disk) returns (r: Result<(), RestoreError>)
    requires IsOf(sha, m, generation)
    ensures r.Ok? <==> AllMatch(sha, m, disk)
    ensures InjectiveOn(sha, Files(m, generation) + Files(m, disk)) ==> (r.Ok? <==> IsRestored(m, generation, disk))
  {
    hide IsOf, InjectiveOn, Files, IsRestored;
    if InjectiveOn(sha, Files(m, generation) + Files(m, disk)) {
      MatchingIsRestored(sha, m, generation, disk);
    }
    for i := 0 to |m.files|
      invariant forall k :: 0 <= k < i ==> Matches(sha, m.files[k], disk)
    {
      var e := m.files[i];
      if e.path !in disk || |disk[e.path]| != e.size || sha(disk[e.path]) != e.sha256 {
        return Err(FileMismatch(e.path));
      }
    }
    return Ok(());
  }
}
