/**
  Reconciling the committed inventory with a discovery plan. Workers acquire titles at the same
  time, staging what they acquired; one final write commits the new state. A run may stop at any
  point and be started again.
 */
module Reconcile {
  import opened Common
  import opened KeysetScan

  const STATE_SCHEMA_VERSION := 2

  datatype Entry = Entry(nativeId: string, key: Key, registerId: Option<string>, url: string, payloadHash: string, cursor: Cursor)

  datatype State = State(schemaVersion: int, cursor: Option<Cursor>, inventory: map<string, Entry>)

  /** The version selected for a title. */
  datatype Version = Version(key: Key, registerId: Option<string>, cursor: Option<Cursor>)

  datatype Plan = Plan(titles: set<string>, versions: map<string, Version>, proposed: Option<Cursor>)

  ghost predicate IsPlan(plan: Plan) {
    plan.versions.Keys <= plan.titles && plan.titles != {}
  }

  /** A stored document that loads and whose content hash is right. */
  datatype Document = Document(nativeId: string, url: string, hash: string)

  datatype Fetched = Fetched(url: string, hash: string)

  /** What fetching and normalising the preferred rendition of a title's version gives. */
  datatype Upstream = Upstream(fetch: (string, Version) -> Option<Fetched>)

  datatype Disk = Disk(state: State, staging: map<string, Entry>, documents: set<Document>)

  predicate Loadable(documents: set<Document>, title: string, e: Entry) {
    e.nativeId == title && Document(title, e.url, e.payloadHash) in documents
  }

  /** The staged entry if it is of this version, otherwise the committed one if that is. */
  function Candidate(previous: State, staging: map<string, Entry>, title: string, key: Key): Option<Entry> {
    if previous.schemaVersion != STATE_SCHEMA_VERSION then None
    else if title in staging && staging[title].key == key then Some(staging[title])
    else if title in previous.inventory && previous.inventory[title].key == key then Some(previous.inventory[title])
    else None
  }

  function Reused(previous: State, staging: map<string, Entry>, documents: set<Document>, title: string, key: Key): Option<Entry> {
    var candidate := Candidate(previous, staging, title, key);
    if candidate.Some? && Loadable(documents, title, candidate.value) then candidate else None
  }

  function NewEntry(title: string, v: Version, f: Fetched, cursor: Cursor): Entry {
    Entry(title, v.key, v.registerId, f.url, f.hash, cursor)
  }

  /** The committed entries of authoritative titles, overwritten by those acquired. */
  function Reconciled(previous: State, titles: set<string>, acquired: map<string, Entry>): map<string, Entry> {
    (map t | t in previous.inventory && t in titles :: previous.inventory[t]) + acquired
  }

  /** The later of the two cursors; an absent one never wins. */
  function NextCursor(previous: Option<Cursor>, proposed: Option<Cursor>): Option<Cursor> {
    if previous.Some? && proposed.Some? && CompareCursors(proposed.value, previous.value) == Lower then previous
    else if proposed.Some? then proposed
    else previous
  }

  function Committed(previous: State, plan: Plan, acquired: map<string, Entry>): State {
    State(STATE_SCHEMA_VERSION, NextCursor(previous.cursor, plan.proposed), Reconciled(previous, plan.titles, acquired))
  }

  // ----- the steps of a run -----

  datatype Phase = Todo | Persisted(fetched: Fetched) | Done(entry: Entry)

  datatype Run = Run(plan: Plan, previous: State, phases: map<string, Phase>, committed: bool)

  datatype Config = Config(disk: Disk, run: Option<Run>)

  function AllTodo(plan: Plan): map<string, Phase> {
    map t | t in plan.versions :: Todo
  }

  function Acquired(phases: map<string, Phase>): map<string, Entry> {
    map t | t in phases && phases[t].Done? :: phases[t].entry
  }

  ghost predicate BeginStep(c: Config, c': Config, plan: Plan) {
    c.run.None? && IsPlan(plan) && c' == Config(c.disk, Some(Run(plan, c.disk.state, AllTodo(plan), false)))
  }

  /** A worker may act on title `t`. */
  ghost predicate Working(c: Config, t: string) {
    c.run.Some? && !c.run.value.committed && t in c.run.value.phases && t in c.run.value.plan.versions
  }

  function Reuses(c: Config, t: string): Option<Entry>
    requires c.run.Some? && t in c.run.value.plan.versions
  {
    Reused(c.run.value.previous, c.disk.staging, c.disk.documents, t, c.run.value.plan.versions[t].key)
  }

  function WithPhase(c: Config, t: string, phase: Phase): Option<Run>
    requires c.run.Some?
  {
    Some(c.run.value.(phases := c.run.value.phases[t := phase]))
  }

  ghost predicate ReuseStep(c: Config, c': Config, t: string) {
    && Working(c, t) && c.run.value.phases[t] == Todo && Reuses(c, t).Some?
    && c' == Config(c.disk, WithPhase(c, t, Done(Reuses(c, t).value)))
  }

  /** The document is fetched and stored. */
  ghost predicate PersistStep(up: Upstream, c: Config, c': Config, t: string) {
    && Working(c, t) && c.run.value.phases[t] == Todo && Reuses(c, t).None?
    && var f := up.fetch(t, c.run.value.plan.versions[t]);
       && f.Some?
       && c' == Config(c.disk.(documents := c.disk.documents + {Document(t, f.value.url, f.value.hash)}),
                       WithPhase(c, t, Persisted(f.value)))
  }

  /** The entry is staged. */
  ghost predicate StageStep(c: Config, c': Config, t: string) {
    && Working(c, t) && c.run.value.phases[t].Persisted?
    && var v := c.run.value.plan.versions[t];
       && v.cursor.Some?
       && var e := NewEntry(t, v, c.run.value.phases[t].fetched, v.cursor.value);
          c' == Config(c.disk.(staging := c.disk.staging[t := e]), WithPhase(c, t, Done(e)))
  }

  ghost predicate CommitStep(c: Config, c': Config) {
    && c.run.Some? && !c.run.value.committed
    && var run := c.run.value;
       && (forall t :: t in run.phases ==> run.phases[t].Done?)
       && Reconciled(run.previous, run.plan.titles, Acquired(run.phases)).Keys == run.plan.titles
       && c' == Config(c.disk.(state := Committed(run.previous, run.plan, Acquired(run.phases))), Some(run.(committed := true)))
  }

  ghost predicate ClearStep(c: Config, c': Config) {
    c.run.Some? && c.run.value.committed && c' == Config(c.disk.(staging := map[]), None)
  }

  /** An error, or the process dies. */
  ghost predicate StopStep(c: Config, c': Config) {
    c' == Config(c.disk, None)
  }

  ghost predicate Step(up: Upstream, c: Config, c': Config) {
    || (exists plan :: BeginStep(c, c', plan))
    || (exists t :: ReuseStep(c, c', t) || PersistStep(up, c, c', t) || StageStep(c, c', t))
    || CommitStep(c, c')
    || ClearStep(c, c')
    || StopStep(c, c')
  }

  // ----- what every history keeps -----

  /** Any number of runs of any plans, against an upstream that may change at every step. */
  ghost predicate IsHistory(history: seq<Config>) {
    && history != [] && history[0].run.None?
    && forall i :: 0 < i < |history| ==> AnyStep(history[i - 1], history[i])
  }

  ghost predicate AnyStep(c: Config, c': Config) {
    exists up :: Step(up, c, c')
  }

  ghost predicate NotBack(before: Option<Cursor>, after: Option<Cursor>) {
    before.Some? ==> after.Some? && !Less(after.value, before.value)
  }

  lemma NextCursorIsNotBack(previous: Option<Cursor>, proposed: Option<Cursor>)
    ensures NotBack(previous, NextCursor(previous, proposed)) && NotBack(proposed, NextCursor(previous, proposed))
    ensures NextCursor(previous, proposed) in {previous, proposed}
  {
    hide CompareCursors, Less;
    if previous.Some? {
      CursorsAreTotallyOrdered(previous.value, previous.value);
    }
    if proposed.Some? {
      CursorsAreTotallyOrdered(proposed.value, proposed.value);
    }
    if previous.Some? && proposed.Some? {
      CursorsAreTotallyOrdered(proposed.value, previous.value);
    }
  }

  /** A running process has read the state that is on disk, and only a commit changes it. */
  ghost predicate ReadsState(c: Config) {
    c.run.Some? && !c.run.value.committed ==> c.run.value.previous == c.disk.state
  }

  ghost predicate StoresAll(documents: set<Document>, entries: map<string, Entry>) {
    forall t :: t in entries ==> Loadable(documents, t, entries[t])
  }

  ghost predicate PhasesAreStored(documents: set<Document>, phases: map<string, Phase>) {
    forall t :: t in phases ==> PhaseIsStored(documents, t, phases[t])
  }

  predicate PhaseIsStored(documents: set<Document>, t: string, phase: Phase) {
    match phase
    case Todo => true
    case Persisted(f) => Document(t, f.url, f.hash) in documents
    case Done(e) => Loadable(documents, t, e)
  }

  /** Every staged or committed entry has its document. */
  ghost predicate IsStored(c: Config) {
    && StoresAll(c.disk.documents, c.disk.staging)
    && StoresAll(c.disk.documents, c.disk.state.inventory)
    && (c.run.Some? ==> PhasesAreStored(c.disk.documents, c.run.value.phases)
                        && StoresAll(c.disk.documents, c.run.value.previous.inventory))
  }

  /** The committed state changes only at a commit, to exactly the authoritative titles and a cursor that is not earlier. */
  lemma StepKeepsState(up: Upstream, c: Config, c': Config)
    requires ReadsState(c) && Step(up, c, c')
    ensures ReadsState(c')
    ensures CommitStep(c, c') || c'.disk.state == c.disk.state
    ensures CommitStep(c, c') ==> c'.disk.state.inventory.Keys == c.run.value.plan.titles
    ensures NotBack(c.disk.state.cursor, c'.disk.state.cursor)
  {
    hide Reused, Reconciled, NextCursor, Less, NotBack;
    NextCursorIsNotBack(c.disk.state.cursor, None);
    assert NotBack(c.disk.state.cursor, c.disk.state.cursor) by {
      CursorIsItself(c.disk.state.cursor);
    }
    if CommitStep(c, c') {
      NextCursorIsNotBack(c.disk.state.cursor, c.run.value.plan.proposed);
    }
  }

  lemma CursorIsItself(c: Option<Cursor>)
    ensures NotBack(c, c)
  {
    hide Less, CompareCursors;
    if c.Some? {
      CursorsAreTotallyOrdered(c.value, c.value);
    }
  }

  lemma NotBackTransitive(a: Option<Cursor>, b: Option<Cursor>, c: Option<Cursor>)
    requires NotBack(a, b) && NotBack(b, c)
    ensures NotBack(a, c)
  {
    hide Less, CompareCursors;
    if a.Some? {
      LessIsTransitive(a.value, b.value, c.value);
    }
  }

  lemma StepKeepsStored(up: Upstream, c: Config, c': Config)
    requires IsStored(c) && ReadsState(c) && Step(up, c, c')
    ensures IsStored(c')
  {
    hide NextCursor, IsPlan;
    if t :| PersistStep(up, c, c', t) {
    } else if t :| StageStep(c, c', t) {
    } else if t :| ReuseStep(c, c', t) {
    } else {
    }
  }

  /** Over all histories: cursors never go back, and every committed entry keeps its document. */
  lemma {:induction false} HistoryKeeps(history: seq<Config>, i: nat)
    requires IsHistory(history) && IsStored(history[0]) && i < |history|
    ensures ReadsState(history[|history| - 1]) && IsStored(history[|history| - 1])
    ensures NotBack(history[i].disk.state.cursor, history[|history| - 1].disk.state.cursor)
  {
    hide IsStored, ReadsState, Step, NotBack;
    var n := |history| - 1;
    if n == 0 {
      CursorIsItself(history[0].disk.state.cursor);
      assert ReadsState(history[0]) by {
        NoRunReadsState(history[0]);
      }
    } else {
      HistoryKeeps(history[..n], Min(i, n - 1));
      var up :| Step(up, history[n - 1], history[n]);
      StepKeepsState(up, history[n - 1], history[n]);
      StepKeepsStored(up, history[n - 1], history[n]);
      if i == n {
        CursorIsItself(history[n].disk.state.cursor);
      } else {
        NotBackTransitive(history[i].disk.state.cursor, history[n - 1].disk.state.cursor, history[n].disk.state.cursor);
      }
    }
  }

  lemma NoRunReadsState(c: Config)
    requires c.run.None?
    ensures ReadsState(c)
  {
  }

  // ----- convergence of interrupted runs -----

  /** The entry a run that is never interrupted commits for a title. */
  function Expected(up: Upstream, plan: Plan, disk: Disk, t: string): Option<Entry>
    requires t in plan.versions
  {
    var v := plan.versions[t];
    var reused := Reused(disk.state, disk.staging, disk.documents, t, v.key);
    if reused.Some? then reused else Fresh(up, plan, t)
  }

  function Fresh(up: Upstream, plan: Plan, t: string): Option<Entry>
    requires t in plan.versions
  {
    var v := plan.versions[t];
    var f := up.fetch(t, v);
    if f.Some? && v.cursor.Some? then Some(NewEntry(t, v, f.value, v.cursor.value)) else None
  }

  /** Every title of the plan can be acquired and every authoritative title ends up with an entry. */
  ghost predicate CanCommit(up: Upstream, plan: Plan, disk: Disk) {
    && IsPlan(plan)
    && (forall t :: t in plan.versions ==> Expected(up, plan, disk, t).Some? && Fresh(up, plan, t).Some?)
    && forall t :: t in plan.titles ==> t in plan.versions || t in disk.state.inventory
  }

  function Uninterrupted(up: Upstream, plan: Plan, disk: Disk): State {
    Committed(disk.state, plan, map t | t in plan.versions && Expected(up, plan, disk, t).Some? :: Expected(up, plan, disk, t).value)
  }

  /** Runs of one plan up to the first commit, upstream unchanged. */
  ghost predicate IsPlanRun(up: Upstream, plan: Plan, disk: Disk, trace: seq<Config>) {
    && trace != [] && trace[0] == Config(disk, None)
    && (forall i :: 0 < i < |trace| ==> Step(up, trace[i - 1], trace[i]))
    && (forall i :: 0 <= i < |trace| && trace[i].run.Some? ==> trace[i].run.value.plan == plan)
    && (forall i :: 0 <= i < |trace| - 1 && trace[i].run.Some? ==> !trace[i].run.value.committed)
  }

  ghost predicate EndsCommitted(trace: seq<Config>) {
    trace != [] && trace[|trace| - 1].run.Some? && trace[|trace| - 1].run.value.committed
  }

  /**
    The committed entry is of the planned version but its document is gone, fetching gives a document
    that the old entry also fits, and the new entry differs. A stop after the document is stored and
    before the new entry is staged then brings the old entry back.
   */
  ghost predicate Revives(up: Upstream, plan: Plan, disk: Disk, t: string)
    requires t in plan.versions
  {
    var v := plan.versions[t];
    var f := up.fetch(t, v);
    && Candidate(disk.state, map[], t, v.key).Some?
    && var former := disk.state.inventory[t];
       && !Loadable(disk.documents, t, former)
       && f.Some? && former.nativeId == t && former.url == f.value.url && former.payloadHash == f.value.hash
       && Fresh(up, plan, t) != Some(former)
  }

  /** While runs of the plan go on. */
  ghost predicate OnPlan(up: Upstream, plan: Plan, disk: Disk, c: Config) {
    && disk.staging == map[] && c.disk.state == disk.state
    && disk.documents <= c.disk.documents
    && (forall d :: d in c.disk.documents && d !in disk.documents ==> IsFetched(up, plan, d))
    && (forall t :: t in c.disk.staging ==> IsStaged(up, plan, disk, c.disk, t))
    && (c.run.Some? ==>
          && c.run.value.previous == disk.state && c.run.value.phases.Keys == plan.versions.Keys
          && forall t :: t in plan.versions ==> PhaseIsRight(up, plan, disk, c.disk, t, c.run.value.phases[t]))
  }

  ghost predicate IsFetched(up: Upstream, plan: Plan, d: Document) {
    d.nativeId in plan.versions && up.fetch(d.nativeId, plan.versions[d.nativeId]) == Some(Fetched(d.url, d.hash))
  }

  ghost predicate IsStaged(up: Upstream, plan: Plan, disk: Disk, now: Disk, t: string) {
    && t in plan.versions && t in now.staging
    && Some(now.staging[t]) == Fresh(up, plan, t) == Expected(up, plan, disk, t)
    && Loadable(now.documents, t, now.staging[t])
  }

  ghost predicate PhaseIsRight(up: Upstream, plan: Plan, disk: Disk, now: Disk, t: string, phase: Phase)
    requires t in plan.versions
  {
    match phase
    case Todo => true
    case Persisted(f) => up.fetch(t, plan.versions[t]) == Some(f) && Document(t, f.url, f.hash) in now.documents
                         && Expected(up, plan, disk, t) == Fresh(up, plan, t)
    case Done(e) => Some(e) == Expected(up, plan, disk, t)
  }

  /** What a worker finds reusable is what an uninterrupted run would commit, unless an old entry is revived. */
  lemma ReuseIsExpected(up: Upstream, plan: Plan, disk: Disk, c: Config, t: string)
    requires OnPlan(up, plan, disk, c) && c.run.Some? && c.run.value.plan == plan && t in plan.versions
    requires !Revives(up, plan, disk, t)
    ensures Reuses(c, t).Some? ==> Reuses(c, t) == Expected(up, plan, disk, t)
    ensures Reuses(c, t).None? ==> Expected(up, plan, disk, t) == Fresh(up, plan, t)
  {
    if t in c.disk.staging {
      assert IsStaged(up, plan, disk, c.disk, t);
    }
  }

  lemma OnPlanStep(up: Upstream, plan: Plan, disk: Disk, c: Config, c': Config)
    requires OnPlan(up, plan, disk, c) && Step(up, c, c') && (c.run.Some? ==> c.run.value.plan == plan && !c.run.value.committed)
    requires c'.run.Some? ==> c'.run.value.plan == plan
    requires forall t :: t in plan.versions ==> !Revives(up, plan, disk, t)
    ensures CommitStep(c, c') ==> c'.disk.state == Uninterrupted(up, plan, disk)
    ensures !CommitStep(c, c') ==> OnPlan(up, plan, disk, c')
  {
    hide OnPlan, Revives, Expected, Fresh, Reuses, Committed, IsPlan;
    if plan' :| BeginStep(c, c', plan') {
      BeginOnPlan(up, plan, disk, c, c');
    } else if t :| ReuseStep(c, c', t) {
      ReuseIsExpected(up, plan, disk, c, t);
      PhaseOnPlan(up, plan, disk, c, c', t, Done(Reuses(c, t).value));
    } else if t :| PersistStep(up, c, c', t) {
      ReuseIsExpected(up, plan, disk, c, t);
      PersistOnPlan(up, plan, disk, c, c', t);
    } else if t :| StageStep(c, c', t) {
      StageOnPlan(up, plan, disk, c, c', t);
    } else if CommitStep(c, c') {
      CommitOnPlan(up, plan, disk, c, c');
    } else {
      StopOnPlan(up, plan, disk, c, c');
    }
  }

  lemma BeginOnPlan(up: Upstream, plan: Plan, disk: Disk, c: Config, c': Config)
    requires OnPlan(up, plan, disk, c) && BeginStep(c, c', plan)
    ensures OnPlan(up, plan, disk, c')
  {
    hide Expected, Fresh;
  }

  lemma StopOnPlan(up: Upstream, plan: Plan, disk: Disk, c: Config, c': Config)
    requires OnPlan(up, plan, disk, c) && StopStep(c, c')
    ensures OnPlan(up, plan, disk, c')
  {
    hide Expected, Fresh;
  }

  lemma PhaseOnPlan(up: Upstream, plan: Plan, disk: Disk, c: Config, c': Config, t: string, phase: Phase)
    requires OnPlan(up, plan, disk, c) && c.run.Some? && t in plan.versions
    requires c'.disk == c.disk && c'.run == WithPhase(c, t, phase)
    requires PhaseIsRight(up, plan, disk, c.disk, t, phase)
    ensures OnPlan(up, plan, disk, c')
  {
    hide Expected, Fresh, PhaseIsRight, IsStaged, IsFetched;
  }

  lemma PersistOnPlan(up: Upstream, plan: Plan, disk: Disk, c: Config, c': Config, t: string)
    requires OnPlan(up, plan, disk, c) && c.run.Some? && c.run.value.plan == plan && PersistStep(up, c, c', t)
    requires Expected(up, plan, disk, t) == Fresh(up, plan, t)
    ensures OnPlan(up, plan, disk, c')
  {
    hide Expected, Fresh, Reuses;
    forall d | d in c'.disk.documents && d !in disk.documents ensures IsFetched(up, plan, d) {
      if d !in c.disk.documents {
        assert d.nativeId == t;
      }
    }
    forall u | u in c'.disk.staging ensures IsStaged(up, plan, disk, c'.disk, u) {
      assert IsStaged(up, plan, disk, c.disk, u);
    }
    forall u | u in plan.versions ensures PhaseIsRight(up, plan, disk, c'.disk, u, c'.run.value.phases[u]) {
      assert PhaseIsRight(up, plan, disk, c.disk, u, c.run.value.phases[u]);
    }
  }

  lemma StageOnPlan(up: Upstream, plan: Plan, disk: Disk, c: Config, c': Config, t: string)
    requires OnPlan(up, plan, disk, c) && c.run.Some? && c.run.value.plan == plan && StageStep(c, c', t)
    ensures OnPlan(up, plan, disk, c')
  {
    hide Expected;
    assert PhaseIsRight(up, plan, disk, c.disk, t, c.run.value.phases[t]);
    forall u | u in c'.disk.staging ensures IsStaged(up, plan, disk, c'.disk, u) {
      if u != t {
        assert IsStaged(up, plan, disk, c.disk, u);
      }
    }
    forall u | u in plan.versions ensures PhaseIsRight(up, plan, disk, c'.disk, u, c'.run.value.phases[u]) {
      assert PhaseIsRight(up, plan, disk, c.disk, u, c.run.value.phases[u]);
    }
  }

  lemma CommitOnPlan(up: Upstream, plan: Plan, disk: Disk, c: Config, c': Config)
    requires OnPlan(up, plan, disk, c) && c.run.Some? && c.run.value.plan == plan && CommitStep(c, c')
    ensures c'.disk.state == Uninterrupted(up, plan, disk)
  {
    hide Expected, Committed;
    var phases := c.run.value.phases;
    var entries := map t | t in plan.versions && Expected(up, plan, disk, t).Some? :: Expected(up, plan, disk, t).value;
    forall t | t in plan.versions
      ensures t in Acquired(phases) && t in entries && Acquired(phases)[t] == entries[t]
    {
      assert PhaseIsRight(up, plan, disk, c.disk, t, phases[t]);
    }
    assert Acquired(phases) == entries;
  }

  /** However often runs of the plan are interrupted, what is finally committed is what one run would have. */
  lemma {:induction false} InterruptedRunsConverge(up: Upstream, plan: Plan, disk: Disk, trace: seq<Config>)
    requires disk.staging == map[] && IsPlanRun(up, plan, disk, trace)
    requires forall t :: t in plan.versions ==> !Revives(up, plan, disk, t)
    ensures EndsCommitted(trace) ==> trace[|trace| - 1].disk.state == Uninterrupted(up, plan, disk)
    ensures !EndsCommitted(trace) ==> OnPlan(up, plan, disk, trace[|trace| - 1])
  {
    hide OnPlan, Revives, Step, Uninterrupted;
    var n := |trace| - 1;
    if n == 0 {
      assert OnPlan(up, plan, disk, trace[0]) by {
        StartOnPlan(up, plan, disk);
      }
    } else {
      InterruptedRunsConverge(up, plan, disk, trace[..n]);
      assert !EndsCommitted(trace[..n]);
      OnPlanStep(up, plan, disk, trace[n - 1], trace[n]);
      CommitsAtTheEnd(up, trace[n - 1], trace[n]);
    }
  }

  lemma StartOnPlan(up: Upstream, plan: Plan, disk: Disk)
    requires disk.staging == map[]
    ensures OnPlan(up, plan, disk, Config(disk, None))
  {
  }

  lemma CommitsAtTheEnd(up: Upstream, c: Config, c': Config)
    requires Step(up, c, c') && (c.run.Some? ==> !c.run.value.committed)
    ensures CommitStep(c, c') <==> c'.run.Some? && c'.run.value.committed
  {
    hide Reconciled, Committed, Reused, IsPlan;
  }

  // ----- exactly when they converge -----

  lemma Extend(up: Upstream, plan: Plan, disk: Disk, trace: seq<Config>, c: Config)
    requires IsPlanRun(up, plan, disk, trace) && !EndsCommitted(trace) && Step(up, trace[|trace| - 1], c)
    requires c.run.Some? ==> c.run.value.plan == plan
    ensures IsPlanRun(up, plan, disk, trace + [c])
  {
    hide Step;
    var longer := trace + [c];
    assert forall i :: 0 <= i < |trace| ==> longer[i] == trace[i];
    assert longer[|trace|] == c;
    forall i | 0 < i < |longer| ensures Step(up, longer[i - 1], longer[i]) {
      if i < |trace| {
        assert Step(up, trace[i - 1], trace[i]);
      }
    }
  }

  /** A run under way, no title half done. */
  ghost predicate UnderWay(plan: Plan, disk: Disk, c: Config) {
    && c.run.Some? && !c.run.value.committed && c.run.value.plan == plan && c.run.value.previous == disk.state
    && c.run.value.phases.Keys == plan.versions.Keys
    && forall t :: t in c.run.value.phases ==> !c.run.value.phases[t].Persisted?
  }

  function TodoTitles(c: Config): set<string>
    requires c.run.Some?
  {
    set t | t in c.run.value.phases && c.run.value.phases[t] == Todo
  }

  /** One title is acquired from start to end. */
  lemma Acquire(up: Upstream, plan: Plan, disk: Disk, trace: seq<Config>, t: string) returns (longer: seq<Config>)
    requires IsPlanRun(up, plan, disk, trace) && UnderWay(plan, disk, trace[|trace| - 1])
    requires t in TodoTitles(trace[|trace| - 1]) && Fresh(up, plan, t).Some?
    ensures IsPlanRun(up, plan, disk, longer) && UnderWay(plan, disk, longer[|longer| - 1])
    ensures longer[|longer| - 1].disk.state == trace[|trace| - 1].disk.state
    ensures exists e :: longer[|longer| - 1].run.value.phases == trace[|trace| - 1].run.value.phases[t := Done(e)]
  {
    hide IsPlanRun, Reuses, IsPlan;
    assert trace != [] by {
      RunIsNotEmpty(up, plan, disk, trace);
    }
    var c := trace[|trace| - 1];
    if Reuses(c, t).Some? {
      var next := Config(c.disk, WithPhase(c, t, Done(Reuses(c, t).value)));
      assert ReuseStep(c, next, t);
      Extend(up, plan, disk, trace, next);
      longer := trace + [next];
    } else {
      var v := plan.versions[t];
      var f := up.fetch(t, v).value;
      var stored := Config(c.disk.(documents := c.disk.documents + {Document(t, f.url, f.hash)}), WithPhase(c, t, Persisted(f)));
      assert PersistStep(up, c, stored, t);
      Extend(up, plan, disk, trace, stored);
      var e := NewEntry(t, v, f, v.cursor.value);
      var staged := Config(stored.disk.(staging := stored.disk.staging[t := e]), WithPhase(stored, t, Done(e)));
      assert StageStep(stored, staged, t);
      Extend(up, plan, disk, trace + [stored], staged);
      longer := trace + [stored] + [staged];
      assert staged.run.value.phases == c.run.value.phases[t := Done(e)];
    }
  }

  lemma RunIsNotEmpty(up: Upstream, plan: Plan, disk: Disk, trace: seq<Config>)
    requires IsPlanRun(up, plan, disk, trace)
    ensures trace != []
  {
  }

  /** A run under way can be brought to its commit, which keeps what was acquired so far. */
  lemma {:induction false} Finish(up: Upstream, plan: Plan, disk: Disk, trace: seq<Config>) returns (longer: seq<Config>)
    requires IsPlanRun(up, plan, disk, trace) && UnderWay(plan, disk, trace[|trace| - 1]) && CanCommit(up, plan, disk)
    ensures IsPlanRun(up, plan, disk, longer) && EndsCommitted(longer)
    ensures forall t :: t in plan.versions && trace[|trace| - 1].run.value.phases[t].Done? ==>
              var inventory := longer[|longer| - 1].disk.state.inventory;
              t in inventory && inventory[t] == trace[|trace| - 1].run.value.phases[t].entry
    decreases |TodoTitles(trace[|trace| - 1])|
  {
    hide IsPlanRun, Expected, Fresh;
    RunIsNotEmpty(up, plan, disk, trace);
    var c := trace[|trace| - 1];
    if TodoTitles(c) == {} {
      forall t | t in plan.versions ensures c.run.value.phases[t].Done? {
        assert t !in TodoTitles(c);
      }
      var next := Config(c.disk.(state := Committed(c.run.value.previous, plan, Acquired(c.run.value.phases))),
                         Some(c.run.value.(committed := true)));
      assert Reconciled(disk.state, plan.titles, Acquired(c.run.value.phases)).Keys == plan.titles;
      assert CommitStep(c, next);
      Extend(up, plan, disk, trace, next);
      longer := trace + [next];
    } else {
      var t :| t in TodoTitles(c);
      var more := Acquire(up, plan, disk, trace, t);
      RunIsNotEmpty(up, plan, disk, more);
      var e :| more[|more| - 1].run.value.phases == c.run.value.phases[t := Done(e)];
      assert TodoTitles(more[|more| - 1]) == TodoTitles(c) - {t};
      longer := Finish(up, plan, disk, more);
    }
  }

  /** The interrupted runs that bring an old entry back. */
  lemma RevivedEntryIsCommitted(up: Upstream, plan: Plan, disk: Disk, t: string) returns (trace: seq<Config>)
    requires disk.staging == map[] && CanCommit(up, plan, disk) && t in plan.versions && Revives(up, plan, disk, t)
    ensures IsPlanRun(up, plan, disk, trace) && EndsCommitted(trace)
    ensures var inventory := trace[|trace| - 1].disk.state.inventory;
            t in inventory && inventory[t] == disk.state.inventory[t] && Some(inventory[t]) != Fresh(up, plan, t)
  {
    hide IsPlanRun, Fresh, Expected;
    var idle := Config(disk, None);
    var begun := Config(disk, Some(Run(plan, disk.state, AllTodo(plan), false)));
    var f := up.fetch(t, plan.versions[t]).value;
    var stored := Config(disk.(documents := disk.documents + {Document(t, f.url, f.hash)}), WithPhase(begun, t, Persisted(f)));
    var stopped := Config(stored.disk, None);
    var again := Config(stored.disk, Some(Run(plan, disk.state, AllTodo(plan), false)));
    var former := disk.state.inventory[t];
    var reused := Config(again.disk, WithPhase(again, t, Done(former)));
    assert IsPlanRun(up, plan, disk, [idle]) by {
      AloneIsRun(up, plan, disk);
    }
    assert BeginStep(idle, begun, plan);
    Extend(up, plan, disk, [idle], begun);
    assert PersistStep(up, begun, stored, t);
    Extend(up, plan, disk, [idle] + [begun], stored);
    assert StopStep(stored, stopped);
    Extend(up, plan, disk, [idle] + [begun] + [stored], stopped);
    assert BeginStep(stopped, again, plan);
    Extend(up, plan, disk, [idle] + [begun] + [stored] + [stopped], again);
    assert ReuseStep(again, reused, t);
    Extend(up, plan, disk, [idle] + [begun] + [stored] + [stopped] + [again], reused);
    trace := Finish(up, plan, disk, [idle] + [begun] + [stored] + [stopped] + [again] + [reused]);
  }

  lemma AloneIsRun(up: Upstream, plan: Plan, disk: Disk)
    ensures IsPlanRun(up, plan, disk, [Config(disk, None)])
  {
  }

  ghost predicate Converges(up: Upstream, plan: Plan, disk: Disk) {
    forall trace: seq<Config> :: IsPlanRun(up, plan, disk, trace) && EndsCommitted(trace) ==>
      trace[|trace| - 1].disk.state == Uninterrupted(up, plan, disk)
  }

  /** Interruptions never matter exactly when no old entry can be revived. */
  lemma ConvergesExactly(up: Upstream, plan: Plan, disk: Disk)
    requires disk.staging == map[] && CanCommit(up, plan, disk)
    ensures Converges(up, plan, disk) <==> forall t :: t in plan.versions ==> !Revives(up, plan, disk, t)
  {
    hide IsPlanRun, Revives, Uninterrupted;
    if forall t :: t in plan.versions ==> !Revives(up, plan, disk, t) {
      forall trace: seq<Config> | IsPlanRun(up, plan, disk, trace) && EndsCommitted(trace)
        ensures trace[|trace| - 1].disk.state == Uninterrupted(up, plan, disk)
      {
        InterruptedRunsConverge(up, plan, disk, trace);
      }
    } else {
      var t :| t in plan.versions && Revives(up, plan, disk, t);
      var trace := RevivedEntryIsCommitted(up, plan, disk, t);
      RunIsNotEmpty(up, plan, disk, trace);
      UninterruptedEntry(up, plan, disk, t);
    }
  }

  lemma UninterruptedEntry(up: Upstream, plan: Plan, disk: Disk, t: string)
    requires disk.staging == map[] && CanCommit(up, plan, disk) && t in plan.versions && Revives(up, plan, disk, t)
    ensures var inventory := Uninterrupted(up, plan, disk).inventory;
            t in inventory && Some(inventory[t]) == Fresh(up, plan, t)
  {
    hide NextCursor;
    assert Expected(up, plan, disk, t) == Fresh(up, plan, t);
  }

  /** A version registered again with the same text, whose stored document was lost. */
  lemma InterruptionCanMatter() returns (up: Upstream, plan: Plan, disk: Disk)
    ensures disk.staging == map[] && CanCommit(up, plan, disk) && !Converges(up, plan, disk)
  {
    hide Converges, NextCursor;
    var t := "C1901A00001";
    var key := Key(t, 0, 0);
    var url := "https://www.legislation.gov.au/C1901A00001/latest/text";
    var former := Entry(t, key, None, url, "aa", Cursor(1, t, 0, 0));
    var version := Version(key, None, Some(Cursor(2, t, 0, 0)));
    up := Upstream((_, _) => Some(Fetched(url, "aa")));
    plan := Plan({t}, map[t := version], version.cursor);
    disk := Disk(State(STATE_SCHEMA_VERSION, Some(former.cursor), map[t := former]), map[], {});
    assert Fresh(up, plan, t) == Some(NewEntry(t, version, Fetched(url, "aa"), Cursor(2, t, 0, 0)));
    assert Revives(up, plan, disk, t);
    ConvergesExactly(up, plan, disk);
  }

  // ----- every commit -----

  /** What a run has acquired is of the versions planned, and stored. */
  ghost predicate WorksOnPlan(c: Config) {
    c.run.Some? ==>
      && var run := c.run.value;
      && run.phases.Keys == run.plan.versions.Keys
      && (forall t :: t in run.phases && run.phases[t].Persisted? ==>
            Document(t, run.phases[t].fetched.url, run.phases[t].fetched.hash) in c.disk.documents)
      && (forall t :: t in run.phases && run.phases[t].Done? ==>
            IsPlanned(c.disk.documents, t, run.plan.versions[t], run.phases[t].entry))
  }

  /** The committed entries are those of the versions planned; other titles keep theirs. */
  ghost predicate KeepsToPlan(c: Config) {
    c.run.Some? && c.run.value.committed ==>
      && var plan, previous, inventory := c.run.value.plan, c.run.value.previous.inventory, c.disk.state.inventory;
      && inventory.Keys == plan.titles
      && (forall t :: t in plan.versions ==> t in inventory && IsPlanned(c.disk.documents, t, plan.versions[t], inventory[t]))
      && (forall t :: t in plan.titles && t !in plan.versions ==> t in previous && t in inventory && inventory[t] == previous[t])
  }

  lemma PhaseWorks(c: Config, c': Config, t: string, phase: Phase)
    requires WorksOnPlan(c) && Working(c, t) && c'.run == WithPhase(c, t, phase) && c.disk.documents <= c'.disk.documents
    requires phase.Persisted? ==> Document(t, phase.fetched.url, phase.fetched.hash) in c'.disk.documents
    requires phase.Done? ==> IsPlanned(c'.disk.documents, t, c.run.value.plan.versions[t], phase.entry)
    ensures WorksOnPlan(c')
  {
    forall u | u in c'.run.value.phases && c'.run.value.phases[u].Done?
      ensures IsPlanned(c'.disk.documents, u, c'.run.value.plan.versions[u], c'.run.value.phases[u].entry)
    {
      if u != t {
        StaysPlanned(c.disk.documents, c'.disk.documents, u, c.run.value.plan.versions[u], c.run.value.phases[u].entry);
      }
    }
  }

  lemma ReusedIsPlanned(c: Config, t: string)
    requires Working(c, t) && Reuses(c, t).Some?
    ensures IsPlanned(c.disk.documents, t, c.run.value.plan.versions[t], Reuses(c, t).value)
  {
  }

  lemma StepWorksOnPlan(up: Upstream, c: Config, c': Config)
    requires WorksOnPlan(c) && Step(up, c, c')
    ensures WorksOnPlan(c')
  {
    hide WorksOnPlan, Reuses, NextCursor, Reconciled;
    if plan :| BeginStep(c, c', plan) {
      AllTodoWorks(c', plan);
    } else if t :| ReuseStep(c, c', t) {
      ReusedIsPlanned(c, t);
      PhaseWorks(c, c', t, Done(Reuses(c, t).value));
    } else if t :| PersistStep(up, c, c', t) {
      PhaseWorks(c, c', t, Persisted(up.fetch(t, c.run.value.plan.versions[t]).value));
    } else if t :| StageStep(c, c', t) {
      PersistedWorks(c, t);
      PhaseWorks(c, c', t, c'.run.value.phases[t]);
    } else {
      SameWorks(c, c');
    }
  }

  lemma AllTodoWorks(c: Config, plan: Plan)
    requires c.run.Some? && c.run.value.plan == plan && c.run.value.phases == AllTodo(plan)
    ensures WorksOnPlan(c)
  {
  }

  lemma PersistedWorks(c: Config, t: string)
    requires WorksOnPlan(c) && Working(c, t) && c.run.value.phases[t].Persisted?
    ensures Document(t, c.run.value.phases[t].fetched.url, c.run.value.phases[t].fetched.hash) in c.disk.documents
  {
  }

  lemma SameWorks(c: Config, c': Config)
    requires WorksOnPlan(c) && c'.disk.documents == c.disk.documents
    requires c'.run.None? || (c.run.Some? && c'.run.value.plan == c.run.value.plan && c'.run.value.phases == c.run.value.phases)
    ensures WorksOnPlan(c')
  {
  }

  lemma CommitKeepsToPlan(c: Config, c': Config)
    requires WorksOnPlan(c) && CommitStep(c, c')
    ensures KeepsToPlan(c')
  {
    hide IsPlanned, NextCursor;
  }

  lemma {:induction false} HistoryWorksOnPlan(history: seq<Config>)
    requires IsHistory(history)
    ensures WorksOnPlan(history[|history| - 1])
  {
    hide WorksOnPlan, Step;
    var n := |history| - 1;
    if n == 0 {
      assert WorksOnPlan(history[0]) by {
        NoRunWorks(history[0]);
      }
    } else {
      HistoryWorksOnPlan(history[..n]);
      assert AnyStep(history[n - 1], history[n]);
      var up :| Step(up, history[n - 1], history[n]);
      StepWorksOnPlan(up, history[n - 1], history[n]);
    }
  }

  lemma NoRunWorks(c: Config)
    requires c.run.None?
    ensures WorksOnPlan(c)
  {
  }

  /** After any history, interrupted or not, whatever was staged: what has just been committed is what was planned. */
  lemma CommitsPlanned(history: seq<Config>)
    requires IsHistory(history)
    ensures KeepsToPlan(history[|history| - 1])
  {
    hide WorksOnPlan, KeepsToPlan, Step;
    var n := |history| - 1;
    if n > 0 {
      HistoryWorksOnPlan(history[..n]);
      assert AnyStep(history[n - 1], history[n]);
      var up :| Step(up, history[n - 1], history[n]);
      CommitOrNot(up, history[n - 1], history[n]);
      if CommitStep(history[n - 1], history[n]) {
        CommitKeepsToPlan(history[n - 1], history[n]);
      }
    } else {
      NothingCommitted(history[0]);
    }
  }

  lemma NothingCommitted(c: Config)
    requires c.run.None? || !c.run.value.committed
    ensures KeepsToPlan(c)
  {
  }

  /** Only a commit step ends in a committed run. */
  lemma CommitOrNot(up: Upstream, c: Config, c': Config)
    requires Step(up, c, c')
    ensures CommitStep(c, c') || KeepsToPlan(c')
  {
    hide Reconciled, Committed, Reused, IsPlan, IsPlanned;
  }

  // ----- one run -----

  datatype FetchError = InvalidPlan | FetchFailed(title: string) | NotRegistered(title: string) | Unresolved

  datatype FetchReport = FetchReport(completed: nat, skipped: nat)

  /** What acquiring one title does: reuse, or fetch, store and stage. */
  ghost predicate IsAcquired(up: Upstream, before: Disk, after: Disk, t: string, v: Version, r: Result<(Entry, bool), FetchError>) {
    var reused := Reused(before.state, before.staging, before.documents, t, v.key);
    var f := up.fetch(t, v);
    if reused.Some? then
      r == Ok((reused.value, true)) && after == before
    else if f.None? then
      r == Err(FetchFailed(t)) && after == before
    else
      var stored := before.(documents := before.documents + {Document(t, f.value.url, f.value.hash)});
      if v.cursor.None? then
        r == Err(NotRegistered(t)) && after == stored
      else
        var e := NewEntry(t, v, f.value, v.cursor.value);
        && r == Ok((e, t in before.state.inventory && before.state.inventory[t] == e))
        && after == stored.(staging := stored.staging[t := e])
  }

  /** The entry is of the planned version, for its title, and its document is stored. */
  predicate IsPlanned(documents: set<Document>, t: string, v: Version, e: Entry) {
    e.key == v.key && e.nativeId == t && Document(t, e.url, e.payloadHash) in documents
  }

  predicate StagedAlike(a: map<string, Entry>, b: map<string, Entry>, t: string) {
    (t in a <==> t in b) && (t in a ==> a[t] == b[t])
  }

  /** Titles done are acquired as expected; nothing done so far touches a title still to do. */
  ghost predicate Progress(up: Upstream, plan: Plan, disk: Disk, now: Disk, todo: set<string>, acquired: map<string, Entry>) {
    && todo <= plan.versions.Keys && acquired.Keys == plan.versions.Keys - todo
    && now.state == disk.state && disk.documents <= now.documents
    && (forall t :: t in todo ==> StagedAlike(disk.staging, now.staging, t))
    && (forall d :: d in now.documents && d !in disk.documents ==> d.nativeId !in todo)
    && forall t :: t in acquired ==>
         Some(acquired[t]) == Expected(up, plan, disk, t) && IsPlanned(now.documents, t, plan.versions[t], acquired[t])
  }

  lemma AcquiredIsPlanned(up: Upstream, before: Disk, after: Disk, t: string, v: Version, r: Result<(Entry, bool), FetchError>)
    requires IsAcquired(up, before, after, t, v, r) && r.Ok?
    ensures IsPlanned(after.documents, t, v, r.value.0) && before.documents <= after.documents
  {
  }

  lemma StaysPlanned(documents: set<Document>, more: set<Document>, t: string, v: Version, e: Entry)
    requires IsPlanned(documents, t, v, e) && documents <= more
    ensures IsPlanned(more, t, v, e)
  {
  }

  lemma ProgressStep(up: Upstream, plan: Plan, disk: Disk, before: Disk, after: Disk, todo: set<string>,
                     acquired: map<string, Entry>, t: string, r: Result<(Entry, bool), FetchError>)
    requires Progress(up, plan, disk, before, todo, acquired) && t in todo
    requires IsAcquired(up, before, after, t, plan.versions[t], r)
    ensures r.Ok? ==> Progress(up, plan, disk, after, todo - {t}, acquired[t := r.value.0])
    ensures after.state == disk.state && (r.Ok? <==> Expected(up, plan, disk, t).Some?)
  {
    hide Expected, Reused, IsPlan, IsPlanned;
    FirstAcquisition(up, plan, disk, before.staging, before.documents, t);
    if r.Ok? {
      AcquiredIsPlanned(up, before, after, t, plan.versions[t], r);
      forall u | u in acquired ensures IsPlanned(after.documents, u, plan.versions[u], acquired[u]) {
        StaysPlanned(before.documents, after.documents, u, plan.versions[u], acquired[u]);
      }
    }
  }

  // ----- what is committed -----

  /** The entry made of the planned version and what is fetched for it. */
  predicate IsMade(up: Upstream, t: string, v: Version, e: Entry) {
    && e.key == v.key && e.nativeId == t && e.registerId == v.registerId
    && v.cursor == Some(e.cursor) && up.fetch(t, v) == Some(Fetched(e.url, e.payloadHash))
  }

  /** The staged entry is of this version and its document is stored. */
  predicate CanResume(disk: Disk, t: string, v: Version) {
    disk.state.schemaVersion == 2 && t in disk.staging && IsPlanned(disk.documents, t, v, disk.staging[t])
  }

  /** No entry of this version is staged, and the committed one is of it and its document is stored. */
  predicate CanStay(disk: Disk, t: string, v: Version) {
    && disk.state.schemaVersion == 2 && !(t in disk.staging && disk.staging[t].key == v.key)
    && t in disk.state.inventory && IsPlanned(disk.documents, t, v, disk.state.inventory[t])
  }

  /** The staged entry, else the committed one, if it can be used; else one made anew. */
  predicate IsRight(up: Upstream, disk: Disk, t: string, v: Version, e: Entry) {
    if CanResume(disk, t, v) then e == disk.staging[t]
    else if CanStay(disk, t, v) then e == disk.state.inventory[t]
    else IsMade(up, t, v, e)
  }

  lemma ExpectedIsRight(up: Upstream, plan: Plan, disk: Disk, t: string, e: Entry)
    requires t in plan.versions
    ensures Expected(up, plan, disk, t) == Some(e) <==> IsRight(up, disk, t, plan.versions[t], e)
  {
  }

  lemma AcquiredIsRight(up: Upstream, before: Disk, t: string, v: Version)
    ensures forall after, r :: IsAcquired(up, before, after, t, v, r) ==>
              && (r.Ok? ==> IsRight(up, before, t, v, r.value.0) && IsPlanned(after.documents, t, v, r.value.0))
              && (r.Err? <==> forall e :: !IsRight(up, before, t, v, e))
  {
    var reused := Reused(before.state, before.staging, before.documents, t, v.key);
    if reused.Some? {
      assert IsRight(up, before, t, v, reused.value);
    } else {
      var f := up.fetch(t, v);
      if f.Some? && v.cursor.Some? {
        assert IsRight(up, before, t, v, NewEntry(t, v, f.value, v.cursor.value));
      }
    }
  }

  /** What one run commits: the right entry of every planned version, all other entries as they were. */
  ghost predicate IsCommitted(up: Upstream, plan: Plan, disk: Disk, state: State) {
    && state.schemaVersion == 2 && state.inventory.Keys == plan.titles
    && (forall t :: t in plan.versions ==> t in state.inventory && IsRight(up, disk, t, plan.versions[t], state.inventory[t]))
    && (forall t :: t in plan.titles && t !in plan.versions ==>
          t in state.inventory && t in disk.state.inventory && state.inventory[t] == disk.state.inventory[t])
    && state.cursor in {disk.state.cursor, plan.proposed}
    && NotBack(disk.state.cursor, state.cursor) && NotBack(plan.proposed, state.cursor)
  }

  /** There are titles, the planned ones among them; each planned one has a right entry and each other one has an entry already. */
  ghost predicate CanComplete(up: Upstream, plan: Plan, disk: Disk) {
    && plan.titles != {} && plan.versions.Keys <= plan.titles
    && (forall t :: t in plan.versions ==> exists e :: IsRight(up, disk, t, plan.versions[t], e))
    && forall t :: t in plan.titles ==> t in plan.versions || t in disk.state.inventory
  }

  /** The titles whose entry was neither staged before nor is the committed one. */
  ghost function Renewed(plan: Plan, disk: Disk, entries: map<string, Entry>): set<string> {
    set t | t in plan.versions && t in entries && !CanResume(disk, t, plan.versions[t])
            && !(t in disk.state.inventory && disk.state.inventory[t] == entries[t])
  }

  lemma RenewedGrows(plan: Plan, disk: Disk, acquired: map<string, Entry>, t: string, e: Entry, skipped: bool)
    requires t in plan.versions && t !in acquired
    requires skipped <==> CanResume(disk, t, plan.versions[t]) || (t in disk.state.inventory && disk.state.inventory[t] == e)
    ensures |Renewed(plan, disk, acquired[t := e])| == |Renewed(plan, disk, acquired)| + if skipped then 0 else 1
  {
    hide CanResume;
    var old', new' := Renewed(plan, disk, acquired), Renewed(plan, disk, acquired[t := e]);
    assert new' == if skipped then old' else old' + {t};
  }

  /** A title is reported as skipped exactly when its entry was staged before or is the committed one. */
  lemma SkippedExactly(up: Upstream, plan: Plan, disk: Disk, before: Disk, after: Disk, t: string,
                       r: Result<(Entry, bool), FetchError>)
    requires t in plan.versions && before.state == disk.state && disk.documents <= before.documents
    requires StagedAlike(disk.staging, before.staging, t)
    requires forall d :: d in before.documents && d !in disk.documents ==> d.nativeId != t
    requires IsAcquired(up, before, after, t, plan.versions[t], r) && r.Ok?
    ensures r.value.1 <==> CanResume(disk, t, plan.versions[t])
                           || (t in disk.state.inventory && disk.state.inventory[t] == r.value.0)
  {
  }

  lemma ProgressSkips(up: Upstream, plan: Plan, disk: Disk, before: Disk, after: Disk, todo: set<string>,
                      acquired: map<string, Entry>, t: string, r: Result<(Entry, bool), FetchError>)
    requires Progress(up, plan, disk, before, todo, acquired) && t in todo
    requires IsAcquired(up, before, after, t, plan.versions[t], r) && r.Ok?
    ensures t in plan.versions && t !in acquired
    ensures r.value.1 <==> CanResume(disk, t, plan.versions[t]) || (t in disk.state.inventory && disk.state.inventory[t] == r.value.0)
  {
    hide IsAcquired, CanResume, Expected, IsPlanned;
    SkippedExactly(up, plan, disk, before, after, t, r);
  }

  lemma CommittedIs(up: Upstream, plan: Plan, disk: Disk, acquired: map<string, Entry>, state: State)
    requires acquired.Keys == plan.versions.Keys && plan.versions.Keys <= plan.titles
    requires forall t :: t in acquired ==> Some(acquired[t]) == Expected(up, plan, disk, t)
    requires state == Committed(disk.state, plan, acquired) && state.inventory.Keys == plan.titles
    ensures IsCommitted(up, plan, disk, state)
    ensures Renewed(plan, disk, acquired) == Renewed(plan, disk, state.inventory)
  {
    hide Expected, NextCursor, NotBack, IsRight;
    NextCursorIsNotBack(disk.state.cursor, plan.proposed);
    forall t | t in plan.versions ensures t in state.inventory && IsRight(up, disk, t, plan.versions[t], state.inventory[t]) {
      ExpectedIsRight(up, plan, disk, t, acquired[t]);
    }
  }

  class Workspace {
    var state: State
    var staging: map<string, Entry>
    var documents: set<Document>

    constructor (disk: Disk)
      ensures OnDisk() == disk
    {
      state, staging, documents := disk.state, disk.staging, disk.documents;
    }

    function OnDisk(): Disk
      reads this
    {
      Disk(state, staging, documents)
    }

    method AcquirePlannedVersion(up: Upstream, t: string, v: Version) returns (r: Result<(Entry, bool), FetchError>)
      modifies this
      ensures IsAcquired(up, old(OnDisk()), OnDisk(), t, v, r)
      ensures r.Ok? ==> IsRight(up, old(OnDisk()), t, v, r.value.0) && IsPlanned(documents, t, v, r.value.0)
      ensures r.Err? <==> forall e :: !IsRight(up, old(OnDisk()), t, v, e)
    {
      AcquiredIsRight(up, OnDisk(), t, v);
      var staged := if t in staging then Some(staging[t]) else None;
      var reusable: Option<Entry> := None;
      if state.schemaVersion == STATE_SCHEMA_VERSION {
        if staged.Some? && staged.value.key == v.key {
          reusable := staged;
        } else if t in state.inventory && state.inventory[t].key == v.key {
          reusable := Some(state.inventory[t]);
        }
      }
      if reusable.Some? && Loadable(documents, t, reusable.value) {
        return Ok((reusable.value, true));
      }
      var f := up.fetch(t, v);
      if f.None? {
        return Err(FetchFailed(t));
      }
      documents := documents + {Document(t, f.value.url, f.value.hash)};
      if v.cursor.None? {
        return Err(NotRegistered(t));
      }
      var next := NewEntry(t, v, f.value, v.cursor.value);
      staging := staging[t := next];
      return Ok((next, t in state.inventory && state.inventory[t] == next));
    }

    /** A run that is not interrupted, with whatever earlier ones left staged. */
    method FetchPlan(up: Upstream, plan: Plan) returns (r: Result<FetchReport, FetchError>)
      modifies this
      ensures r.Ok? ==> state == old(Uninterrupted(up, plan, OnDisk())) && staging == map[]
      ensures r.Ok? ==> state.inventory.Keys == plan.titles && NotBack(old(state).cursor, state.cursor)
      ensures r.Ok? ==> IsCommitted(up, plan, old(OnDisk()), state)
      ensures r.Ok? ==> old(documents) <= documents && forall t :: t in plan.versions ==>
                t in state.inventory && IsPlanned(documents, t, plan.versions[t], state.inventory[t])
      ensures r.Ok? ==> r.value.completed == |Renewed(plan, old(OnDisk()), state.inventory)|
      ensures r.Ok? ==> r.value.completed + r.value.skipped == |plan.versions|
      ensures r.Err? ==> state == old(state)
      ensures r.Ok? <==> old(CanComplete(up, plan, OnDisk()))
    {
      hide IsCommitted, IsPlanned, Renewed, Expected, CanResume, Uninterrupted, NextCursor, NotBack, CanComplete, Progress, IsAcquired, Reconciled;
      ghost var disk := OnDisk();
      if !(plan.versions.Keys <= plan.titles) || plan.titles == {} {
        CompletePlan(up, plan, disk);
        return Err(InvalidPlan);
      }
      var acquired: map<string, Entry> := map[];
      var todo := plan.versions.Keys;
      var completed, skipped := 0, 0;
      ProgressStart(up, plan, disk);
      CompletePlan(up, plan, disk);
      while todo != {}
        invariant Progress(up, plan, disk, OnDisk(), todo, acquired) && state == disk.state
        invariant todo <= plan.versions.Keys && completed + skipped + |todo| == |plan.versions|
        invariant completed == |Renewed(plan, disk, acquired)|
        decreases todo
      {
        var t :| t in todo;
        ghost var before := OnDisk();
        var got := AcquirePlannedVersion(up, t, plan.versions[t]);
        ProgressStep(up, plan, disk, before, OnDisk(), todo, acquired, t, got);
        if got.Ok? {
          ProgressSkips(up, plan, disk, before, OnDisk(), todo, acquired, t, got);
          RenewedGrows(plan, disk, acquired, t, got.value.0, got.value.1);
        }
        if got.Err? {
          return Err(got.error);
        }
        if got.value.1 {
          skipped := skipped + 1;
        } else {
          completed := completed + 1;
        }
        acquired := acquired[t := got.value.0];
        todo := todo - {t};
      }
      var inventory := Reconciled(state, plan.titles, acquired);
      ProgressEnd(up, plan, disk, OnDisk(), acquired);
      if inventory.Keys != plan.titles {
        return Err(Unresolved);
      }
      NextCursorIsNotBack(state.cursor, plan.proposed);
      state := State(STATE_SCHEMA_VERSION, NextCursor(state.cursor, plan.proposed), inventory);
      AllPlanned(up, plan, disk, Disk(disk.state, staging, documents), acquired, state);
      staging := map[];
      return Ok(FetchReport(completed, skipped));
    }
  }

  lemma AllPlanned(up: Upstream, plan: Plan, disk: Disk, now: Disk, acquired: map<string, Entry>, state: State)
    requires Progress(up, plan, disk, now, {}, acquired) && plan.versions.Keys <= plan.titles
    requires state == Committed(disk.state, plan, acquired) && state.inventory.Keys == plan.titles
    ensures IsCommitted(up, plan, disk, state) && disk.documents <= now.documents
    ensures Renewed(plan, disk, acquired) == Renewed(plan, disk, state.inventory)
    ensures forall t :: t in plan.versions ==>
              t in state.inventory && IsPlanned(now.documents, t, plan.versions[t], state.inventory[t])
  {
    hide Expected, NextCursor, IsPlanned, IsCommitted, Renewed;
    CommittedIs(up, plan, disk, acquired, state);
  }

  lemma CompletePlan(up: Upstream, plan: Plan, disk: Disk)
    ensures CanComplete(up, plan, disk) ==> plan.versions.Keys <= plan.titles && plan.titles != {}
    ensures forall t :: t in plan.versions && Expected(up, plan, disk, t).None? ==> !CanComplete(up, plan, disk)
  {
    hide Expected, IsRight;
    forall t | t in plan.versions && Expected(up, plan, disk, t).None?
      ensures !CanComplete(up, plan, disk)
    {
      forall e ensures !IsRight(up, disk, t, plan.versions[t], e) {
        ExpectedIsRight(up, plan, disk, t, e);
      }
    }
  }

  lemma ProgressStart(up: Upstream, plan: Plan, disk: Disk)
    ensures Progress(up, plan, disk, disk, plan.versions.Keys, map[])
    ensures Renewed(plan, disk, map[]) == {}
  {
  }

  lemma ProgressEnd(up: Upstream, plan: Plan, disk: Disk, now: Disk, acquired: map<string, Entry>)
    requires Progress(up, plan, disk, now, {}, acquired)
    ensures Uninterrupted(up, plan, disk) == Committed(disk.state, plan, acquired)
    ensures plan.versions.Keys <= plan.titles && plan.titles != {} ==>
              (CanComplete(up, plan, disk) <==> Reconciled(disk.state, plan.titles, acquired).Keys == plan.titles)
  {
    hide Expected, NextCursor, Fresh, IsRight;
    UninterruptedIs(up, plan, disk, acquired);
    forall t | t in plan.versions ensures exists e :: IsRight(up, disk, t, plan.versions[t], e) {
      ExpectedIsRight(up, plan, disk, t, acquired[t]);
    }
  }

  /** What is staged or stored for other titles does not change what is found for this one. */
  lemma FirstAcquisition(up: Upstream, plan: Plan, disk: Disk, staging: map<string, Entry>, documents: set<Document>, t: string)
    requires t in plan.versions && StagedAlike(disk.staging, staging, t) && disk.documents <= documents
    requires forall d :: d in documents && d !in disk.documents ==> d.nativeId != t
    ensures var reused := Reused(disk.state, staging, documents, t, plan.versions[t].key);
            Expected(up, plan, disk, t) == if reused.Some? then reused else Fresh(up, plan, t)
  {
  }

  lemma UninterruptedIs(up: Upstream, plan: Plan, disk: Disk, acquired: map<string, Entry>)
    requires acquired.Keys == plan.versions.Keys
    requires forall t :: t in acquired ==> Some(acquired[t]) == Expected(up, plan, disk, t)
    ensures Uninterrupted(up, plan, disk) == Committed(disk.state, plan, acquired)
  {
    hide Expected, NextCursor;
    assert acquired == map t | t in plan.versions && Expected(up, plan, disk, t).Some? :: Expected(up, plan, disk, t).value;
  }
}
