/** The life of every namespace over any run: writes, index builds in many batches, retirement,
    deletion, crashes between any two durable batches, and recovery. */
module Lifecycle {
  import opened Wrappers
  import opened Model
  import opened Keys
  import opened Index
  import opened Store
  import opened Engine
  import opened Builder
  import opened Upkeep

  /** What the holder of the index lock is doing, with the locals of its job. */
  datatype Job =
    | Idle
    | Planned(ns: Id, status: Status, entries: seq<Entry>, view: View)
    | Staging(ns: Id, status: Status, entries: seq<Entry>, view: View, done: nat)
    | Closing(ns: Id)
    | Cleaning(ns: Id, active: Status, garbage: seq<GenerationRow>, stale: seq<Id>)
    | Erasing(ns: Id, rest: seq<Key>)

  /** The durable database, the job in progress, and whether requests are served. */
  datatype State = State(db: Store.Database, job: Job, serving: bool)

  datatype Event =
    | Create(ns: Id, schema: Schema)
    | Write(ns: Id, ops: seq<Op>)
    | Plan(ns: Id, status: Status, entries: seq<Entry>)
    | Mark
    | Stage(count: nat)
    | Publish
    | Scan(garbage: seq<GenerationRow>, stale: seq<Id>)
    | Resume(ns: Id)
    | Sweep(count: nat)
    | Retire(count: nat)
    | Unmark
    | Abort
    | Delete(ns: Id, keys: seq<Key>)
    | Recover(ns: Id, keys: seq<Key>)
    | Erase(count: nat)
    | EraseEnd
    | Crash
    | Serve

  /** What makes a stored generation complete for a view under a schema. The machine does not depend on it. */
  type Completeness = (Status, Entries, View, Schema) -> bool

  const INITIAL: State := State(map[], Idle, true)

  /** Keys of the four families that an erase scans. */
  predicate Scanned(space: Space, ns: Id, k: Key) {
    match k
    case DocumentKey(n, id) => n == ns && id in space.docs
    case VectorKey(n, id) => n == ns && id in space.vectors
    case ChangeKey(n, id) => n == ns && id in space.changes
    case GenerationKey(n, g, e) => n == ns && (g, e) in space.generations
    case _ => false
  }

  /** One durable batch of an erase. */
  function Without(space: Space, ns: Id, keys: seq<Key>): Space {
    space.(
      docs := map id | id in space.docs && DocumentKey(ns, id) !in keys :: space.docs[id],
      vectors := map id | id in space.vectors && VectorKey(ns, id) !in keys :: space.vectors[id],
      changes := map id | id in space.changes && ChangeKey(ns, id) !in keys :: space.changes[id],
      generations :=
        map p | p in space.generations && GenerationKey(ns, p.0, p.1) !in keys :: space.generations[p])
  }

  /** What a build makes of a snapshot, under a generation name never used before. */
  ghost predicate BuiltFrom(space: Space, status: Status, entries: seq<Entry>, complete: Completeness)
    requires space.schema.Some?
  {
    && complete(status, AsMap(entries), space.View(), space.schema.value)
    && status.revision == space.StatsOrZero().revision
  }

  ghost predicate Fresh(space: Space, generation: Id) {
    && ValidId(generation)
    && generation != Active(space).generation
    && forall p :: p in space.generations ==> p.0 != generation
  }

  ghost predicate CleanupScan(space: Space, garbage: seq<GenerationRow>, stale: seq<Id>) {
    && (forall p :: p in garbage <==> p in space.generations && p.0 != Active(space).generation)
    && (forall id :: id in stale <==> id in space.changes && space.changes[id] <= Active(space).revision)
  }

  /** When a step can happen. The schema lock is free unless a namespace is being erased; the index
      lock is free when there is no job. */
  ghost predicate Enabled(s: State, e: Event, limits: Limits, complete: Completeness) {
    match e
    case Create(ns, schema) => s.serving && !s.job.Erasing? && ValidId(ns)
    case Write(ns, ops) =>
      && s.serving && !s.job.Erasing? && ValidId(ns) && FromJson(ops)
      && Admissible(At(s.db, ns), ops, limits)
    case Plan(ns, status, entries) =>
      && s.serving && s.job.Idle? && At(s.db, ns).schema.Some?
      && BuiltFrom(At(s.db, ns), status, entries, complete)
      && Fresh(At(s.db, ns), status.generation)
    case Mark => s.job.Planned?
    case Stage(count) => s.job.Staging? && 1 <= count <= |s.job.entries| - s.job.done
    case Publish => s.job.Staging? && s.job.done == |s.job.entries|
    case Resume(ns) => s.serving && s.job.Idle? && At(s.db, ns).cleanup
    case Scan(garbage, stale) => s.job.Closing? && CleanupScan(At(s.db, s.job.ns), garbage, stale)
    case Sweep(count) => s.job.Cleaning? && 1 <= count <= CHUNK && count <= |s.job.garbage|
    case Retire(count) =>
      s.job.Cleaning? && s.job.garbage == [] && 1 <= count <= CHUNK && count <= |s.job.stale|
    case Unmark => s.job.Cleaning? && s.job.garbage == [] && s.job.stale == []
    case Abort => !s.job.Idle? && !s.job.Erasing?
    case Delete(ns, keys) =>
      s.serving && s.job.Idle? && forall k :: k in keys <==> Scanned(At(s.db, ns), ns, k)
    case Recover(ns, keys) =>
      && !s.serving && s.job.Idle? && At(s.db, ns).deletion
      && forall k :: k in keys <==> Scanned(At(s.db, ns), ns, k)
    case Erase(count) => s.job.Erasing? && 1 <= count <= CHUNK && count <= |s.job.rest|
    case EraseEnd => s.job.Erasing? && s.job.rest == []
    case Crash => true
    case Serve => !s.serving && s.job.Idle? && forall ns :: ns in s.db ==> !s.db[ns].deletion
  }

  /** The state with one namespace changed. */
  function Put(s: State, ns: Id, space: Space, job: Job): State {
    State(s.db[ns := space], job, s.serving)
  }

  ghost function After(s: State, e: Event, limits: Limits, complete: Completeness): State
    requires Enabled(s, e, limits, complete)
  {
    match e
    case Create(ns, schema) =>
      var space := At(s.db, ns);
      if space.schema.Some? then s else Put(s, ns, space.(schema := Some(schema)), s.job)
    case Write(ns, ops) => Put(s, ns, Written(At(s.db, ns), ops), s.job)
    case Plan(ns, status, entries) => s.(job := Planned(ns, status, entries, At(s.db, ns).View()))
    case Mark =>
      var j := s.job;
      Put(s, j.ns, At(s.db, j.ns).(cleanup := true), Staging(j.ns, j.status, j.entries, j.view, 0))
    case Stage(count) =>
      var j := s.job;
      Put(s, j.ns,
          Staged(At(s.db, j.ns), j.status.generation, j.entries[j.done..j.done + count]),
          j.(done := j.done + count))
    case Publish => Put(s, s.job.ns, At(s.db, s.job.ns).(index := Some(s.job.status)), Closing(s.job.ns))
    case Resume(ns) => s.(job := Closing(ns))
    case Scan(garbage, stale) =>
      s.(job := Cleaning(s.job.ns, Active(At(s.db, s.job.ns)), garbage, stale))
    case Sweep(count) =>
      Put(s, s.job.ns, Swept(At(s.db, s.job.ns), s.job.garbage[..count]),
          s.job.(garbage := s.job.garbage[count..]))
    case Retire(count) =>
      Put(s, s.job.ns, Retired(At(s.db, s.job.ns), s.job.stale[..count], s.job.active.revision),
          s.job.(stale := s.job.stale[count..]))
    case Unmark => Put(s, s.job.ns, At(s.db, s.job.ns).(cleanup := false), Idle)
    case Abort => s.(job := Idle)
    case Delete(ns, keys) =>
      Put(s, ns, At(s.db, ns).(schema := None, deletion := true), Erasing(ns, keys))
    case Recover(ns, keys) => s.(job := Erasing(ns, keys))
    case Erase(count) =>
      Put(s, s.job.ns, Without(At(s.db, s.job.ns), s.job.ns, s.job.rest[..count]),
          s.job.(rest := s.job.rest[count..]))
    case EraseEnd =>
      Put(s, s.job.ns,
          At(s.db, s.job.ns).(index := None, stats := None, deletion := false, cleanup := false), Idle)
    case Crash => State(s.db, Idle, false)
    case Serve => s.(serving := true)
  }

  /** The states of a run and the events between them, from any state that satisfies the invariant. */
  ghost predicate Run(run: seq<State>, events: seq<Event>, limits: Limits, complete: Completeness) {
    && |run| == |events| + 1
    && Inv(run[0], complete)
    && forall i :: 0 <= i < |events| ==>
         Enabled(run[i], events[i], limits, complete) && run[i + 1] == After(run[i], events[i], limits, complete)
  }

  // ---------------------------------------------------------------------------------------------
  // The invariant

  /** The published generation holds what a build made of the view, and newer changes are on record. */
  ghost predicate Served(space: Space, view: View, complete: Completeness)
    requires space.index.Some? && space.schema.Some?
  {
    var status := space.index.value;
    && complete(status, space.EntriesOf(status.generation), view, space.schema.value)
    && Covered(space, view, status.revision)
  }

  /** A published index is complete, and everything newer than it has a change record. */
  ghost predicate IndexOk(space: Space, complete: Completeness) {
    space.index.Some? ==>
      && space.schema.Some?
      && space.index.value.revision <= space.StatsOrZero().revision
      && exists view :: Served(space, view, complete)
  }

  ghost predicate RowMarked(space: Space, p: GenerationRow) {
    p in space.generations ==> ValidId(p.0) && (p.0 != Active(space).generation ==> space.cleanup)
  }

  ghost predicate RecordMarked(space: Space, id: Id) {
    id in space.changes && space.changes[id] <= Active(space).revision ==> space.cleanup
  }

  /** Leftovers of other generations, and records the index has caught up with, are marked for cleanup. */
  ghost predicate Marked(space: Space) {
    && (space.index.Some? ==> ValidId(space.index.value.generation))
    && (forall p {:trigger RowMarked(space, p)} :: RowMarked(space, p))
    && (forall id {:trigger RecordMarked(space, id)} :: RecordMarked(space, id))
  }

  ghost predicate Settled(space: Space, complete: Completeness) {
    Sound(space) && IndexOk(space, complete) && Marked(space)
  }

  ghost predicate SpaceOk(space: Space, complete: Completeness) {
    if space.deletion then space.schema.None? else Settled(space, complete)
  }

  /** A plan stays right while writes land: they leave change records newer than it. */
  ghost predicate PlanOk(space: Space, status: Status, entries: seq<Entry>, view: View, complete: Completeness) {
    && !space.deletion
    && space.schema.Some?
    && complete(status, AsMap(entries), view, space.schema.value)
    && Covered(space, view, status.revision)
    && status.revision <= space.StatsOrZero().revision
    && ValidId(status.generation)
    && status.generation != Active(space).generation
  }

  /** What the job relies on, in the space it works on. */
  ghost predicate TaskOk(job: Job, space: Space, complete: Completeness)
    requires !job.Idle?
  {
    match job
    case Planned(ns, status, entries, view) =>
      PlanOk(space, status, entries, view, complete) && Fresh(space, status.generation)
    case Staging(ns, status, entries, view, done) =>
      && PlanOk(space, status, entries, view, complete)
      && StagedUpTo(space, status.generation, entries, done)
    case Closing(ns) => !space.deletion && space.schema.Some? && space.cleanup
    case Cleaning(ns, active, garbage, stale) => CleaningOk(space, active, garbage, stale)
    case Erasing(ns, rest) => space.deletion && forall k :: Scanned(space, ns, k) ==> k in rest
  }

  ghost predicate JobOk(s: State, complete: Completeness) {
    s.job.Idle? || TaskOk(s.job, At(s.db, s.job.ns), complete)
  }

  ghost predicate StagedUpTo(space: Space, generation: Id, entries: seq<Entry>, done: nat) {
    done <= |entries| && space.cleanup && Holds(space, generation, AsMap(entries[..done]))
  }

  ghost predicate CleaningOk(space: Space, active: Status, garbage: seq<GenerationRow>, stale: seq<Id>) {
    && !space.deletion
    && space.schema.Some?
    && space.cleanup
    && active == Active(space)
    && (forall p :: p in garbage ==> p.0 != active.generation)
    && (forall p :: p in space.generations && p.0 != active.generation ==> p in garbage)
    && (forall id :: id in space.changes && space.changes[id] <= active.revision ==> id in stale)
  }

  /** Only the job that erases a namespace leaves its deletion marker while requests are served. */
  ghost predicate ModeOk(s: State) {
    && (!s.serving ==> s.job.Idle? || s.job.Erasing?)
    && (s.serving ==> forall ns :: At(s.db, ns).deletion ==> s.job.Erasing? && s.job.ns == ns)
  }

  ghost predicate Inv(s: State, complete: Completeness) {
    && SpacesOk(s, complete)
    && JobOk(s, complete)
    && ModeOk(s)
  }

  // ---------------------------------------------------------------------------------------------
  // One space

  lemma SoundSame(a: Space, b: Space)
    requires Sound(a) && a.schema.Some? && b.schema == a.schema
    requires b.docs == a.docs && b.vectors == a.vectors && b.changes == a.changes && b.stats == a.stats
    ensures Sound(b)
  {}

  lemma PublishedKept(a: Space, b: Space, view: View, complete: Completeness)
    requires a.index.Some? && a.schema.Some? && Served(a, view, complete)
    requires b.schema == a.schema && b.index == a.index
    requires b.EntriesOf(a.index.value.generation) == a.EntriesOf(a.index.value.generation)
    requires Covered(b, view, a.index.value.revision)
    ensures Served(b, view, complete)
  {}

  lemma IndexKept(a: Space, b: Space, complete: Completeness)
    requires IndexOk(a, complete) && b.schema == a.schema && b.index == a.index
    requires a.index.Some? ==>
               && b.EntriesOf(a.index.value.generation) == a.EntriesOf(a.index.value.generation)
               && forall view :: Covered(a, view, a.index.value.revision) ==>
                    Covered(b, view, a.index.value.revision)
    requires a.StatsOrZero().revision <= b.StatsOrZero().revision
    ensures IndexOk(b, complete)
  {
    if a.index.Some? {
      var view :| Served(a, view, complete);
      PublishedKept(a, b, view, complete);
    }
  }

  lemma CoveredSame(a: Space, b: Space, view: View, revision: nat)
    requires Covered(a, view, revision) && b.docs == a.docs && b.vectors == a.vectors
    requires forall id :: ChangedAfter(a, id, revision) ==> ChangedAfter(b, id, revision)
    ensures Covered(b, view, revision)
  {
    assert b.View() == a.View();
  }

  /** The next revision of a space: whatever it changed, it recorded. */
  ghost predicate Advances(a: Space, b: Space) {
    && b.schema == a.schema && b.index == a.index && b.generations == a.generations
    && b.cleanup == a.cleanup && b.deletion == a.deletion
    && b.StatsOrZero().revision == a.StatsOrZero().revision + 1
    && forall id :: ChangedAfter(b, id, a.StatsOrZero().revision) || SameRecord(a, b, id)
  }

  ghost predicate SameRecord(a: Space, b: Space, id: Id) {
    && SameAt(a.View(), b.View(), id)
    && (id in b.changes <==> id in a.changes)
    && (id in b.changes ==> b.changes[id] == a.changes[id])
  }

  lemma AppliedRecords(space: Space, ops: seq<Op>, id: Id, revision: nat)
    requires WellNamed(ops)
    ensures var next := ApplyAll(space, ops, revision);
            (id in next.changes && next.changes[id] == revision) || SameRecord(space, next, id)
  {
    if i :| 0 <= i < |ops| && ops[i].id == id {
      ApplyAllOn(space, ops, revision, i);
    } else {
      ApplyAllElsewhere(space, ops, revision, id);
    }
  }

  lemma WriteAdvances(space: Space, ops: seq<Op>)
    requires WellNamed(ops)
    ensures Advances(space, Written(space, ops))
  {
    var r := space.StatsOrZero().revision + 1;
    var applied, stats := ApplyAll(space, ops, r), StatsOf(Applied(space, ops), r);
    ApplyAllFrame(space, ops, r);
    AdvancesBy(space, applied, stats, r) by {
      forall id ensures (id in applied.changes && applied.changes[id] == r) || SameRecord(space, applied, id) {
        AppliedRecords(space, ops, id, r);
      }
    }
  }

  lemma AdvancesBy(a: Space, applied: Space, stats: Stats, r: nat)
    requires r == a.StatsOrZero().revision + 1 == stats.revision
    requires applied == a.(docs := applied.docs, vectors := applied.vectors, changes := applied.changes)
    requires forall id :: (id in applied.changes && applied.changes[id] == r) || SameRecord(a, applied, id)
    ensures Advances(a, applied.(stats := Some(stats)))
  {
    var b := applied.(stats := Some(stats));
    assert b.View() == applied.View();
    forall id ensures ChangedAfter(b, id, r - 1) || SameRecord(a, b, id) {
      assert (id in applied.changes && applied.changes[id] == r) || SameRecord(a, applied, id);
    }
  }

  /** What was covered before is covered after. */
  lemma AdvanceCovers(a: Space, b: Space, view: View, revision: nat)
    requires Advances(a, b) && Covered(a, view, revision) && revision <= a.StatsOrZero().revision
    ensures Covered(b, view, revision)
  {
    forall id | !ChangedAfter(b, id, revision) ensures SameAt(b.View(), view, id) {
      assert SameRecord(a, b, id);
      assert SameAt(a.View(), view, id);
    }
  }

  lemma AdvanceKeepsIndex(a: Space, b: Space, complete: Completeness)
    requires IndexOk(a, complete) && Advances(a, b)
    ensures IndexOk(b, complete)
  {
    if a.index.Some? {
      var view :| Served(a, view, complete);
      AdvanceCovers(a, b, view, a.index.value.revision);
      assert Served(b, view, complete);
    }
  }

  lemma WriteSettles(space: Space, ops: seq<Op>, limits: Limits, complete: Completeness)
    requires Settled(space, complete) && Admissible(space, ops, limits) && FromJson(ops)
    ensures Settled(Written(space, ops), complete)
  {
    var next := Written(space, ops);
    WriteKeepsSound(space, ops, limits);
    WriteAdvances(space, ops);
    AdvanceKeepsIndex(space, next, complete);
    AdvanceKeepsMarks(space, next);
  }

  lemma AdvanceKeepsMarks(a: Space, b: Space)
    requires Marked(a) && Advances(a, b) && Active(a).revision <= a.StatsOrZero().revision
    ensures Marked(b)
  {
    forall p ensures RowMarked(b, p) { assert RowMarked(a, p); }
    forall id ensures RecordMarked(b, id) {
      assert RecordMarked(a, id);
      assert ChangedAfter(b, id, a.StatsOrZero().revision) || SameRecord(a, b, id);
    }
  }

  /** While the cleanup marker is there, anything may be left over. */
  lemma MarkedAnyway(a: Space, b: Space)
    requires Marked(a) && b.cleanup && (b.index.Some? ==> ValidId(b.index.value.generation))
    requires forall p :: p in b.generations ==> p in a.generations || ValidId(p.0)
    ensures Marked(b)
  {
    forall p ensures RowMarked(b, p) { assert RowMarked(a, p); }
    forall id ensures RecordMarked(b, id) {}
  }

  lemma MarkedNoMore(a: Space, b: Space)
    requires Marked(a) && b == a.(cleanup := false)
    requires forall p :: p in a.generations ==> p.0 == Active(a).generation
    requires forall id :: id in a.changes ==> a.changes[id] > Active(a).revision
    ensures Marked(b)
  {
    forall p ensures RowMarked(b, p) { assert RowMarked(a, p); }
    forall id ensures RecordMarked(b, id) {}
  }

  lemma CreateSettles(space: Space, schema: Schema, complete: Completeness)
    requires Settled(space, complete) && space.schema.None?
    ensures Settled(space.(schema := Some(schema)), complete)
  {}

  lemma MarkSettles(space: Space, cleanup: bool, complete: Completeness)
    requires Settled(space, complete) && space.schema.Some? && Marked(space.(cleanup := cleanup))
    ensures Settled(space.(cleanup := cleanup), complete)
  {
    var next := space.(cleanup := cleanup);
    SoundSame(space, next);
    assert next.View() == space.View();
    IndexKept(space, next, complete);
  }

  lemma StagedElsewhere(space: Space, generation: Id, batch: seq<Entry>, other: Id)
    requires other != generation
    ensures Staged(space, generation, batch).EntriesOf(other) == space.EntriesOf(other)
  {
    var after, before := Staged(space, generation, batch).EntriesOf(other), space.EntriesOf(other);
    forall k ensures k in after <==> k in before ensures k in after ==> after[k] == before[k] {
      PutAllLook(space.generations, generation, batch, (other, k));
      EntryOf(space, other, k);
      EntryOf(Staged(space, generation, batch), other, k);
    }
  }

  lemma StagedKeys(space: Space, generation: Id, batch: seq<Entry>, p: GenerationRow)
    requires p in Staged(space, generation, batch).generations
    ensures p in space.generations || p.0 == generation
  {
    PutAllLook(space.generations, generation, batch, p);
  }

  lemma StageSettles(space: Space, generation: Id, batch: seq<Entry>, complete: Completeness)
    requires Settled(space, complete) && space.schema.Some? && space.cleanup
    requires ValidId(generation) && generation != Active(space).generation
    ensures Settled(Staged(space, generation, batch), complete)
  {
    var next := Staged(space, generation, batch);
    assert Sound(next) by { SoundSame(space, next); }
    assert IndexOk(next, complete) by {
      assert next.View() == space.View();
      if space.index.Some? { StagedElsewhere(space, generation, batch, space.index.value.generation); }
      IndexKept(space, next, complete);
    }
    assert Marked(next) by {
      forall p | p in next.generations ensures p in space.generations || ValidId(p.0) {
        StagedKeys(space, generation, batch, p);
      }
      MarkedAnyway(space, next);
    }
  }

  lemma PublishSettles(space: Space, status: Status, entries: seq<Entry>, view: View, complete: Completeness)
    requires Settled(space, complete) && PlanOk(space, status, entries, view, complete) && space.cleanup
    requires Holds(space, status.generation, AsMap(entries))
    ensures Settled(space.(index := Some(status)), complete)
  {
    var next := space.(index := Some(status));
    assert Sound(next) by { SoundSame(space, next); }
    PublishIndex(space, status, entries, view, complete);
    assert Marked(next) by { MarkedAnyway(space, next); }
  }

  lemma PublishIndex(space: Space, status: Status, entries: seq<Entry>, view: View, complete: Completeness)
    requires PlanOk(space, status, entries, view, complete)
    requires Holds(space, status.generation, AsMap(entries))
    ensures IndexOk(space.(index := Some(status)), complete)
  {
    var next := space.(index := Some(status));
    HoldsEntries(next, status.generation, AsMap(entries));
    CoveredSame(space, next, view, status.revision);
    assert Served(next, view, complete);
  }

  lemma SweptEntries(space: Space, rows: seq<GenerationRow>, generation: Id)
    requires forall p :: p in rows ==> p.0 != generation
    ensures Swept(space, rows).EntriesOf(generation) == space.EntriesOf(generation)
  {}

  lemma SweepSettles(space: Space, rows: seq<GenerationRow>, complete: Completeness)
    requires Settled(space, complete) && space.schema.Some? && space.cleanup
    requires forall p :: p in rows ==> p.0 != Active(space).generation
    ensures Settled(Swept(space, rows), complete)
  {
    var next := Swept(space, rows);
    assert Sound(next) by { SoundSame(space, next); }
    assert IndexOk(next, complete) by {
      assert next.View() == space.View();
      SweptEntries(space, rows, Active(space).generation);
      IndexKept(space, next, complete);
    }
    assert Marked(next) by { MarkedAnyway(space, next); }
  }

  lemma RetireSound(space: Space, ids: seq<Id>)
    requires Sound(space) && space.schema.Some?
    ensures Sound(Retired(space, ids, Active(space).revision))
  {
    OutdatedCounted(space.changes, ids, Active(space).revision);
  }

  lemma RetireIndex(space: Space, ids: seq<Id>, complete: Completeness)
    requires IndexOk(space, complete)
    ensures IndexOk(Retired(space, ids, Active(space).revision), complete)
  {
    var next := Retired(space, ids, Active(space).revision);
    if space.index.Some? {
      var view :| Served(space, view, complete);
      CoveredSame(space, next, view, space.index.value.revision);
      PublishedKept(space, next, view, complete);
    }
  }

  lemma RetireSettles(space: Space, ids: seq<Id>, complete: Completeness)
    requires Settled(space, complete) && space.schema.Some? && space.cleanup
    ensures Settled(Retired(space, ids, Active(space).revision), complete)
  {
    RetireSound(space, ids);
    RetireIndex(space, ids, complete);
    MarkedAnyway(space, Retired(space, ids, Active(space).revision));
  }

  // ---------------------------------------------------------------------------------------------
  // The job in progress

  lemma AdvanceKeepsTask(job: Job, a: Space, b: Space, complete: Completeness)
    requires !job.Idle? && !job.Erasing? && TaskOk(job, a, complete)
    requires Advances(a, b) && Active(a).revision <= a.StatsOrZero().revision
    ensures TaskOk(job, b, complete)
  {
    if job.Planned? || job.Staging? { AdvanceCovers(a, b, job.view, job.status.revision); }
    if job.Cleaning? {
      forall id | id in b.changes && b.changes[id] <= job.active.revision ensures id in job.stale {
        assert SameRecord(a, b, id);
      }
    }
  }

  lemma PlanStarts(space: Space, ns: Id, status: Status, entries: seq<Entry>, complete: Completeness)
    requires Settled(space, complete) && space.schema.Some? && !space.deletion
    requires BuiltFrom(space, status, entries, complete) && Fresh(space, status.generation)
    ensures TaskOk(Planned(ns, status, entries, space.View()), space, complete)
  {}

  lemma MarkKeepsPlan(space: Space, status: Status, entries: seq<Entry>, view: View, complete: Completeness)
    requires PlanOk(space, status, entries, view, complete) && Fresh(space, status.generation)
    ensures PlanOk(space.(cleanup := true), status, entries, view, complete)
    ensures StagedUpTo(space.(cleanup := true), status.generation, entries, 0)
  {
    CoveredSame(space, space.(cleanup := true), view, status.revision);
  }

  lemma StagesMore(space: Space, generation: Id, entries: seq<Entry>, done: nat, count: nat)
    requires StagedUpTo(space, generation, entries, done) && done + count <= |entries|
    ensures StagedUpTo(Staged(space, generation, entries[done..done + count]), generation, entries, done + count)
  {
    var batch := entries[done..done + count];
    assert entries[..done + count] == entries[..done] + batch;
    AsMapConcat(entries[..done], batch);
    StagedHere(space, generation, AsMap(entries[..done]), batch);
  }

  lemma StageKeepsPlan(
    space: Space, batch: seq<Entry>, status: Status, entries: seq<Entry>, view: View, complete: Completeness)
    requires PlanOk(space, status, entries, view, complete)
    ensures PlanOk(Staged(space, status.generation, batch), status, entries, view, complete)
  {
    CoveredSame(space, Staged(space, status.generation, batch), view, status.revision);
  }

  lemma SweepKeepsTask(space: Space, job: Job, count: nat, complete: Completeness)
    requires job.Cleaning? && TaskOk(job, space, complete) && count <= |job.garbage|
    ensures TaskOk(job.(garbage := job.garbage[count..]), Swept(space, job.garbage[..count]), complete)
  {
    assert job.garbage == job.garbage[..count] + job.garbage[count..];
  }

  lemma RetireKeepsTask(space: Space, job: Job, count: nat, complete: Completeness)
    requires job.Cleaning? && TaskOk(job, space, complete) && count <= |job.stale|
    ensures TaskOk(job.(stale := job.stale[count..]), Retired(space, job.stale[..count], job.active.revision), complete)
  {
    assert job.stale == job.stale[..count] + job.stale[count..];
  }

  lemma EraseKeepsTask(space: Space, job: Job, count: nat, complete: Completeness)
    requires job.Erasing? && TaskOk(job, space, complete) && count <= |job.rest|
    ensures TaskOk(job.(rest := job.rest[count..]), Without(space, job.ns, job.rest[..count]), complete)
  {
    assert job.rest == job.rest[..count] + job.rest[count..];
    var next := Without(space, job.ns, job.rest[..count]);
    forall k | Scanned(next, job.ns, k) ensures k in job.rest[count..] {
      assert Scanned(space, job.ns, k) && k !in job.rest[..count];
    }
  }

  /** When nothing is left to scan, the last batch leaves an empty space. */
  lemma EraseFinishes(space: Space, ns: Id)
    requires space.schema.None? && forall k :: !Scanned(space, ns, k)
    ensures space.(index := None, stats := None, deletion := false, cleanup := false) == EMPTY
  {
    assert forall id :: id in space.docs ==> Scanned(space, ns, DocumentKey(ns, id));
    assert forall id :: id in space.vectors ==> Scanned(space, ns, VectorKey(ns, id));
    assert forall id :: id in space.changes ==> Scanned(space, ns, ChangeKey(ns, id));
    assert forall p :: p in space.generations ==> Scanned(space, ns, GenerationKey(ns, p.0, p.1));
    assert space.docs == map[] && space.vectors == map[] && space.changes == map[] && space.generations == map[];
  }

  // ---------------------------------------------------------------------------------------------
  // One step

  ghost predicate SpacesOk(s: State, complete: Completeness) {
    forall ns {:trigger SpaceOk(At(s.db, ns), complete)} :: SpaceOk(At(s.db, ns), complete)
  }

  /** A step that changes one namespace, and leaves the job its facts. */
  lemma PutKeeps(s: State, ns: Id, space: Space, job: Job, complete: Completeness)
    requires SpacesOk(s, complete) && ModeOk(s) && SpaceOk(space, complete)
    requires JobOk(Put(s, ns, space, job), complete)
    requires s.serving && space.deletion ==> job.Erasing? && job.ns == ns
    requires s.job.Erasing? ==> s.job.ns == ns
    requires !s.serving ==> job.Idle? || job.Erasing?
    ensures Inv(Put(s, ns, space, job), complete)
  {
    var t := Put(s, ns, space, job);
    assert SpacesOk(t, complete) by { PutSpaces(s, ns, space, job, complete); }
    assert ModeOk(t) by { PutMode(s, ns, space, job); }
  }

  /** The same when the job works on that namespace. */
  lemma TaskPutKeeps(s: State, ns: Id, space: Space, job: Job, complete: Completeness)
    requires SpacesOk(s, complete) && ModeOk(s) && SpaceOk(space, complete)
    requires !job.Idle? && job.ns == ns && TaskOk(job, space, complete)
    requires s.serving && space.deletion ==> job.Erasing?
    requires s.job.Erasing? ==> s.job.ns == ns
    requires !s.serving ==> job.Erasing?
    ensures Inv(Put(s, ns, space, job), complete)
  {
    var t := Put(s, ns, space, job);
    assert SpacesOk(t, complete) by { PutSpaces(s, ns, space, job, complete); }
    assert ModeOk(t) by { PutMode(s, ns, space, job); }
    assert At(t.db, job.ns) == space;
  }

  lemma PutSpaces(s: State, ns: Id, space: Space, job: Job, complete: Completeness)
    requires SpacesOk(s, complete) && SpaceOk(space, complete)
    ensures SpacesOk(Put(s, ns, space, job), complete)
  {
    var t := Put(s, ns, space, job);
    forall m ensures SpaceOk(At(t.db, m), complete) {
      assert SpaceOk(At(s.db, m), complete);
      assert At(t.db, m) == if m == ns then space else At(s.db, m);
    }
  }

  lemma PutMode(s: State, ns: Id, space: Space, job: Job)
    requires ModeOk(s)
    requires s.serving && space.deletion ==> job.Erasing? && job.ns == ns
    requires s.job.Erasing? ==> s.job.ns == ns
    requires !s.serving ==> job.Idle? || job.Erasing?
    ensures ModeOk(Put(s, ns, space, job))
  {
    var t := Put(s, ns, space, job);
    forall m | t.serving && At(t.db, m).deletion ensures job.Erasing? && job.ns == m {
      assert At(t.db, m) == if m == ns then space else At(s.db, m);
    }
  }

  lemma CreateKeeps(s: State, ns: Id, schema: Schema, complete: Completeness)
    requires Inv(s, complete) && s.serving && !s.job.Erasing? && At(s.db, ns).schema.None?
    ensures Inv(Put(s, ns, At(s.db, ns).(schema := Some(schema)), s.job), complete)
  {
    var space := At(s.db, ns);
    assert SpaceOk(space, complete);
    assert SpaceOk(space.(schema := Some(schema)), complete) by { CreateSettles(space, schema, complete); }
    PutKeeps(s, ns, space.(schema := Some(schema)), s.job, complete);
  }

  lemma WriteKeeps(s: State, ns: Id, ops: seq<Op>, limits: Limits, complete: Completeness)
    requires Inv(s, complete) && s.serving && !s.job.Erasing?
    requires Admissible(At(s.db, ns), ops, limits) && FromJson(ops)
    ensures Inv(Put(s, ns, Written(At(s.db, ns), ops), s.job), complete)
  {
    var space := At(s.db, ns);
    assert SpaceOk(space, complete) && !space.deletion;
    WriteAdvances(space, ops);
    WriteSettles(space, ops, limits, complete);
    AdvanceKeeps(s, ns, Written(space, ops), complete);
  }

  lemma AdvanceKeeps(s: State, ns: Id, next: Space, complete: Completeness)
    requires Inv(s, complete) && s.serving && !s.job.Erasing?
    requires Settled(At(s.db, ns), complete) && Settled(next, complete)
    requires !next.deletion && Advances(At(s.db, ns), next)
    ensures Inv(Put(s, ns, next, s.job), complete)
  {
    if !s.job.Idle? && s.job.ns == ns { AdvanceKeepsTask(s.job, At(s.db, ns), next, complete); }
    PutKeeps(s, ns, next, s.job, complete);
  }

  lemma PlanKeeps(s: State, ns: Id, status: Status, entries: seq<Entry>, complete: Completeness)
    requires Inv(s, complete) && s.serving && s.job.Idle? && At(s.db, ns).schema.Some?
    requires BuiltFrom(At(s.db, ns), status, entries, complete) && Fresh(At(s.db, ns), status.generation)
    ensures Inv(s.(job := Planned(ns, status, entries, At(s.db, ns).View())), complete)
  {
    assert SpaceOk(At(s.db, ns), complete);
    PlanStarts(At(s.db, ns), ns, status, entries, complete);
  }

  lemma MarkKeeps(s: State, complete: Completeness)
    requires Inv(s, complete) && s.job.Planned?
    ensures var j := s.job;
            Inv(Put(s, j.ns, At(s.db, j.ns).(cleanup := true),
                    Staging(j.ns, j.status, j.entries, j.view, 0)), complete)
  {
    var j := s.job;
    var space := At(s.db, j.ns);
    assert SpaceOk(space, complete);
    MarkedAnyway(space, space.(cleanup := true));
    MarkSettles(space, true, complete);
    MarkKeepsPlan(space, j.status, j.entries, j.view, complete);
    TaskPutKeeps(s, j.ns, space.(cleanup := true), Staging(j.ns, j.status, j.entries, j.view, 0), complete);
  }

  lemma StageKeeps(s: State, count: nat, batch: seq<Entry>, complete: Completeness)
    requires Inv(s, complete) && s.job.Staging? && count <= |s.job.entries| - s.job.done
    requires batch == s.job.entries[s.job.done..s.job.done + count]
    ensures Inv(Put(s, s.job.ns, Staged(At(s.db, s.job.ns), s.job.status.generation, batch),
                    s.job.(done := s.job.done + count)), complete)
  {
    var space, next := At(s.db, s.job.ns), Staged(At(s.db, s.job.ns), s.job.status.generation, batch);
    assert SpaceOk(space, complete);
    StageKeepsSpace(space, s.job, batch, complete);
    StageKeepsTask(space, s.job, count, batch, complete);
    StagePut(s, next, s.job.(done := s.job.done + count), complete);
  }

  lemma StageKeepsSpace(space: Space, j: Job, batch: seq<Entry>, complete: Completeness)
    requires j.Staging? && TaskOk(j, space, complete) && SpaceOk(space, complete)
    ensures SpaceOk(Staged(space, j.status.generation, batch), complete)
  {
    StageSettles(space, j.status.generation, batch, complete);
  }

  lemma StagePut(s: State, next: Space, job: Job, complete: Completeness)
    requires SpacesOk(s, complete) && ModeOk(s) && s.job.Staging? && SpaceOk(next, complete)
    requires job.Staging? && job.ns == s.job.ns && TaskOk(job, next, complete)
    ensures Inv(Put(s, s.job.ns, next, job), complete)
  {
    TaskPutKeeps(s, s.job.ns, next, job, complete);
  }

  lemma StageKeepsTask(space: Space, j: Job, count: nat, batch: seq<Entry>, complete: Completeness)
    requires j.Staging? && TaskOk(j, space, complete) && count <= |j.entries| - j.done
    requires batch == j.entries[j.done..j.done + count]
    ensures TaskOk(j.(done := j.done + count), Staged(space, j.status.generation, batch), complete)
  {
    StageKeepsPlan(space, batch, j.status, j.entries, j.view, complete);
    StagesMore(space, j.status.generation, j.entries, j.done, count);
    StagingOk(Staged(space, j.status.generation, batch), j, j.done + count, complete);
  }

  lemma StagingOk(space: Space, j: Job, done: nat, complete: Completeness)
    requires j.Staging? && PlanOk(space, j.status, j.entries, j.view, complete)
    requires StagedUpTo(space, j.status.generation, j.entries, done)
    ensures TaskOk(j.(done := done), space, complete)
  {}

  lemma PublishKeeps(s: State, complete: Completeness)
    requires Inv(s, complete) && s.job.Staging? && s.job.done == |s.job.entries|
    ensures Inv(Put(s, s.job.ns, At(s.db, s.job.ns).(index := Some(s.job.status)), Closing(s.job.ns)), complete)
  {
    var j := s.job;
    var space := At(s.db, j.ns);
    assert SpaceOk(space, complete);
    assert j.entries[..j.done] == j.entries;
    PublishSettles(space, j.status, j.entries, j.view, complete);
    TaskPutKeeps(s, j.ns, space.(index := Some(j.status)), Closing(j.ns), complete);
  }

  lemma ResumeKeeps(s: State, ns: Id, complete: Completeness)
    requires Inv(s, complete) && s.serving && s.job.Idle? && At(s.db, ns).cleanup
    ensures Inv(s.(job := Closing(ns)), complete)
  {
    assert SpaceOk(At(s.db, ns), complete);
  }

  lemma ScanKeeps(s: State, garbage: seq<GenerationRow>, stale: seq<Id>, complete: Completeness)
    requires Inv(s, complete) && s.job.Closing? && CleanupScan(At(s.db, s.job.ns), garbage, stale)
    ensures Inv(s.(job := Cleaning(s.job.ns, Active(At(s.db, s.job.ns)), garbage, stale)), complete)
  {}

  lemma SweepKeeps(s: State, count: nat, complete: Completeness)
    requires Inv(s, complete) && s.job.Cleaning? && count <= |s.job.garbage|
    ensures Inv(Put(s, s.job.ns, Swept(At(s.db, s.job.ns), s.job.garbage[..count]),
                    s.job.(garbage := s.job.garbage[count..])), complete)
  {
    var j := s.job;
    var space := At(s.db, j.ns);
    assert SpaceOk(space, complete);
    SweepSettles(space, j.garbage[..count], complete);
    SweepKeepsTask(space, j, count, complete);
    TaskPutKeeps(s, j.ns, Swept(space, j.garbage[..count]), j.(garbage := j.garbage[count..]), complete);
  }

  lemma RetireKeeps(s: State, count: nat, complete: Completeness)
    requires Inv(s, complete) && s.job.Cleaning? && count <= |s.job.stale|
    ensures Inv(Put(s, s.job.ns, Retired(At(s.db, s.job.ns), s.job.stale[..count], s.job.active.revision),
                    s.job.(stale := s.job.stale[count..])), complete)
  {
    var j := s.job;
    var space := At(s.db, j.ns);
    assert SpaceOk(space, complete);
    RetireSettles(space, j.stale[..count], complete);
    RetireKeepsTask(space, j, count, complete);
    TaskPutKeeps(s, j.ns, Retired(space, j.stale[..count], j.active.revision), j.(stale := j.stale[count..]), complete);
  }

  lemma UnmarkKeeps(s: State, complete: Completeness)
    requires Inv(s, complete) && s.job.Cleaning? && s.job.garbage == [] && s.job.stale == []
    ensures Inv(Put(s, s.job.ns, At(s.db, s.job.ns).(cleanup := false), Idle), complete)
  {
    var space := At(s.db, s.job.ns);
    assert SpaceOk(space, complete);
    MarkedNoMore(space, space.(cleanup := false));
    MarkSettles(space, false, complete);
    PutKeeps(s, s.job.ns, space.(cleanup := false), Idle, complete);
  }

  lemma DeleteKeeps(s: State, ns: Id, keys: seq<Key>, complete: Completeness)
    requires Inv(s, complete) && s.serving && s.job.Idle?
    requires forall k :: k in keys <==> Scanned(At(s.db, ns), ns, k)
    ensures Inv(Put(s, ns, At(s.db, ns).(schema := None, deletion := true), Erasing(ns, keys)), complete)
  {
    TaskPutKeeps(s, ns, At(s.db, ns).(schema := None, deletion := true), Erasing(ns, keys), complete);
  }

  lemma EraseKeeps(s: State, count: nat, complete: Completeness)
    requires Inv(s, complete) && s.job.Erasing? && count <= |s.job.rest|
    ensures Inv(Put(s, s.job.ns, Without(At(s.db, s.job.ns), s.job.ns, s.job.rest[..count]),
                    s.job.(rest := s.job.rest[count..])), complete)
  {
    var j := s.job;
    var space := At(s.db, j.ns);
    assert SpaceOk(space, complete);
    EraseKeepsTask(space, j, count, complete);
    TaskPutKeeps(s, j.ns, Without(space, j.ns, j.rest[..count]), j.(rest := j.rest[count..]), complete);
  }

  lemma EraseEndKeeps(s: State, complete: Completeness)
    requires Inv(s, complete) && s.job.Erasing? && s.job.rest == []
    ensures At(s.db, s.job.ns).(index := None, stats := None, deletion := false, cleanup := false) == EMPTY
    ensures Inv(Put(s, s.job.ns, EMPTY, Idle), complete)
  {
    assert SpaceOk(At(s.db, s.job.ns), complete);
    EraseFinishes(At(s.db, s.job.ns), s.job.ns);
    PutKeeps(s, s.job.ns, EMPTY, Idle, complete);
  }

  lemma RequestKeeps(s: State, e: Event, limits: Limits, complete: Completeness)
    requires Inv(s, complete) && Enabled(s, e, limits, complete) && (e.Create? || e.Write? || e.Plan?)
    ensures Inv(After(s, e, limits, complete), complete)
  {
    match e {
      case Create(ns, schema) => if At(s.db, ns).schema.None? { CreateKeeps(s, ns, schema, complete); }
      case Write(ns, ops) => WriteKeeps(s, ns, ops, limits, complete);
      case Plan(ns, status, entries) => PlanKeeps(s, ns, status, entries, complete);
    }
  }

  lemma StageStep(s: State, count: nat, limits: Limits, complete: Completeness)
    requires Inv(s, complete) && Enabled(s, Stage(count), limits, complete)
    ensures Inv(After(s, Stage(count), limits, complete), complete)
  {
    var batch := s.job.entries[s.job.done..s.job.done + count];
    StageKeeps(s, count, batch, complete);
    assert After(s, Stage(count), limits, complete) ==
           Put(s, s.job.ns, Staged(At(s.db, s.job.ns), s.job.status.generation, batch),
               s.job.(done := s.job.done + count));
  }

  lemma MarkStep(s: State, limits: Limits, complete: Completeness)
    requires Inv(s, complete) && Enabled(s, Mark, limits, complete)
    ensures Inv(After(s, Mark, limits, complete), complete)
  {
    MarkKeeps(s, complete);
  }

  lemma PublishStep(s: State, limits: Limits, complete: Completeness)
    requires Inv(s, complete) && Enabled(s, Publish, limits, complete)
    ensures Inv(After(s, Publish, limits, complete), complete)
  {
    PublishKeeps(s, complete);
  }

  lemma BuildKeeps(s: State, e: Event, limits: Limits, complete: Completeness)
    requires Inv(s, complete) && Enabled(s, e, limits, complete) && (e.Mark? || e.Stage? || e.Publish?)
    ensures Inv(After(s, e, limits, complete), complete)
  {
    match e {
      case Mark => MarkStep(s, limits, complete);
      case Stage(count) => StageStep(s, count, limits, complete);
      case Publish => PublishStep(s, limits, complete);
    }
  }

  lemma CleanupKeeps(s: State, e: Event, limits: Limits, complete: Completeness)
    requires Inv(s, complete) && Enabled(s, e, limits, complete)
    requires e.Resume? || e.Scan? || e.Sweep? || e.Retire? || e.Unmark?
    ensures Inv(After(s, e, limits, complete), complete)
  {
    match e {
      case Resume(ns) => ResumeKeeps(s, ns, complete);
      case Scan(garbage, stale) => ScanKeeps(s, garbage, stale, complete);
      case Sweep(count) => SweepKeeps(s, count, complete);
      case Retire(count) => RetireKeeps(s, count, complete);
      case Unmark => UnmarkKeeps(s, complete);
    }
  }

  lemma DeletionKeeps(s: State, e: Event, limits: Limits, complete: Completeness)
    requires Inv(s, complete) && Enabled(s, e, limits, complete)
    requires e.Delete? || e.Recover? || e.Erase? || e.EraseEnd?
    ensures Inv(After(s, e, limits, complete), complete)
  {
    match e {
      case Delete(ns, keys) => DeleteKeeps(s, ns, keys, complete);
      case Recover(ns, keys) =>
      case Erase(count) => EraseKeeps(s, count, complete);
      case EraseEnd => EraseEndKeeps(s, complete);
    }
  }

  lemma ServiceKeeps(s: State, e: Event, limits: Limits, complete: Completeness)
    requires Inv(s, complete) && Enabled(s, e, limits, complete) && (e.Abort? || e.Crash? || e.Serve?)
    ensures Inv(After(s, e, limits, complete), complete)
  {}

  /** Every step keeps the invariant. */
  lemma StepKeeps(s: State, e: Event, limits: Limits, complete: Completeness)
    requires Inv(s, complete) && Enabled(s, e, limits, complete)
    ensures Inv(After(s, e, limits, complete), complete)
  {
    if e.Create? || e.Write? || e.Plan? {
      RequestKeeps(s, e, limits, complete);
    } else if e.Mark? || e.Stage? || e.Publish? {
      BuildKeeps(s, e, limits, complete);
    } else if e.Abort? || e.Crash? || e.Serve? {
      ServiceKeeps(s, e, limits, complete);
    } else if e.Delete? || e.Recover? || e.Erase? || e.EraseEnd? {
      DeletionKeeps(s, e, limits, complete);
    } else {
      CleanupKeeps(s, e, limits, complete);
    }
  }

  lemma EmptySettled(complete: Completeness)
    ensures SpaceOk(EMPTY, complete)
  {
    assert DocSizes(map[]) == map[] && VectorSizes(map[]) == map[];
  }

  /** Runs can start from the empty database. */
  lemma StartsEmpty(complete: Completeness)
    ensures Inv(INITIAL, complete)
  {
    EmptySettled(complete);
  }

  /** Every state of every run satisfies the invariant. */
  lemma {:induction false} RunKeeps(
    run: seq<State>, events: seq<Event>, limits: Limits, complete: Completeness, i: nat)
    requires Run(run, events, limits, complete) && i < |run|
    ensures Inv(run[i], complete)
  {
    if i > 0 {
      RunKeeps(run, events, limits, complete, i - 1);
      StepKeeps(run[i - 1], events[i - 1], limits, complete);
    }
  }
}
