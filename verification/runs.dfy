/** What holds on every run: counters, queries, change records, deletion and recovery. */
module Runs {
  import opened Order
  import opened Wrappers
  import opened Model
  import opened Keys
  import opened Index
  import opened Store
  import opened Engine
  import opened Builder
  import opened Upkeep
  import opened Lifecycle
  import Migration
  import Search
  import TextSearch

  /** Completeness as the queries need it. */
  ghost function CompleteFor(u: Unicode): Completeness {
    (s: Status, m: Entries, v: View, schema: Schema) => Faithful(s, m, v, u, schema)
  }

  /** A namespace that requests can see. */
  predicate Live(s: State, ns: Id) {
    s.serving && !s.job.Erasing? && At(s.db, ns).schema.Some?
  }

  /** Every snapshot that a query can pin, in any state of any run, is fit for queries. */
  lemma SnapshotsQueryable(
    run: seq<State>, events: seq<Event>, limits: Limits, u: Unicode, i: nat, ns: Id)
    requires Run(run, events, limits, CompleteFor(u)) && i < |run| && Live(run[i], ns)
    ensures Queryable(At(run[i].db, ns), u)
  {
    RunKeeps(run, events, limits, CompleteFor(u), i);
    var space := At(run[i].db, ns);
    assert SpaceOk(space, CompleteFor(u)) && !space.deletion;
    SoundViewValid(space);
    if space.index.Some? {
      var view :| Served(space, view, CompleteFor(u));
      assert Published(space, view, u);
    }
  }

  lemma SoundViewValid(space: Space)
    requires Sound(space)
    ensures space.View().Valid()
  {}

  /** The counters in any state of any run: they say what the keys say, no vector lacks its document,
      and the revision bounds every change record. */
  lemma CountersHold(
    run: seq<State>, events: seq<Event>, limits: Limits, complete: Completeness, i: nat, ns: Id)
    requires Run(run, events, limits, complete) && i < |run| && !At(run[i].db, ns).deletion
    ensures var space := At(run[i].db, ns);
            var stats := space.StatsOrZero();
            && stats.documents == |space.docs|
            && stats.bytes == BytesOf(space.docs, space.vectors)
            && stats.pending == |space.changes|
            && space.vectors.Keys <= space.docs.Keys
            && (forall id :: id in space.changes ==> 1 <= space.changes[id] <= stats.revision)
  {
    RunKeeps(run, events, limits, complete, i);
    assert SpaceOk(At(run[i].db, ns), complete);
  }

  /** In any state of any run the counters are large enough for whatever a write or a cleanup subtracts: an
      operation on any document, and any chunk of change records. */
  lemma NothingUnderflows(
    run: seq<State>, events: seq<Event>, limits: Limits, complete: Completeness, i: nat, ns: Id, op: Op, ids: seq<Id>,
    revision: nat)
    requires Run(run, events, limits, complete) && i < |run| && !At(run[i].db, ns).deletion
    ensures var space := At(run[i].db, ns);
            var stats := space.StatsOrZero();
            && (op.id in space.docs ==> stats.documents >= 1 && stats.bytes >= BytesAt(space, op.id))
            && Counts(Recount(stats, BeforeOp(space, op.id), op), ApplyOp(space, op, stats.revision + 1))
            && |Outdated(space.changes, ids, revision)| <= stats.pending
  {
    CountersHold(run, events, limits, complete, i, ns);
    var space := At(run[i].db, ns);
    RecountFollows(space.StatsOrZero(), space, op, space.StatsOrZero().revision + 1);
    OutdatedCounted(space.changes, ids, revision);
  }

  /** An accepted write leaves a namespace within its quotas, one revision further, with every change it made
      on record under that revision. */
  lemma WritesWithinQuota(s: State, ns: Id, ops: seq<Op>, limits: Limits, complete: Completeness)
    requires Inv(s, complete) && Enabled(s, Write(ns, ops), limits, complete)
    ensures var a, b := At(s.db, ns), At(After(s, Write(ns, ops), limits, complete).db, ns);
            && Fits(b.StatsOrZero(), limits) && Counts(b.StatsOrZero(), b)
            && b.StatsOrZero().revision == a.StatsOrZero().revision + 1
            && forall i :: 0 <= i < |ops| ==>
                 ops[i].id in b.changes && b.changes[ops[i].id] == b.StatsOrZero().revision
  {
    var a := At(s.db, ns);
    assert SpaceOk(a, complete) && !a.deletion;
    WriteKeepsSound(a, ops, limits);
    forall i | 0 <= i < |ops|
      ensures ops[i].id in Written(a, ops).changes
              && Written(a, ops).changes[ops[i].id] == a.StatsOrZero().revision + 1
    {
      ApplyAllOn(a, ops, a.StatsOrZero().revision + 1, i);
    }
  }

  /** Without a cleanup marker nothing is left to clean: only the published generation is stored, and
      only changes that it does not contain are on record. */
  lemma NothingLeftBehind(
    run: seq<State>, events: seq<Event>, limits: Limits, complete: Completeness, i: nat, ns: Id)
    requires Run(run, events, limits, complete) && i < |run|
    requires !At(run[i].db, ns).deletion && !At(run[i].db, ns).cleanup
    ensures var space := At(run[i].db, ns);
            && (forall p :: p in space.generations ==> p.0 == Active(space).generation)
            && (forall id :: id in space.changes ==> space.changes[id] > Active(space).revision)
  {
    RunKeeps(run, events, limits, complete, i);
    var space := At(run[i].db, ns);
    assert SpaceOk(space, complete);
    forall p | p in space.generations ensures p.0 == Active(space).generation { assert RowMarked(space, p); }
    forall id | id in space.changes ensures space.changes[id] > Active(space).revision {
      assert RecordMarked(space, id);
    }
  }

  // ---------------------------------------------------------------------------------------------
  // Steps

  /** The namespace that a step works on. */
  function Touched(s: State, e: Event): Option<Id> {
    match e
    case Create(ns, _) => Some(ns)
    case Write(ns, _) => Some(ns)
    case Plan(ns, _, _) => Some(ns)
    case Resume(ns) => Some(ns)
    case Delete(ns, _) => Some(ns)
    case Recover(ns, _) => Some(ns)
    case _ => if s.job.Idle? then None else Some(s.job.ns)
  }

  /** A step leaves every other namespace alone. */
  lemma OthersUnchanged(s: State, e: Event, limits: Limits, complete: Completeness, ns: Id)
    requires Enabled(s, e, limits, complete) && Touched(s, e) != Some(ns)
    ensures At(After(s, e, limits, complete).db, ns) == At(s.db, ns)
  {}

  /** Nothing but an erase removes the record of a change that the published generation lacks, and it
      never goes back to an older revision. */
  lemma RecordsSurvive(s: State, e: Event, limits: Limits, complete: Completeness, ns: Id, id: Id)
    requires Inv(s, complete) && Enabled(s, e, limits, complete) && !e.Erase?
    requires id in At(s.db, ns).changes
    ensures var a, b := At(s.db, ns), At(After(s, e, limits, complete).db, ns);
            (id in b.changes && b.changes[id] >= a.changes[id]) || a.changes[id] <= Active(b).revision
  {
    if Touched(s, e) == Some(ns) && e.Write? {
      RecordsWritten(s, e.ops, limits, complete, ns, id);
    } else if Touched(s, e) == Some(ns) && e.Retire? {
      RecordsRetired(s, e.count, limits, complete, id);
    } else {
      RecordsKept(s, e, limits, complete, ns);
    }
  }

  lemma RecordsWritten(s: State, ops: seq<Op>, limits: Limits, complete: Completeness, ns: Id, id: Id)
    requires Inv(s, complete) && Enabled(s, Write(ns, ops), limits, complete) && id in At(s.db, ns).changes
    ensures var a, b := At(s.db, ns), At(After(s, Write(ns, ops), limits, complete).db, ns);
            id in b.changes && b.changes[id] >= a.changes[id]
  {
    var a := At(s.db, ns);
    assert SpaceOk(a, complete);
    WriteAdvances(a, ops);
    assert ChangedAfter(Written(a, ops), id, a.StatsOrZero().revision) || SameRecord(a, Written(a, ops), id);
  }

  lemma RecordsRetired(s: State, count: nat, limits: Limits, complete: Completeness, id: Id)
    requires Inv(s, complete) && Enabled(s, Retire(count), limits, complete) && id in At(s.db, s.job.ns).changes
    ensures var a, b := At(s.db, s.job.ns), At(After(s, Retire(count), limits, complete).db, s.job.ns);
            (id in b.changes && b.changes[id] >= a.changes[id]) || a.changes[id] <= Active(b).revision
  {
    RetiredRecord(At(s.db, s.job.ns), s.job.stale[..count], s.job.active.revision, id);
  }

  lemma RecordsKept(s: State, e: Event, limits: Limits, complete: Completeness, ns: Id)
    requires Enabled(s, e, limits, complete) && !e.Erase?
    requires Touched(s, e) == Some(ns) ==> !e.Write? && !e.Retire?
    ensures At(After(s, e, limits, complete).db, ns).changes == At(s.db, ns).changes
  {
    if Touched(s, e) != Some(ns) { OthersUnchanged(s, e, limits, complete, ns); }
  }

  lemma RetiredRecord(a: Space, ids: seq<Id>, revision: nat, id: Id)
    requires id in a.changes
    ensures var b := Retired(a, ids, revision);
            && Active(b) == Active(a)
            && ((id in b.changes && b.changes[id] == a.changes[id]) || a.changes[id] <= revision)
  {}

  /** A deletion marker goes away only with the last key of its namespace. */
  lemma MarkerOutlivesKeys(s: State, e: Event, limits: Limits, complete: Completeness, ns: Id)
    requires Inv(s, complete) && Enabled(s, e, limits, complete) && At(s.db, ns).deletion
    ensures var b := At(After(s, e, limits, complete).db, ns); b.deletion || b == EMPTY
  {
    if Touched(s, e) == Some(ns) {
      assert SpaceOk(At(s.db, ns), complete);
      if e.EraseEnd? { EraseFinishes(At(s.db, ns), ns); }
    } else {
      OthersUnchanged(s, e, limits, complete, ns);
    }
  }

  // ---------------------------------------------------------------------------------------------
  // Recovery

  lemma RecoveryStep(s: State, e: Event, limits: Limits, complete: Completeness, ns: Id)
    requires Inv(s, complete) && Enabled(s, e, limits, complete) && !s.serving
    ensures var a, b := At(s.db, ns), At(After(s, e, limits, complete).db, ns);
            if a.deletion then b.deletion || b == EMPTY else b == a
  {
    if At(s.db, ns).deletion {
      MarkerOutlivesKeys(s, e, limits, complete, ns);
    } else if Touched(s, e) != Some(ns) {
      OthersUnchanged(s, e, limits, complete, ns);
    }
  }

  /** Between a crash and the next request, whatever happens and however often the process crashes again,
      every namespace with a deletion marker loses its last key and every other one keeps all of them. */
  lemma RecoveryOutcome(
    run: seq<State>, events: seq<Event>, limits: Limits, complete: Completeness, i: nat, j: nat, ns: Id)
    requires Run(run, events, limits, complete) && i <= j < |run| && !run[i].serving
    requires forall k :: i <= k < j ==> !run[k].serving
    ensures var a, b := At(run[i].db, ns), At(run[j].db, ns);
            if a.deletion then b.deletion || b == EMPTY else b == a
    ensures run[j].serving ==> At(run[j].db, ns) == Reopened(At(run[i].db, ns))
  {
    RecoveryKeeps(run, events, limits, complete, i, j, ns);
    if At(run[i].db, ns).deletion { MarkedHidden(run, events, limits, complete, i, ns); }
  }

  lemma {:induction false} RecoveryKeeps(
    run: seq<State>, events: seq<Event>, limits: Limits, complete: Completeness, i: nat, j: nat, ns: Id)
    requires Run(run, events, limits, complete) && i <= j < |run| && !run[i].serving
    requires forall k :: i <= k < j ==> !run[k].serving
    ensures var a, b := At(run[i].db, ns), At(run[j].db, ns);
            && (if a.deletion then b.deletion || b == EMPTY else b == a)
            && (run[j].serving ==> !b.deletion)
  {
    if i < j {
      RecoveryKeeps(run, events, limits, complete, i, j - 1, ns);
      RecoveryNext(run, events, limits, complete, j - 1, ns);
    }
  }

  /** A marked namespace has no definition any more. */
  lemma MarkedHidden(run: seq<State>, events: seq<Event>, limits: Limits, complete: Completeness, i: nat, ns: Id)
    requires Run(run, events, limits, complete) && i < |run| && At(run[i].db, ns).deletion
    ensures Reopened(At(run[i].db, ns)) == EMPTY
  {
    RunKeeps(run, events, limits, complete, i);
    assert SpaceOk(At(run[i].db, ns), complete);
  }

  lemma RecoveryNext(
    run: seq<State>, events: seq<Event>, limits: Limits, complete: Completeness, j: nat, ns: Id)
    requires Run(run, events, limits, complete) && j + 1 < |run| && !run[j].serving
    ensures var a, b := At(run[j].db, ns), At(run[j + 1].db, ns);
            && (if a.deletion then b.deletion || b == EMPTY else b == a)
            && (run[j + 1].serving ==> !b.deletion)
  {
    RunKeeps(run, events, limits, complete, j);
    RecoveryStep(run[j], events[j], limits, complete, ns);
    ServesClean(run[j], events[j], limits, complete, ns);
  }

  lemma ServesClean(s: State, e: Event, limits: Limits, complete: Completeness, ns: Id)
    requires Enabled(s, e, limits, complete) && !s.serving
    ensures After(s, e, limits, complete).serving ==> !At(After(s, e, limits, complete).db, ns).deletion
  {}

  /** After a crash at any point of a deletion, no key of the namespace is left when requests are served
      again, whatever happened in between. */
  lemma DeletionRecovered(
    run: seq<State>, events: seq<Event>, limits: Limits, complete: Completeness, i: nat, j: nat)
    requires Run(run, events, limits, complete) && 0 < i < j < |run|
    requires run[i - 1].job.Erasing? && events[i - 1].Crash? && run[j].serving
    requires forall k :: i <= k < j ==> !run[k].serving
    ensures At(run[j].db, run[i - 1].job.ns) == EMPTY
  {
    RunKeeps(run, events, limits, complete, i - 1);
    RecoveryOutcome(run, events, limits, complete, i, j, run[i - 1].job.ns);
  }

  /** While requests are served and no deletion is running, no namespace carries a deletion marker, so
      creating one cannot revive what a deletion will still erase. */
  lemma NoMarkerInService(
    run: seq<State>, events: seq<Event>, limits: Limits, complete: Completeness, i: nat, ns: Id)
    requires Run(run, events, limits, complete) && i < |run| && run[i].serving && !run[i].job.Erasing?
    ensures !At(run[i].db, ns).deletion
  {
    RunKeeps(run, events, limits, complete, i);
  }

  /** Without that, an erase that stops with an error and no crash: the marker stays, the namespace can be
      created and written again, and the next reopen keeps what was written exactly when there was no marker. */
  lemma WriteSurvivesReopen(space: Space, schema: Schema, ops: seq<Op>, limits: Limits, i: nat)
    requires space.schema.None? && Admissible(space.(schema := Some(schema)), ops, limits)
    requires i < |ops| && ops[i].document.Some?
    ensures var written := Written(space.(schema := Some(schema)), ops);
            && ops[i].id in written.docs
            && (ops[i].id in Reopened(written).docs <==> !space.deletion)
            && (Reopened(written) == written <==> !space.deletion)
  {
    var created := space.(schema := Some(schema));
    ApplyAllFrame(created, ops, created.StatsOrZero().revision + 1);
    ApplyAllOn(created, ops, created.StatsOrZero().revision + 1, i);
  }

  /** The erase stops with an error, and requests go on. */
  predicate ErasesNoFurther(s: State, t: State) {
    s.serving && s.job.Erasing? && t == s.(job := Idle)
  }

  ghost predicate Step(s: State, e: Event, t: State, limits: Limits, complete: Completeness) {
    Enabled(s, e, limits, complete) && t == After(s, e, limits, complete)
  }

  /** A database with one namespace. */
  function Alone(ns: Id, space: Space, job: Job, serving: bool): State {
    State(map[ns := space], job, serving)
  }

  lemma AloneAt(ns: Id, space: Space, other: Space, job: Job, serving: bool)
    ensures At(Alone(ns, space, job, serving).db, ns) == space
    ensures forall next: Job :: Put(Alone(ns, space, job, serving), ns, other, next) == Alone(ns, other, next, serving)
  {
    assert map[ns := space][ns := other] == map[ns := other];
  }

  /** An erase error can lose an acknowledged write: the namespace is deleted, the erase fails, the namespace is
      created and written again, and after a crash recovery erases the write. */
  lemma EraseErrorLosesWrite(ns: Id, schema: Schema, op: Op, limits: Limits, complete: Completeness)
    requires ValidId(ns) && FromJson([op]) && op.document.Some? && op.document.value.vector.None?
    requires Admissible(EMPTY.(schema := Some(schema)), [op], limits)
    ensures var created, marked := EMPTY.(schema := Some(schema)), EMPTY.(deletion := true);
            var again := created.(deletion := true);
            var written, keys := Written(again, [op]), [DocumentKey(ns, op.id), ChangeKey(ns, op.id)];
            var erased := again.(stats := written.stats);
            && Step(INITIAL, Create(ns, schema), Alone(ns, created, Idle, true), limits, complete)
            && Step(Alone(ns, created, Idle, true), Delete(ns, []), Alone(ns, marked, Erasing(ns, []), true),
                    limits, complete)
            && ErasesNoFurther(Alone(ns, marked, Erasing(ns, []), true), Alone(ns, marked, Idle, true))
            && Step(Alone(ns, marked, Idle, true), Create(ns, schema), Alone(ns, again, Idle, true), limits, complete)
            && Step(Alone(ns, again, Idle, true), Write(ns, [op]), Alone(ns, written, Idle, true), limits, complete)
            && op.id in written.docs
            && Step(Alone(ns, written, Idle, true), Crash, Alone(ns, written, Idle, false), limits, complete)
            && Step(Alone(ns, written, Idle, false), Recover(ns, keys), Alone(ns, written, Erasing(ns, keys), false),
                    limits, complete)
            && Step(Alone(ns, written, Erasing(ns, keys), false), Erase(2), Alone(ns, erased, Erasing(ns, []), false),
                    limits, complete)
            && Step(Alone(ns, erased, Erasing(ns, []), false), EraseEnd, Alone(ns, created, Idle, false),
                    limits, complete)
  {
    DeletedBefore(ns, schema, limits, complete);
    WrittenAgain(ns, schema, op, limits, complete);
    RecoveredAfter(ns, schema, op, limits, complete);
  }

  lemma DeletedBefore(ns: Id, schema: Schema, limits: Limits, complete: Completeness)
    requires ValidId(ns)
    ensures var created, marked := EMPTY.(schema := Some(schema)), EMPTY.(deletion := true);
            && Step(INITIAL, Create(ns, schema), Alone(ns, created, Idle, true), limits, complete)
            && Step(Alone(ns, created, Idle, true), Delete(ns, []), Alone(ns, marked, Erasing(ns, []), true),
                    limits, complete)
  {
    assert INITIAL.db[ns := EMPTY.(schema := Some(schema))] == map[ns := EMPTY.(schema := Some(schema))];
    AloneAt(ns, EMPTY.(schema := Some(schema)), EMPTY.(deletion := true), Idle, true);
  }

  lemma WrittenAgain(ns: Id, schema: Schema, op: Op, limits: Limits, complete: Completeness)
    requires ValidId(ns) && FromJson([op]) && op.document.Some? && op.document.value.vector.None?
    requires Admissible(EMPTY.(schema := Some(schema)), [op], limits)
    ensures var marked := EMPTY.(deletion := true);
            var again := EMPTY.(schema := Some(schema), deletion := true);
            && Step(Alone(ns, marked, Idle, true), Create(ns, schema), Alone(ns, again, Idle, true), limits, complete)
            && Step(Alone(ns, again, Idle, true), Write(ns, [op]), Alone(ns, Written(again, [op]), Idle, true),
                    limits, complete)
  {
    var marked := EMPTY.(deletion := true);
    var again := marked.(schema := Some(schema));
    AloneAt(ns, marked, again, Idle, true);
    AloneAt(ns, again, Written(again, [op]), Idle, true);
    AdmissibleMarked(EMPTY.(schema := Some(schema)), op, limits);
  }

  /** The marker does not matter to a write. */
  lemma AdmissibleMarked(space: Space, op: Op, limits: Limits)
    requires Admissible(space, [op], limits)
    ensures Admissible(space.(deletion := true), [op], limits)
  {
    AppliedOne(space, op);
    AppliedOne(space.(deletion := true), op);
  }

  lemma AppliedOne(space: Space, op: Op)
    ensures Applied(space, [op]) == ApplyOp(space, op, space.StatsOrZero().revision + 1)
  {
    var ops, revision := [op], space.StatsOrZero().revision + 1;
    assert ops[..|ops| - 1] == [] && ApplyAll(space, [], revision) == space;
  }

  lemma RecoveredAfter(ns: Id, schema: Schema, op: Op, limits: Limits, complete: Completeness)
    requires op.document.Some? && op.document.value.vector.None?
    ensures var created := EMPTY.(schema := Some(schema));
            var again := created.(deletion := true);
            var written, keys := Written(again, [op]), [DocumentKey(ns, op.id), ChangeKey(ns, op.id)];
            var erased := again.(stats := written.stats);
            && op.id in written.docs
            && Step(Alone(ns, written, Idle, true), Crash, Alone(ns, written, Idle, false), limits, complete)
            && Step(Alone(ns, written, Idle, false), Recover(ns, keys), Alone(ns, written, Erasing(ns, keys), false),
                    limits, complete)
            && Step(Alone(ns, written, Erasing(ns, keys), false), Erase(2), Alone(ns, erased, Erasing(ns, []), false),
                    limits, complete)
            && Step(Alone(ns, erased, Erasing(ns, []), false), EraseEnd, Alone(ns, created, Idle, false),
                    limits, complete)
  {
    var created := EMPTY.(schema := Some(schema));
    var again := created.(deletion := true);
    var written := Written(again, [op]);
    var keys := [DocumentKey(ns, op.id), ChangeKey(ns, op.id)];
    var erased := again.(stats := written.stats);
    WrittenThenErased(ns, again, op);
    RecoverStep(ns, written, erased, keys, limits, complete);
    EndStep(ns, erased, created, limits, complete);
  }

  lemma WrittenThenErased(ns: Id, space: Space, op: Op)
    requires space.docs == map[] && space.vectors == map[] && space.changes == map[] && space.generations == map[]
    requires space.stats.None? && op.document.Some? && op.document.value.vector.None?
    ensures var written, keys := Written(space, [op]), [DocumentKey(ns, op.id), ChangeKey(ns, op.id)];
            && op.id in written.docs && written.deletion == space.deletion
            && Without(written, ns, keys) == space.(stats := written.stats)
            && forall k :: k in keys <==> Scanned(written, ns, k)
  {
    WrittenOnce(space, op);
    ErasedOnce(Written(space, [op]), space.(stats := Written(space, [op]).stats), ns, op.id);
  }

  lemma EndStep(ns: Id, erased: Space, created: Space, limits: Limits, complete: Completeness)
    requires created == erased.(index := None, stats := None, deletion := false, cleanup := false)
    ensures Step(Alone(ns, erased, Erasing(ns, []), false), EraseEnd, Alone(ns, created, Idle, false),
                 limits, complete)
  {
    AloneAt(ns, erased, created, Erasing(ns, []), false);
  }

  lemma RecoverStep(ns: Id, written: Space, erased: Space, keys: seq<Key>, limits: Limits, complete: Completeness)
    requires |keys| == 2 && written.deletion && forall k :: k in keys <==> Scanned(written, ns, k)
    requires Without(written, ns, keys) == erased
    ensures Step(Alone(ns, written, Idle, true), Crash, Alone(ns, written, Idle, false), limits, complete)
    ensures Step(Alone(ns, written, Idle, false), Recover(ns, keys), Alone(ns, written, Erasing(ns, keys), false),
                 limits, complete)
    ensures Step(Alone(ns, written, Erasing(ns, keys), false), Erase(2), Alone(ns, erased, Erasing(ns, []), false),
                 limits, complete)
  {
    AloneAt(ns, written, erased, Idle, false);
    AloneAt(ns, written, erased, Erasing(ns, keys), false);
    assert keys[..2] == keys && keys[2..] == [];
  }

  lemma WrittenOnce(space: Space, op: Op)
    requires space.docs == map[] && space.vectors == map[] && space.changes == map[] && space.generations == map[]
    requires space.stats.None? && op.document.Some? && op.document.value.vector.None?
    ensures var doc := Doc(op.document.value.attributes, op.document.value.size);
            var w := Written(space, [op]);
            w == space.(docs := map[op.id := doc], changes := map[op.id := 1], stats := w.stats)
  {
    AppliedOne(space, op);
  }

  lemma ErasedOnce(written: Space, erased: Space, ns: Id, id: Id)
    requires erased == written.(docs := map[], changes := map[]) && written.vectors == map[]
    requires written.generations == map[] && written.docs.Keys == {id} && written.changes.Keys == {id}
    ensures Without(written, ns, [DocumentKey(ns, id), ChangeKey(ns, id)]) == erased
    ensures forall k :: k in [DocumentKey(ns, id), ChangeKey(ns, id)] <==> Scanned(written, ns, k)
  {
    assert forall x :: x in written.docs.Keys ==> x == id;
    assert forall x :: x in written.changes.Keys ==> x == id;
    var next := Without(written, ns, [DocumentKey(ns, id), ChangeKey(ns, id)]);
    assert next.docs == map[] && next.vectors == map[] && next.changes == map[] && next.generations == map[];
  }

  /** A write for which this happens. */
  lemma EraseErrorExample()
    ensures
      var created := EMPTY.(schema := Some(Schema(None, Cosine, [])));
      var op := Op([98], Some(Document([98], None, map[], 10, 10)));
      ValidId([97]) && FromJson([op]) && Admissible(created, [op], Limits(10, 1000, 10))
  {
    var created := EMPTY.(schema := Some(Schema(None, Cosine, [])));
    var op := Op([98], Some(Document([98], None, map[], 10, 10)));
    AppliedOne(created, op);
    assert InputBytes([op]) == 10 by { assert [op][..0] == []; }
    assert DocSizes(created.docs) == map[] && VectorSizes(created.vectors) == map[];
    BytesAfter(created, op, 1);
    SizesAfter(created, op, 1);
  }

  // ---------------------------------------------------------------------------------------------
  // Where runs start

  /** A migrated database, as soon as it is opened. */
  ghost function MigratedDatabase(spaces: Migration.Spaces, render: Migration.Printer): Store.Database {
    map ns | ns in spaces :: Migration.AsSpace(Migration.Migrated(spaces[ns], render))
  }

  /** Runs can start from a migrated database. */
  lemma StartsMigrated(spaces: Migration.Spaces, render: Migration.Printer, serving: bool, complete: Completeness)
    requires Migration.Prints(render)
    requires forall ns :: ns in spaces ==> Migration.LegacyOk(spaces[ns]) && Migration.VectorsValid(spaces[ns])
    ensures Inv(State(MigratedDatabase(spaces, render), Idle, serving), complete)
  {
    var s := State(MigratedDatabase(spaces, render), Idle, serving);
    forall ns ensures SpaceOk(At(s.db, ns), complete) && !At(s.db, ns).deletion {
      if ns in spaces { MigratedSettled(spaces[ns], render, complete); } else { EmptySettled(complete); }
    }
  }

  lemma MigratedSettled(space: Migration.Legacy, render: Migration.Printer, complete: Completeness)
    requires Migration.Prints(render) && Migration.LegacyOk(space) && Migration.VectorsValid(space)
    ensures Settled(Migration.AsSpace(Migration.Migrated(space, render)), complete)
  {
    Migration.MigratedSound(space, render);
    Migration.MigratedChanges(space, render);
  }

  /** Runs can start from what a run that was cut off left, hence from a restored backup of it. */
  lemma StartsRestored(
    run: seq<State>, events: seq<Event>, limits: Limits, complete: Completeness, i: nat)
    requires Run(run, events, limits, complete) && i < |run|
    ensures Inv(State(run[i].db, Idle, false), complete)
  {
    RunKeeps(run, events, limits, complete, i);
    StepKeeps(run[i], Crash, limits, complete);
  }

  // ---------------------------------------------------------------------------------------------
  // Requests at any moment of any run

  /** What a build computes from a snapshot is what the machine accepts as a plan. */
  method PlanBuild(
    s: State, ns: Id, order: seq<Id>, nearest: map<Id, nat>, centroids: seq<Vector>, generation: Id,
    limits: Limits, u: Unicode)
    returns (status: Status, entries: seq<Entry>)
    requires Inv(s, CompleteFor(u)) && s.serving && s.job.Idle? && At(s.db, ns).schema.Some?
    requires Fresh(At(s.db, ns), generation) && Enumerates(order, At(s.db, ns).docs.Keys)
    requires nearest.Keys == At(s.db, ns).vectors.Keys && forall id :: id in nearest ==> nearest[id] < |centroids|
    ensures Enabled(s, Plan(ns, status, entries), limits, CompleteFor(u))
    ensures DistinctKeys(entries)
  {
    var space := At(s.db, ns);
    assert SpaceOk(space, CompleteFor(u));
    SoundViewValid(space);
    assert space.View().docs.Keys == space.docs.Keys;
    status, entries := Build(
      space.View(), order, space.schema.value, u, space.StatsOrZero().revision, generation, nearest, centroids);
  }

  /** A vector query on a snapshot of any state of any run: never an error, every hit a current matching vector
      with the attributes it has in that snapshot, and the answer of a plain scan unless clusters were skipped. */
  method QueryAnyMoment(
    ghost run: seq<State>, ghost events: seq<Event>, ghost limits: Limits, ghost u: Unicode, ghost i: nat,
    ns: Id, space: Space, q: Search.Query, threshold: nat, score: Search.Scoring)
    returns (r: Result<seq<Search.SearchHit>, Search.Error>, plan: Search.Plan, ghost found: map<Id, Vector>)
    requires Run(run, events, limits, CompleteFor(u)) && i < |run| && Live(run[i], ns)
    requires space == At(run[i].db, ns) && q.filter.Valid()
    ensures space.View().Valid() && r.Ok?
    ensures Search.Submap(found, Search.Candidates(space, q.filter))
    ensures Search.Hydrated(space, Search.Answer(q, score, found), r)
    ensures !plan.CentroidAnnPlan? || (space.index.Some? && q.probes >= |space.index.value.centroids|) ==>
              found == Search.Candidates(space, q.filter)
  {
    SnapshotsQueryable(run, events, limits, u, i, ns);
    r, plan, found := Search.VectorQuery(space, q, threshold, score, u);
  }

  /** A text query on a snapshot of any state of any run ranks like a scan of that snapshot's documents. */
  method SearchAnyMoment(
    ghost run: seq<State>, ghost events: seq<Event>, ghost limits: Limits, ghost i: nat,
    ns: Id, space: Space, q: TextSearch.TextQuery, terms: seq<string>, u: Unicode, a: TextSearch.Arithmetic)
    returns (r: Result<seq<Search.SearchHit>, Search.Error>)
    requires Run(run, events, limits, CompleteFor(u)) && i < |run| && Live(run[i], ns)
    requires space == At(run[i].db, ns) && q.filter.Valid() && q.field in space.schema.value.textFields
    requires (set t | t in terms) == Tokens(u, q.text).frequencies.Keys
    requires forall i, j :: 0 <= i < j < |terms| ==> terms[i] != terms[j]
    ensures space.View().Valid()
    ensures r.Err? <==> |terms| == 0 || |terms| > 32
    ensures r.Ok? ==>
              var docs := space.View().docs;
              Search.Hydrated(
                space, TextSearch.TextAnswer(a, docs, TextsOf(u, space.schema.value, docs), q, terms), r)
  {
    SnapshotsQueryable(run, events, limits, u, i, ns);
    r := TextSearch.SearchText(space, q, terms, u, a);
    if r.Err? { assert r.error == Search.Invalid || r.error == Search.Corrupt; }
  }
}
