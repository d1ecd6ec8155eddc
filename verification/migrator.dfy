/** The migration itself: namespace by namespace, 128 documents to a batch, counters in the last one. */
module Migrator {
  import opened Order
  import opened Wrappers
  import opened Model
  import opened Store
  import opened Engine
  import opened Service
  import opened Backup
  import opened Migration

  /** Puts that are not durable yet. */
  datatype Pending = Pending(texts: map<Id, Text>, vectors: map<Id, Vector>, changes: map<Id, nat>)

  const NOTHING: Pending := Pending(map[], map[], map[])

  function Put(space: Legacy, p: Pending): Legacy {
    space.(texts := space.texts + p.texts, vectors := space.vectors + p.vectors, changes := space.changes + p.changes)
  }

  /** The part of a map under some keys. */
  ghost function Only<V>(m: map<Id, V>, ids: set<Id>): map<Id, V> {
    map id | id in m && id in ids :: m[id]
  }

  /** The bytes of the documents converted so far. */
  ghost function BytesUpTo(space: Legacy, render: Printer, ids: set<Id>): nat {
    var all := Converted(space, render, space.texts.Keys);
    BytesOf(Only(Documents(all.texts), ids), Only(all.vectors, ids))
  }

  ghost predicate Untouched(original: Legacy, space: Legacy, ids: set<Id>) {
    forall id :: id in original.texts && id !in ids ==> CellAt(space, id) == CellAt(original, id)
  }

  /** With the pending puts, exactly these documents are converted. */
  ghost predicate Pended(original: Legacy, render: Printer, ids: set<Id>, space: Legacy, pending: Pending) {
    && space.schema == original.schema && space.stats == original.stats
    && forall x :: CellAt(Put(space, pending), x) == CellAt(Converted(original, render, ids), x)
  }

  lemma PendedSame(original: Legacy, render: Printer, ids: set<Id>, space: Legacy, pending: Pending)
    requires Pended(original, render, ids, space, pending)
    ensures Put(space, pending) == Converted(original, render, ids)
  {
    SameCells(Put(space, pending), Converted(original, render, ids));
  }

  ghost predicate Tallied(original: Legacy, render: Printer, ids: set<Id>, stats: Stats) {
    stats == Stats(1, |ids|, BytesUpTo(original, render, ids), |ids|)
  }

  /** What the loop has reached after some rows of the original namespace. */
  ghost predicate Reached(
    original: Legacy, render: Printer, ids: set<Id>, space: Legacy, pending: Pending, stats: Stats)
  {
    && ids <= original.texts.Keys
    && Pended(original, render, ids, space, pending)
    && Untouched(original, space, ids)
    && Tallied(original, render, ids, stats)
  }

  lemma ConvertedNone(original: Legacy, render: Printer)
    ensures Converted(original, render, {}) == original
  {
    forall id ensures CellAt(Converted(original, render, {}), id) == CellAt(original, id) {
      ConvertedAt(original, render, {}, id);
    }
    SameCells(Converted(original, render, {}), original);
  }

  lemma PutNothing(space: Legacy)
    ensures Put(space, NOTHING) == space
  {
    assert space.texts + map[] == space.texts && space.vectors + map[] == space.vectors;
    assert space.changes + map[] == space.changes;
  }

  lemma NoBytes(original: Legacy, render: Printer)
    ensures BytesUpTo(original, render, {}) == 0
  {
    var all := Converted(original, render, original.texts.Keys);
    assert Only(Documents(all.texts), {}) == map[] && Only(all.vectors, {}) == map[];
    assert DocSizes(map[]) == map[] && VectorSizes(map[]) == map[];
  }

  lemma ReachedNothing(original: Legacy, render: Printer)
    ensures Reached(original, render, {}, original, NOTHING, Stats(1, 0, 0, 0))
  {
    ConvertedNone(original, render);
    PutNothing(original);
    NoBytes(original, render);
  }

  /** The puts for one document, and the bytes it will take. */
  function WithDocument(p: Pending, id: Id, text: Text, render: Printer): Pending {
    Pending(
      p.texts[id := render(text.attributes)],
      if text.vector.Some? then p.vectors[id := text.vector.value] else p.vectors,
      p.changes[id := 1])
  }

  function DocumentBytes(space: Legacy, id: Id, render: Printer): nat
    requires id in space.texts
  {
    var text := space.texts[id];
    render(text.attributes).size
    + if text.vector.Some? then VectorSize(text.vector.value)
      else if id in space.vectors then VectorSize(space.vectors[id]) else 0
  }

  lemma OnlyOneMore<V>(m: map<Id, V>, ids: set<Id>, id: Id)
    requires id !in ids
    ensures Only(m, ids + {id}) == if id in m then Only(m, ids)[id := m[id]] else Only(m, ids)
    ensures Only(m, ids) - {id} == Only(m, ids)
  {}

  lemma BytesOneMore(original: Legacy, render: Printer, ids: set<Id>, id: Id)
    requires id in original.texts && id !in ids
    ensures BytesUpTo(original, render, ids + {id}) ==
            BytesUpTo(original, render, ids) + DocumentBytes(original, id, render)
  {
    var all := Converted(original, render, original.texts.Keys);
    ConvertedAt(original, render, original.texts.Keys, id);
    assert CellAt(all, id) == ConvertedCell(CellAt(original, id), render);
    AllOneMore(all, ids, id);
  }

  lemma AllOneMore(all: Legacy, ids: set<Id>, id: Id)
    requires id in all.texts && id !in ids
    ensures BytesOf(Only(Documents(all.texts), ids + {id}), Only(all.vectors, ids + {id})) ==
            BytesOf(Only(Documents(all.texts), ids), Only(all.vectors, ids))
            + all.texts[id].size + if id in all.vectors then VectorSize(all.vectors[id]) else 0
  {
    OnlyOneMore(Documents(all.texts), ids, id);
    OnlyOneMore(all.vectors, ids, id);
    DocBytes(Only(Documents(all.texts), ids), id, Documents(all.texts)[id]);
    VectorBytes(Only(all.vectors, ids), id, if id in all.vectors then all.vectors[id] else []);
  }

  lemma ConvertedOneMore(original: Legacy, render: Printer, ids: set<Id>, space: Legacy, p: Pending, id: Id)
    requires id in original.texts && id !in ids && Pended(original, render, ids, space, p)
    ensures Pended(original, render, ids + {id}, space, WithDocument(p, id, original.texts[id], render))
  {
    forall x
      ensures CellAt(Put(space, WithDocument(p, id, original.texts[id], render)), x) ==
              CellAt(Converted(original, render, ids + {id}), x)
    {
      ConvertedAt(original, render, ids, x);
      ConvertedAt(original, render, ids + {id}, x);
      WithDocumentAt(space, p, id, original.texts[id], render, x);
      assert CellAt(Put(space, p), x) == CellAt(Converted(original, render, ids), x);
    }
  }

  lemma WithDocumentAt(space: Legacy, p: Pending, id: Id, text: Text, render: Printer, x: Id)
    ensures CellAt(Put(space, WithDocument(p, id, text, render)), x) ==
            if x != id then CellAt(Put(space, p), x)
            else Cell(Some(render(text.attributes)),
                      if text.vector.Some? then text.vector else CellAt(Put(space, p), x).vector,
                      Some(1))
  {}

  lemma SameDocument(original: Legacy, space: Legacy, ids: set<Id>, render: Printer, id: Id)
    requires Untouched(original, space, ids) && id in original.texts && id !in ids
    ensures id in space.texts && space.texts[id] == original.texts[id]
    ensures DocumentBytes(space, id, render) == DocumentBytes(original, id, render)
    ensures Untouched(original, space, ids + {id})
  {
    assert CellAt(space, id) == CellAt(original, id);
  }

  lemma OneMore(ids: set<Id>, id: Id)
    requires id !in ids
    ensures |ids + {id}| == |ids| + 1
  {}

  /** The counters after one more document. */
  function Counted(stats: Stats, bytes: nat): Stats {
    Stats(stats.revision, stats.documents + 1, stats.bytes + bytes, stats.pending + 1)
  }

  lemma StatsOneMore(original: Legacy, render: Printer, ids: set<Id>, stats: Stats, id: Id)
    requires id in original.texts && id !in ids && Tallied(original, render, ids, stats)
    ensures Tallied(original, render, ids + {id}, Counted(stats, DocumentBytes(original, id, render)))
  {
    BytesOneMore(original, render, ids, id);
    OneMore(ids, id);
  }

  lemma ReachedStep(
    original: Legacy, render: Printer, ids: set<Id>, space: Legacy, pending: Pending, stats: Stats, id: Id)
    requires Reached(original, render, ids, space, pending, stats) && id in original.texts && id !in ids
    ensures id in space.texts && space.texts[id] == original.texts[id]
    ensures Reached(
              original, render, ids + {id}, space, WithDocument(pending, id, original.texts[id], render),
              Counted(stats, DocumentBytes(space, id, render)))
  {
    SameDocument(original, space, ids, render, id);
    StatsOneMore(original, render, ids, stats, id);
    ConvertedOneMore(original, render, ids, space, pending, id);
  }

  lemma ReachedCommit(
    original: Legacy, render: Printer, ids: set<Id>, space: Legacy, pending: Pending, stats: Stats)
    requires Reached(original, render, ids, space, pending, stats)
    ensures Reached(original, render, ids, Put(space, pending), NOTHING, stats)
    ensures PartlyMigrated(original, Put(space, pending), render)
  {
    PutNothing(Put(space, pending));
    PendedSame(original, render, ids, space, pending);
    forall id | id in original.texts && id !in ids ensures CellAt(Put(space, pending), id) == CellAt(original, id) {
      ConvertedAt(original, render, ids, id);
    }
  }

  lemma AllBytes(original: Legacy, render: Printer)
    requires original.vectors.Keys <= original.texts.Keys
    ensures var all := Converted(original, render, original.texts.Keys);
            BytesUpTo(original, render, original.texts.Keys) == BytesOf(Documents(all.texts), all.vectors)
  {
    var all := Converted(original, render, original.texts.Keys);
    OnlyAll(Documents(all.texts), original.texts.Keys);
    OnlyAll(all.vectors, original.texts.Keys);
  }

  lemma OnlyAll<V>(m: map<Id, V>, ids: set<Id>)
    requires m.Keys <= ids
    ensures Only(m, ids) == m
  {}

  lemma ReachedAll(
    original: Legacy, render: Printer, ids: set<Id>, space: Legacy, pending: Pending, stats: Stats)
    requires Reached(original, render, ids, space, pending, stats) && ids == original.texts.Keys
    requires original.vectors.Keys <= original.texts.Keys
    ensures Put(space, pending).(stats := Some(stats)) == Migrated(original, render)
  {
    PendedSame(original, render, ids, space, pending);
    AllStats(original, render, stats);
  }

  lemma AllStats(original: Legacy, render: Printer, stats: Stats)
    requires Tallied(original, render, original.texts.Keys, stats)
    requires original.vectors.Keys <= original.texts.Keys
    ensures stats == Recounted(Converted(original, render, original.texts.Keys))
  {
    var all := Converted(original, render, original.texts.Keys);
    AllBytes(original, render);
    assert all.texts.Keys == original.texts.Keys && |all.texts| == |all.texts.Keys|;
  }

  class Run {
    var marker: Bytes
    var spaces: Spaces
    ghost var log: seq<Spaces>     // durable states behind the marker

    constructor (marker: Bytes, spaces: Spaces)
      ensures this.marker == marker && this.spaces == spaces && log == []
    {
      this.marker, this.spaces, log := marker, spaces, [];
    }

    method Commit(ns: Id, space: Legacy)
      modifies `spaces, `log
      ensures spaces == old(spaces)[ns := space] && log == old(log) + [spaces]
    {
      spaces := spaces[ns := space];
      log := log + [spaces];
    }

    /** Convert one namespace, in batches. The counters are part of the last one. */
    method Namespace(ns: Id, rows: seq<Id>, render: Printer) returns (ok: bool)
      requires ns in spaces && spaces[ns].vectors.Keys <= spaces[ns].texts.Keys
      requires Distinct(rows) && forall id :: id in rows <==> id in spaces[ns].texts
      modifies `spaces, `log
      ensures ok == VectorsValid(old(spaces)[ns])
      ensures ok ==> spaces == old(spaces)[ns := Migrated(old(spaces)[ns], render)]
      ensures PartlyAt(old(spaces), spaces, ns, render)
      ensures Logged(old(log), log, old(spaces), ns, render)
    {
      var original, stats, pending, count, i := spaces[ns], Stats(1, 0, 0, 0), NOTHING, 0, 0;
      ghost var start := spaces;
      ReachedNothing(original, render);
      NothingYet(original, render);
      ghost var ids: set<Id> := {};
      while i < |rows|
        invariant i <= |rows| && ns in spaces && ids == SetOf(rows[..i])
        invariant Reached(original, render, ids, spaces[ns], pending, stats) == true
        invariant forall j :: 0 <= j < i ==> ValidText(original, rows[j])
        invariant PartlyAt(start, spaces, ns, render) == true
        invariant Logged(old(log), log, start, ns, render) == true
      {
        SetOneMore(rows, i);
        ok, pending, stats := Row(original, ids, spaces[ns], pending, stats, rows[i], render);
        if !ok {
          NotAllValid(original, rows[i]);
          return;
        }
        ids, count, i := ids + {rows[i]}, count + 1, i + 1;
        if count == MIGRATE_BATCH {
          Flush(ns, original, ids, pending, stats, render, start, old(log));
          pending, count := NOTHING, 0;
        }
      }
      ok := true;
      AllRows(original, rows, i);
      Finish(ns, original, ids, pending, stats, render, start, old(log));
    }

    method Flush(
      ns: Id, ghost original: Legacy, ghost ids: set<Id>, pending: Pending, ghost stats: Stats, ghost render: Printer,
      ghost start: Spaces, ghost before: seq<Spaces>)
      requires ns in spaces && Reached(original, render, ids, spaces[ns], pending, stats)
      requires ns in start && start[ns] == original && PartlyAt(start, spaces, ns, render)
      requires Logged(before, log, start, ns, render)
      modifies `spaces, `log
      ensures ns in spaces && Reached(original, render, ids, spaces[ns], NOTHING, stats)
      ensures PartlyAt(start, spaces, ns, render)
      ensures Logged(before, log, start, ns, render)
    {
      ReachedCommit(original, render, ids, spaces[ns], pending, stats);
      Commit(ns, Put(spaces[ns], pending));
    }

    method Finish(
      ns: Id, ghost original: Legacy, ghost ids: set<Id>, pending: Pending, stats: Stats, ghost render: Printer,
      ghost start: Spaces, ghost before: seq<Spaces>)
      requires ns in spaces && Reached(original, render, ids, spaces[ns], pending, stats)
      requires ids == original.texts.Keys && original.vectors.Keys <= original.texts.Keys
      requires ns in start && start[ns] == original && PartlyAt(start, spaces, ns, render)
      requires Logged(before, log, start, ns, render)
      modifies `spaces, `log
      ensures spaces == start[ns := Migrated(original, render)]
      ensures PartlyAt(start, spaces, ns, render)
      ensures Logged(before, log, start, ns, render)
    {
      ReachedAll(original, render, ids, spaces[ns], pending, stats);
      Commit(ns, Put(spaces[ns], pending).(stats := Some(stats)));
    }

    /** One run from start to end: mark, convert every namespace, publish the new format. */
    method Migrate(names: seq<Id>, render: Printer) returns (ok: bool)
      requires Distinct(names) && forall ns :: ns in names <==> ns in spaces
      requires forall ns :: ns in spaces ==> spaces[ns].vectors.Keys <= spaces[ns].texts.Keys
      modifies this
      ensures ok == forall ns :: ns in old(spaces) ==> VectorsValid(old(spaces)[ns])
      ensures ok ==> marker == FORMAT && spaces == AllMigrated(old(spaces), render)
      ensures !ok ==> marker == MIGRATING
      ensures Partly(old(spaces), spaces, render)
      ensures AllLogged(old(log), log, old(spaces), render)
    {
      ghost var start, done: set<Id> := spaces, {};
      ghost var goal := MakeGoal(start, render);
      marker := MIGRATING;
      ok := true;
      NoneYet(start, render);
      for i := 0 to |names|
        invariant marker == MIGRATING && ok && done == SetOf(names[..i])
        invariant forall j :: 0 <= j < i ==> VectorsValid(start[names[j]])
        invariant MigratedUpTo(start, spaces, done, goal)
        invariant AllLogged(old(log), log, start, render)
      {
        SetOneMore(names, i);
        ok := Next(names[i], start, goal, done, render, old(log));
        if !ok {
          return;
        }
        done := done + {names[i]};
      }
      assert names[..|names|] == names;
      AllDone(start, spaces, done, goal, render);
      marker := FORMAT;
    }

    method Next(
      ns: Id, ghost start: Spaces, ghost goal: Spaces, ghost done: set<Id>, render: Printer, ghost before: seq<Spaces>)
      returns (ok: bool)
      requires ns in start && ns !in done && start[ns].vectors.Keys <= start[ns].texts.Keys
      requires Goal(start, goal, render)
      requires MigratedUpTo(start, spaces, done, goal) && AllLogged(before, log, start, render)
      modifies `spaces, `log
      ensures ok == VectorsValid(start[ns])
      ensures ok ==> MigratedUpTo(start, spaces, done + {ns}, goal)
      ensures Partly(start, spaces, render)
      ensures AllLogged(before, log, start, render)
    {
      ghost var mid, known := spaces, log;
      assert ns in mid && mid[ns] == start[ns] && GoalAt(start, goal, ns, render);
      var rows := Scan(spaces[ns].texts.Keys);
      ok := Namespace(ns, rows, render);
      if ok { UpToNext(start, mid, spaces, done, ns, goal); }
      LoggedPartly(start, mid, done, ns, goal, render, spaces);
      LoggedMore(before, known, log, start, mid, done, ns, goal, render);
    }
  }

  lemma UpToNext(a: Spaces, mid: Spaces, b: Spaces, done: set<Id>, ns: Id, goal: Spaces)
    requires MigratedUpTo(a, mid, done, goal) && ns in a && ns !in done
    requires b == mid[ns := goal[ns]]
    ensures MigratedUpTo(a, b, done + {ns}, goal)
  {}

  lemma LoggedMore(
    before: seq<Spaces>, known: seq<Spaces>, log: seq<Spaces>, a: Spaces, mid: Spaces, done: set<Id>, ns: Id,
    goal: Spaces, render: Printer)
    requires AllLogged(before, known, a, render) && Logged(known, log, mid, ns, render)
    requires Goal(a, goal, render) && MigratedUpTo(a, mid, done, goal) && ns in a && ns !in done
    ensures AllLogged(before, log, a, render)
  {
    forall i | |before| <= i < |log| ensures Partly(a, log[i], render) {
      if i < |known| {
        assert log[i] == log[..|known|][i];
      } else {
        LoggedPartly(a, mid, done, ns, goal, render, log[i]);
      }
    }
    assert log[..|before|] == log[..|known|][..|before|];
  }

  lemma GoalIsAll(a: Spaces, goal: Spaces, render: Printer)
    requires Goal(a, goal, render)
    ensures goal == AllMigrated(a, render)
  {
    forall ns | ns in a ensures goal[ns] == Migrated(a[ns], render) { assert GoalAt(a, goal, ns, render); }
  }

  lemma GoalIsPart(a: Spaces, goal: Spaces, render: Printer)
    requires Goal(a, goal, render)
    ensures Partly(a, goal, render)
  {
    forall ns | ns in a ensures PartlyMigrated(a[ns], goal[ns], render) { assert GoalAt(a, goal, ns, render); }
  }

  lemma DoneIsGoal(a: Spaces, b: Spaces, done: set<Id>, goal: Spaces)
    requires MigratedUpTo(a, b, done, goal) && done == a.Keys
    ensures b == goal
  {}

  lemma AllDone(a: Spaces, b: Spaces, done: set<Id>, goal: Spaces, render: Printer)
    requires Goal(a, goal, render) && MigratedUpTo(a, b, done, goal) && done == a.Keys
    ensures b == AllMigrated(a, render) && Partly(a, b, render)
  {
    DoneIsGoal(a, b, done, goal);
    GoalIsAll(a, goal, render);
    GoalIsPart(a, goal, render);
  }

  ghost function AllMigrated(a: Spaces, render: Printer): Spaces {
    map ns | ns in a :: Migrated(a[ns], render)
  }

  ghost predicate GoalAt(a: Spaces, goal: Spaces, ns: Id, render: Printer) {
    ns in a && ns in goal && goal[ns] == Migrated(a[ns], render)
  }

  /** What the run is to leave. */
  ghost predicate Goal(a: Spaces, goal: Spaces, render: Printer) {
    a.Keys == goal.Keys && forall ns {:trigger GoalAt(a, goal, ns, render)} :: ns in a ==> GoalAt(a, goal, ns, render)
  }

  lemma MakeGoal(a: Spaces, render: Printer) returns (goal: Spaces)
    ensures Goal(a, goal, render)
  {
    goal := AllMigrated(a, render);
  }

  /** Some namespaces are migrated, the others are as before. */
  ghost predicate MigratedUpTo(a: Spaces, b: Spaces, done: set<Id>, goal: Spaces) {
    && a.Keys == b.Keys == goal.Keys
    && forall ns :: ns in a ==> b[ns] == if ns in done then goal[ns] else a[ns]
  }

  lemma NoneYet(a: Spaces, render: Printer)
    ensures Partly(a, a, render)
  {
    forall ns | ns in a ensures PartlyMigrated(a[ns], a[ns], render) { NothingYet(a[ns], render); }
  }

  lemma LoggedPartly(a: Spaces, mid: Spaces, done: set<Id>, ns: Id, goal: Spaces, render: Printer, b: Spaces)
    requires Goal(a, goal, render) && MigratedUpTo(a, mid, done, goal)
    requires ns in a && ns !in done && PartlyAt(mid, b, ns, render)
    ensures Partly(a, b, render)
  {
    forall x | x in a ensures PartlyMigrated(a[x], b[x], render) {
      NothingYet(a[x], render);
      assert GoalAt(a, goal, x, render);
    }
  }

  /** Every durable state of a run is one at which it could have stopped. */
  ghost predicate AllLogged(before: seq<Spaces>, log: seq<Spaces>, a: Spaces, render: Printer) {
    && |before| <= |log| && log[..|before|] == before
    && forall i :: |before| <= i < |log| ==> Partly(a, log[i], render)
  }

  /** One document: refused when its vector is not valid, and otherwise read as it was before migration. */
  method Row(
    ghost original: Legacy, ghost ids: set<Id>, space: Legacy, pending: Pending, stats: Stats, id: Id,
    render: Printer)
    returns (ok: bool, newPending: Pending, newStats: Stats)
    requires Reached(original, render, ids, space, pending, stats) && id in original.texts && id !in ids
    ensures ok == ValidText(original, id)
    ensures Reached(original, render, ids + {id}, space, newPending, newStats)
  {
    ReachedStep(original, render, ids, space, pending, stats, id);
    var text := space.texts[id];
    ok := text.vector.Some? ==> space.schema.ValidVector(text.vector.value);
    newPending := WithDocument(pending, id, text, render);
    newStats := Counted(stats, DocumentBytes(space, id, render));
  }

  predicate ValidText(space: Legacy, id: Id) {
    id in space.texts && space.texts[id].vector.Some? ==> space.schema.ValidVector(space.texts[id].vector.value)
  }

  lemma AllRows(space: Legacy, rows: seq<Id>, i: nat)
    requires i == |rows| && (forall id :: id in rows <==> id in space.texts)
    requires forall j :: 0 <= j < i ==> ValidText(space, rows[j])
    ensures SetOf(rows[..i]) == space.texts.Keys && VectorsValid(space)
  {
    assert rows[..i] == rows;
    forall id | id in space.texts ensures ValidText(space, id) {
      var j :| 0 <= j < |rows| && rows[j] == id;
    }
  }

  lemma NotAllValid(space: Legacy, id: Id)
    requires id in space.texts
    ensures VectorsValid(space) ==> ValidText(space, id)
  {}

  lemma SetOneMore(rows: seq<Id>, i: nat)
    requires i < |rows| && Distinct(rows)
    ensures rows[i] !in SetOf(rows[..i]) && SetOf(rows[..i + 1]) == SetOf(rows[..i]) + {rows[i]}
  {
    PrefixStep(rows, i);
  }

  lemma NothingYet(original: Legacy, render: Printer)
    ensures PartlyMigrated(original, original, render)
  {
    ConvertedNone(original, render);
    assert {} <= original.texts.Keys && original == Converted(original, render, {});
  }

  /** One namespace is partly migrated, the others are as before. */
  ghost predicate PartlyAt(a: Spaces, b: Spaces, ns: Id, render: Printer) {
    && a.Keys == b.Keys
    && (ns in a ==> PartlyMigrated(a[ns], b[ns], render))
    && forall x :: x in a && x != ns ==> b[x] == a[x]
  }

  /** Every durable state since is like that. */
  ghost predicate Logged(before: seq<Spaces>, log: seq<Spaces>, a: Spaces, ns: Id, render: Printer) {
    && |before| <= |log| && log[..|before|] == before
    && forall i :: |before| <= i < |log| ==> PartlyAt(a, log[i], ns, render)
  }
}
