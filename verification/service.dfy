/** The engine as its callers see it when nothing else runs: each operation from start to end, batch by
    batch. What other operations, and crashes, can do between two batches is the subject of Lifecycle. */
module Service {
  import opened Order
  import opened Wrappers
  import opened Model
  import opened Keys
  import opened Index
  import opened Store
  import opened Engine
  import opened Builder
  import opened Upkeep

  datatype CreateError = BadConfig | Conflict

  /** The rows of a scan. */
  method Scan<K>(keys: set<K>) returns (rows: seq<K>)
    ensures forall k :: k in rows <==> k in keys
    ensures Distinct(rows)
  {
    rows := [];
    var rest := keys;
    while rest != {}
      invariant rest <= keys
      invariant forall k :: k in rows <==> k in keys && k !in rest
      invariant Distinct(rows)
      decreases |rest|
    {
      var k :| k in rest;
      rows, rest := rows + [k], rest - {k};
    }
  }

  /** Why an index build stores nothing. */
  datatype BuildError = Missing | InputLimit | OutputLimit

  /** The database with its quotas, between requests. Deletion is the subject of Erasure. */
  class Database {
    var spaces: Store.Database
    const limits: Limits

    /** Every namespace is sound: counters say what the keys say, no vector lacks its document, everything stored
        is valid, and a namespace without a definition holds nothing. */
    ghost predicate Valid()
      reads this
    {
      forall ns {:trigger At(spaces, ns)} :: Sound(At(spaces, ns))
    }

    constructor (limits: Limits)
      ensures Valid() && spaces == map[] && this.limits == limits
    {
      spaces := map[];
      this.limits := limits;
    }

    /** A batch of upserts and deletions: all of it, or an error and nothing. */
    method Write(ns: Id, request: WriteRequest) returns (r: Result<WriteResult, WriteError>)
      requires Valid() && FromJson(Ops(request))
      modifies this
      ensures Valid()
      ensures r.Ok? <==> ValidId(ns) && Admissible(old(At(spaces, ns)), Ops(request), limits)
      ensures r.Err? ==> spaces == old(spaces) && r.error == Refusal(ns, old(At(spaces, ns)), Ops(request))
      ensures r.Ok? ==> spaces == old(spaces[ns := Written(At(spaces, ns), Ops(request))])
      ensures r.Ok? ==> r.value.upserted == |request.upsert| && r.value.deleted == |request.delete|
      ensures r.Ok? ==> r.value.revision == old(At(spaces, ns).StatsOrZero().revision) + 1
    {
      var ops := Ops(request);
      var named := CheckNames(ns, ops);
      if !named {
        return Err(Invalid);
      }
      var next := Accept(ns, At(spaces, ns), ops, limits);
      if next.Err? {
        return Err(next.error);
      }
      WriteKeepsSound(At(spaces, ns), ops, limits);
      r := Ok(WriteResult(|request.upsert|, |request.delete|, At(spaces, ns).StatsOrZero().revision + 1));
      Commit(ns, next.value);
    }

    /** Create a namespace, or find it with the same configuration. */
    method CreateNamespace(ns: Id, schema: Schema) returns (r: Result<Schema, CreateError>)
      requires Valid()
      modifies this
      ensures Valid()
      ensures r.Ok? ==> ValidId(ns) && r.value == schema && At(spaces, ns).schema == Some(schema)
      ensures r == Err(BadConfig) <==> !ValidId(ns) || !schema.Valid()
      ensures r == Err(Conflict) <==>
                && ValidId(ns) && schema.Valid()
                && old(At(spaces, ns)).schema.Some? && old(At(spaces, ns)).schema != Some(schema)
      ensures r.Ok? && old(At(spaces, ns)).schema.None? ==> spaces == old(spaces[ns := EMPTY.(schema := Some(schema))])
      ensures r.Err? || old(At(spaces, ns)).schema.Some? ==> spaces == old(spaces)
    {
      if !ValidId(ns) || !schema.Valid() {
        return Err(BadConfig);
      }
      var space := At(spaces, ns);
      if space.schema.Some? {
        return if space.schema.value == schema then Ok(schema) else Err(Conflict);
      }
      CreatedSound(schema);
      Commit(ns, space.(schema := Some(schema)));
      r := Ok(schema);
    }

    /** Resume the cleanup that a marker asks for. */
    method ResumeCleanup(ns: Id)
      requires Valid()
      modifies this
      ensures Valid() && OnlyAt(old(spaces), spaces, ns)
      ensures old(At(spaces, ns)).cleanup ==> CleanedUp(old(At(spaces, ns)).(cleanup := false), At(spaces, ns))
      ensures !old(At(spaces, ns)).cleanup ==> spaces == old(spaces)
    {
      if At(spaces, ns).cleanup {
        ghost var before := At(spaces, ns);
        Cleanup(ns);
        CleanedSound(before, At(spaces, ns));
        Commit(ns, At(spaces, ns).(cleanup := false));
      }
    }

    /** Retire every other generation, then every change record the active one has caught up with. */
    method Cleanup(ns: Id)
      requires At(spaces, ns).StatsOrZero().pending == |At(spaces, ns).changes|
      modifies this
      ensures OnlyAt(old(spaces), spaces, ns)
      ensures CleanedUp(old(At(spaces, ns)), At(spaces, ns))
    {
      Sweep(ns);
      Retire(ns);
    }

    method Sweep(ns: Id)
      modifies this
      ensures OnlyAt(old(spaces), spaces, ns)
      ensures At(spaces, ns) == old(At(spaces, ns)).(generations := ActiveRows(old(At(spaces, ns))))
    {
      var space := At(spaces, ns);
      var batches := SweepPlan(space);
      for i := 0 to |batches|
        invariant OnlyAt(old(spaces), spaces, ns)
        invariant At(spaces, ns) == Swept(space, Concat(batches[..i]))
      {
        PrefixStep(batches, i);
        ConcatOneMore(batches[..i], batches[i]);
        SweptTwice(space, Concat(batches[..i]), batches[i]);
        spaces := spaces[ns := Swept(At(spaces, ns), batches[i])];
      }
      assert batches[..|batches|] == batches;
    }

    method Retire(ns: Id)
      requires At(spaces, ns).StatsOrZero().pending == |At(spaces, ns).changes|
      modifies this
      ensures OnlyAt(old(spaces), spaces, ns)
      ensures var a, b := old(At(spaces, ns)), At(spaces, ns);
              && b == a.(changes := Newer(a.changes, Active(a).revision), stats := b.stats)
              && b.StatsOrZero() == a.StatsOrZero().(pending := |b.changes|)
    {
      var space := At(spaces, ns);
      var revision := Active(space).revision;
      var rows := Scan(space.changes.Keys);
      var ids := StaleIds(rows, space.changes, revision);
      assert space.changes - SetOf(ids[..0]) == space.changes;
      var i := 0;
      while i < |ids|
        invariant i <= |ids|
        invariant OnlyAt(old(spaces), spaces, ns)
        invariant RetiredUpTo(space, At(spaces, ns), ids[..i])
      {
        var end := if i + CHUNK <= |ids| then i + CHUNK else |ids|;
        var next := RetireNext(space, At(spaces, ns), ids, i, end, revision);
        spaces := spaces[ns := next];
        i := end;
      }
      RetiredAll(space, At(spaces, ns), ids, i, revision);
    }

    /** Build a generation from the documents, store it in batches, publish it, retire the rest. An error comes
        before anything is stored. */
    method RebuildIndex(
      ns: Id, order: seq<Id>, nearest: map<Id, nat>, centroids: seq<Vector>, generation: Id, size: Entry -> nat,
      maxBytes: nat, u: Unicode)
      returns (r: Result<Status, BuildError>)
      requires Valid() && forall e :: size(e) > 0
      requires forall p :: p in At(spaces, ns).generations ==> p.0 != generation
      requires Enumerates(order, At(spaces, ns).docs.Keys)
      requires nearest.Keys == At(spaces, ns).vectors.Keys && forall id :: id in nearest ==> nearest[id] < |centroids|
      modifies this
      ensures Valid() && OnlyAt(old(spaces), spaces, ns)
      ensures r == Err(Missing) <==> old(At(spaces, ns)).schema.None?
      ensures r == Err(InputLimit) <==>
                old(At(spaces, ns)).schema.Some? && BuildInput(old(At(spaces, ns)), order) > maxBytes / 8
      ensures r.Err? ==> spaces == old(spaces)
      ensures r == Err(OutputLimit) ==>
                exists status, entries: seq<Entry> ::
                  && BuiltIndex(old(At(spaces, ns)), status, AsMap(entries), generation, u)
                  && SizeOf(entries, size) > maxBytes
      ensures r.Ok? ==>
                && Rebuilt(old(At(spaces, ns)), At(spaces, ns), r.value, generation)
                && BuiltIndex(old(At(spaces, ns)), r.value, At(spaces, ns).EntriesOf(generation), generation, u)
    {
      ghost var before := At(spaces, ns);
      if At(spaces, ns).schema.None? {
        return Err(Missing);
      }
      var input := MeasureInput(At(spaces, ns), order);
      if input > maxBytes / 8 {
        return Err(InputLimit);
      }
      var status, entries := BuildSpace(At(spaces, ns), order, nearest, centroids, generation, u);
      if SizeOf(entries, size) > maxBytes {
        return Err(OutputLimit);
      }
      Replace(ns, status, entries, size);
      RebuiltSound(before, At(spaces, ns), status, generation);
      OthersSound(old(spaces), spaces, ns);
      r := Ok(status);
    }

    /** One durable batch. */
    method Commit(ns: Id, space: Space)
      modifies this
      ensures spaces == old(spaces[ns := space])
      ensures OnlyAt(old(spaces), spaces, ns) && At(spaces, ns) == space
      ensures old(Valid()) && Sound(space) ==> Valid()
    {
      spaces := spaces[ns := space];
    }

    /** From the first marker to the last: staging, publication, cleanup. */
    method Replace(ns: Id, status: Status, entries: seq<Entry>, size: Entry -> nat)
      requires PendingKnown(At(spaces, ns)) && forall e :: size(e) > 0
      requires forall p :: p in At(spaces, ns).generations ==> p.0 != status.generation
      requires status.revision == At(spaces, ns).StatsOrZero().revision
      modifies this
      ensures OnlyAt(old(spaces), spaces, ns)
      ensures Rebuilt(old(At(spaces, ns)), At(spaces, ns), status, status.generation)
      ensures At(spaces, ns).EntriesOf(status.generation) == AsMap(entries)
    {
      ghost var before := At(spaces, ns);
      Commit(ns, At(spaces, ns).(cleanup := true));
      StageAll(ns, status.generation, entries, size);
      Commit(ns, At(spaces, ns).(index := Some(status)));
      ghost var published := At(spaces, ns);
      Cleanup(ns);
      RebuiltByCleanup(before, published, At(spaces, ns), status, status.generation, AsMap(entries));
      assert Rebuilt(before, At(spaces, ns).(cleanup := false), status, status.generation);
      Commit(ns, At(spaces, ns).(cleanup := false));
    }

    method StageAll(ns: Id, generation: Id, entries: seq<Entry>, size: Entry -> nat)
      requires (forall e :: size(e) > 0) && Holds(At(spaces, ns), generation, map[])
      modifies this
      ensures OnlyAt(old(spaces), spaces, ns)
      ensures At(spaces, ns) == old(At(spaces, ns)).(generations := At(spaces, ns).generations)
      ensures Holds(At(spaces, ns), generation, AsMap(entries))
    {
      var batches := StageBatches(entries, size);
      for i := 0 to |batches|
        invariant OnlyAt(old(spaces), spaces, ns)
        invariant At(spaces, ns) == old(At(spaces, ns)).(generations := At(spaces, ns).generations)
        invariant Holds(At(spaces, ns), generation, AsMap(Concat(batches[..i])))
      {
        StagesOneMore(At(spaces, ns), generation, batches, i);
        Commit(ns, Staged(At(spaces, ns), generation, batches[i]));
      }
      assert batches[..|batches|] == batches;
    }
  }

  lemma StagesOneMore(space: Space, generation: Id, batches: seq<seq<Entry>>, i: nat)
    requires i < |batches| && Holds(space, generation, AsMap(Concat(batches[..i])))
    ensures Holds(Staged(space, generation, batches[i]), generation, AsMap(Concat(batches[..i + 1])))
  {
    PrefixStep(batches, i);
    ConcatOneMore(batches[..i], batches[i]);
    AsMapConcat(Concat(batches[..i]), batches[i]);
    StagedHere(space, generation, AsMap(Concat(batches[..i])), batches[i]);
  }

  /** A complete index of a space at its revision. */
  ghost predicate BuiltIndex(space: Space, status: Status, m: Entries, generation: Id, u: Unicode) {
    && space.schema.Some?
    && status.generation == generation && status.revision == space.StatsOrZero().revision
    && status.documents == |space.docs| && status.vectors == |space.vectors|
    && Faithful(status, m, space.View(), u, space.schema.value)
  }

  method BuildSpace(
    space: Space, order: seq<Id>, nearest: map<Id, nat>, centroids: seq<Vector>, generation: Id, u: Unicode)
    returns (status: Status, entries: seq<Entry>)
    requires space.schema.Some? && Sound(space) && Enumerates(order, space.docs.Keys)
    requires nearest.Keys == space.vectors.Keys && forall id :: id in nearest ==> nearest[id] < |centroids|
    ensures BuiltIndex(space, status, AsMap(entries), generation, u)
  {
    assert space.View().docs.Keys == space.docs.Keys;
    assert |space.View().docs| == |space.View().docs.Keys|;
    status, entries := Build(
      space.View(), order, space.schema.value, u, space.StatsOrZero().revision, generation, nearest, centroids);
  }

  /** Bytes that a build reads: texts, vectors as numbers of four bytes, and 256 for each document. */
  function BuildInput(space: Space, order: seq<Id>): nat {
    if order == [] then 0 else
      var id := order[|order| - 1];
      BuildInput(space, order[..|order| - 1])
      + (if id in space.docs then space.docs[id].size else 0)
      + (if id in space.vectors then 4 * |space.vectors[id]| else 0) + 256
  }

  method MeasureInput(space: Space, order: seq<Id>) returns (bytes: nat)
    requires forall id :: id in order ==> id in space.docs
    ensures bytes == BuildInput(space, order)
  {
    bytes := 0;
    for i := 0 to |order|
      invariant bytes == BuildInput(space, order[..i])
    {
      PrefixStep(order, i);
      var id := order[i];
      bytes := bytes + space.docs[id].size + (if id in space.vectors then 4 * |space.vectors[id]| else 0) + 256;
    }
    assert order[..|order|] == order;
  }

  /** The new index is alone, complete and up to date: no other generation and no pending change is left. */
  ghost predicate Rebuilt(a: Space, b: Space, status: Status, generation: Id) {
    && status.generation == generation && status.revision == a.StatsOrZero().revision
    && b == a.(index := Some(status), generations := b.generations, changes := map[], stats := b.stats,
               cleanup := false)
    && b.StatsOrZero() == a.StatsOrZero().(pending := 0)
    && forall p :: p in b.generations ==> p.0 == generation
  }

  /** What soundness says about change records. */
  ghost predicate PendingKnown(space: Space) {
    && space.StatsOrZero().pending == |space.changes|
    && forall id :: id in space.changes ==> space.changes[id] <= space.StatsOrZero().revision
  }

  lemma CreatedSound(schema: Schema)
    ensures Sound(EMPTY.(schema := Some(schema)))
  {
    assert DocSizes(map[]) == map[] && VectorSizes(map[]) == map[];
  }

  /** Cleanup takes nothing that the counters or the documents need. */
  lemma CleanedSound(a: Space, b: Space)
    requires Sound(a) && a.schema.Some? && CleanedUp(a, b)
    ensures Sound(b) && Sound(b.(cleanup := false))
  {}

  lemma RebuiltSound(a: Space, b: Space, status: Status, generation: Id)
    requires Sound(a) && a.schema.Some? && Rebuilt(a, b, status, generation)
    ensures Sound(b)
  {}

  lemma OthersSound(a: Store.Database, b: Store.Database, ns: Id)
    requires (forall m {:trigger At(a, m)} :: Sound(At(a, m))) && OnlyAt(a, b, ns) && Sound(At(b, ns))
    ensures forall m {:trigger At(b, m)} :: Sound(At(b, m))
  {
    forall m ensures Sound(At(b, m)) {
      if m != ns { assert At(a, m) == At(b, m); }
    }
  }

  lemma RebuiltByCleanup(
    before: Space, published: Space, cleaned: Space, status: Status, generation: Id, m: Entries)
    requires PendingKnown(before) && CleanedUp(published, cleaned) && Holds(published, generation, m)
    requires status.generation == generation && status.revision == before.StatsOrZero().revision
    requires published == before.(index := Some(status), generations := published.generations, cleanup := true)
    ensures Rebuilt(before, cleaned.(cleanup := false), status, generation)
    ensures cleaned.(cleanup := false).EntriesOf(generation) == m
  {
    assert Newer(published.changes, status.revision) == map[];
    var next := cleaned.(cleanup := false);
    forall k: EntryKey
      ensures Look(next.generations, (generation, k)) == Look(m, k)
    {
      assert Look(published.generations, (generation, k)) == Look(m, k);
    }
    HoldsEntries(next, generation, m);
  }

  ghost predicate OnlyAt(a: Store.Database, b: Store.Database, ns: Id) {
    forall m :: m != ns ==> At(a, m) == At(b, m)
  }

  function ActiveRows(space: Space): map<GenerationRow, Content> {
    map p | p in space.generations && p.0 == Active(space).generation :: space.generations[p]
  }

  function Newer(changes: map<Id, nat>, revision: nat): map<Id, nat> {
    map id | id in changes && changes[id] > revision :: changes[id]
  }

  /** Exactly the leftovers are gone, and the counter of pending changes says what is left. */
  ghost predicate CleanedUp(a: Space, b: Space) {
    && b == a.(generations := ActiveRows(a), changes := Newer(a.changes, Active(a).revision), stats := b.stats)
    && b.StatsOrZero() == a.StatsOrZero().(pending := |b.changes|)
  }

  lemma SweptTwice(space: Space, a: seq<GenerationRow>, b: seq<GenerationRow>)
    ensures Swept(Swept(space, a), b) == Swept(space, a + b)
  {
    assert (set p | p in a + b) == (set p | p in a) + (set p | p in b);
    assert Swept(Swept(space, a), b).generations == Swept(space, a + b).generations;
  }

  method SweepPlan(space: Space) returns (batches: seq<seq<GenerationRow>>)
    ensures Swept(space, Concat(batches)) == space.(generations := ActiveRows(space))
    ensures forall b :: b in batches ==> 1 <= |b| <= CHUNK
  {
    var rows := ScanRows(space.generations);
    batches := SweepBatches(rows, Active(space).generation);
    SweptAll(space, rows);
  }

  method ScanRows(generations: map<GenerationRow, Content>) returns (rows: seq<GenerationRow>)
    ensures forall p :: p in rows <==> p in generations.Keys
  {
    rows := Scan(generations.Keys);
  }

  lemma SweptAll(space: Space, rows: seq<GenerationRow>)
    requires forall p :: p in rows <==> p in space.generations.Keys
    ensures Swept(space, Garbage(rows, Active(space).generation)) == space.(generations := ActiveRows(space))
  {
    var garbage := Garbage(rows, Active(space).generation);
    forall p ensures p in garbage <==> p in rows && p.0 != Active(space).generation {
      GarbageMember(rows, Active(space).generation, p);
    }
    assert Swept(space, garbage).generations == ActiveRows(space);
  }

  ghost predicate RetiredUpTo(a: Space, b: Space, ids: seq<Id>) {
    && b == a.(changes := a.changes - SetOf(ids), stats := b.stats)
    && b.StatsOrZero() == a.StatsOrZero().(pending := |b.changes|)
  }

  lemma RetiredAll(a: Space, b: Space, ids: seq<Id>, i: nat, revision: nat)
    requires i == |ids| && RetiredUpTo(a, b, ids[..i])
    requires forall id :: id in ids <==> id in a.changes && a.changes[id] <= revision
    ensures b == a.(changes := Newer(a.changes, revision), stats := b.stats)
  {
    assert ids[..i] == ids;
    assert a.changes - SetOf(ids) == Newer(a.changes, revision);
  }

  method RetireNext(ghost a: Space, b: Space, ids: seq<Id>, i: nat, end: nat, revision: nat) returns (next: Space)
    requires i <= end <= |ids| && RetiredUpTo(a, b, ids[..i])
    requires Distinct(ids)
    requires forall id :: id in ids ==> id in a.changes && a.changes[id] <= revision
    ensures RetiredUpTo(a, next, ids[..end])
  {
    assert ids[..i] + ids[i..end] == ids[..end];
    DistinctSlice(ids, i, end);
    RetiresMore(a, b, ids[..i], ids[i..end], revision);
    next := RetireChunk(b, ids[i..end], revision);
  }

  lemma OutdatedChunk(changes: map<Id, nat>, done: seq<Id>, ids: seq<Id>, revision: nat)
    requires forall id :: id in ids ==> id in changes && changes[id] <= revision && id !in done
    ensures Outdated(changes - SetOf(done), ids, revision) == SetOf(ids)
    ensures changes - SetOf(done) - SetOf(ids) == changes - SetOf(done + ids)
  {
    assert SetOf(done + ids) == SetOf(done) + SetOf(ids);
  }

  lemma RetiresMore(a: Space, b: Space, done: seq<Id>, ids: seq<Id>, revision: nat)
    requires RetiredUpTo(a, b, done)
    requires forall id :: id in ids ==> id in a.changes && a.changes[id] <= revision && id !in done
    ensures RetiredUpTo(a, Retired(b, ids, revision), done + ids)
  {
    OutdatedChunk(a.changes, done, ids, revision);
    OutdatedCounted(b.changes, ids, revision);
  }
}
