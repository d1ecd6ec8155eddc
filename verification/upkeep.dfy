/** Background work on one namespace: staging a generation, retiring what it replaces, erasing. Each
    function here is one durable batch, or one pass of batches over a scan. */
module Upkeep {
  import opened Order
  import opened Wrappers
  import opened Numbers
  import opened Model
  import opened Keys
  import opened Index
  import opened Store
  import opened Builder

  const CHUNK: nat := 1000
  const STAGE_BYTES: nat := 1024 * 1024

  const NO_INDEX: Status := Status([], 0, 0, 0, [], [], map[])

  type GenerationRow = (Id, EntryKey)

  /** The published generation, or the default one that owns no key. */
  function Active(space: Space): Status {
    if space.index.Some? then space.index.value else NO_INDEX
  }

  /** The entries of a batch, put in order under a generation. */
  function PutAll(rows: map<GenerationRow, Content>, generation: Id, batch: seq<Entry>): map<GenerationRow, Content> {
    if batch == [] then rows else
      var last := batch[|batch| - 1];
      PutAll(rows, generation, batch[..|batch| - 1])[(generation, last.0) := last.1]
  }

  function Staged(space: Space, generation: Id, batch: seq<Entry>): Space {
    space.(generations := PutAll(space.generations, generation, batch))
  }

  function Swept(space: Space, rows: seq<GenerationRow>): Space {
    space.(generations := space.generations - (set p | p in rows))
  }

  /** The change records of a chunk that are still as old as the published generation. */
  function Outdated(changes: map<Id, nat>, ids: seq<Id>, revision: nat): set<Id> {
    set id | id in ids && id in changes && changes[id] <= revision
  }

  /** Subtraction of 64-bit counters. */
  function Minus(a: nat, b: nat): nat {
    if a >= b then a - b else (a - b) % TWO64
  }

  /** One chunk of change records leaves together with their count. */
  function Retired(space: Space, ids: seq<Id>, revision: nat): Space {
    var gone := Outdated(space.changes, ids, revision);
    var stats := space.StatsOrZero();
    space.(changes := space.changes - gone, stats := Some(stats.(pending := Minus(stats.pending, |gone|))))
  }

  // ---------------------------------------------------------------------------------------------
  // What staging leaves under a generation

  function Look<K, V>(m: map<K, V>, k: K): Option<V> {
    if k in m then Some(m[k]) else None
  }

  /** The keys of a generation are these entries. */
  ghost predicate Holds(space: Space, generation: Id, m: Entries) {
    forall k: EntryKey {:trigger Look(space.generations, (generation, k))} ::
      Look(space.generations, (generation, k)) == Look(m, k)
  }

  lemma HoldsEntries(space: Space, generation: Id, m: Entries)
    requires Holds(space, generation, m)
    ensures space.EntriesOf(generation) == m
  {
    var held := space.EntriesOf(generation);
    forall k ensures k in held <==> k in m ensures k in held ==> held[k] == m[k] {
      EntryOf(space, generation, k);
      assert Look(space.generations, (generation, k)) == Look(m, k);
    }
  }

  lemma EntryOf(space: Space, generation: Id, k: EntryKey)
    ensures k in space.EntriesOf(generation) <==> (generation, k) in space.generations
    ensures k in space.EntriesOf(generation) ==> space.EntriesOf(generation)[k] == space.generations[(generation, k)]
  {}

  lemma {:induction false} PutAllLook(
    rows: map<GenerationRow, Content>, generation: Id, batch: seq<Entry>, p: GenerationRow)
    ensures Look(PutAll(rows, generation, batch), p) ==
            if p.0 == generation && p.1 in AsMap(batch) then Look(AsMap(batch), p.1) else Look(rows, p)
  {
    if batch != [] {
      PutAllLook(rows, generation, batch[..|batch| - 1], p);
      assert (generation, batch[|batch| - 1].0) == p <==> generation == p.0 && batch[|batch| - 1].0 == p.1;
    }
  }

  lemma StagedHere(space: Space, generation: Id, before: Entries, batch: seq<Entry>)
    requires Holds(space, generation, before)
    ensures Holds(Staged(space, generation, batch), generation, before + AsMap(batch))
  {
    forall k: EntryKey
      ensures Look(Staged(space, generation, batch).generations, (generation, k)) == Look(before + AsMap(batch), k)
    {
      PutAllLook(space.generations, generation, batch, (generation, k));
      assert Look(space.generations, (generation, k)) == Look(before, k);
    }
  }

  // ---------------------------------------------------------------------------------------------
  // The loops

  lemma DistinctSlice<T>(s: seq<T>, i: nat, end: nat)
    requires i <= end <= |s| && Distinct(s)
    ensures Distinct(s[i..end])
    ensures forall x :: x in s[i..end] ==> x in s && x !in s[..i]
  {}

  function Concat<T>(batches: seq<seq<T>>): seq<T> {
    if batches == [] then [] else Concat(batches[..|batches| - 1]) + batches[|batches| - 1]
  }

  lemma ConcatOneMore<T>(batches: seq<seq<T>>, batch: seq<T>)
    ensures Concat(batches + [batch]) == Concat(batches) + batch
  {
    assert (batches + [batch])[..|batches|] == batches;
  }

  function Garbage(rows: seq<GenerationRow>, active: Id): seq<GenerationRow> {
    if rows == [] then [] else
      var p := rows[|rows| - 1];
      Garbage(rows[..|rows| - 1], active) + if p.0 != active then [p] else []
  }

  lemma {:induction false} GarbageMember(rows: seq<GenerationRow>, active: Id, p: GenerationRow)
    ensures p in Garbage(rows, active) <==> p in rows && p.0 != active
  {
    if rows != [] {
      GarbageMember(rows[..|rows| - 1], active, p);
      assert rows == rows[..|rows| - 1] + [rows[|rows| - 1]];
    }
  }

  /** Batches of at most 1000 deletions that retire every other generation and nothing else. */
  method SweepBatches(rows: seq<GenerationRow>, active: Id) returns (batches: seq<seq<GenerationRow>>)
    ensures Concat(batches) == Garbage(rows, active)
    ensures forall b :: b in batches ==> 1 <= |b| <= CHUNK
  {
    batches := [];
    var batch: seq<GenerationRow> := [];
    for i := 0 to |rows|
      invariant |batch| < CHUNK && forall b :: b in batches ==> 1 <= |b| <= CHUNK
      invariant Concat(batches) + batch == Garbage(rows[..i], active)
    {
      PrefixStep(rows, i);
      if rows[i].0 != active {
        batch := batch + [rows[i]];
      }
      if |batch| == CHUNK {
        ConcatOneMore(batches, batch);
        batches := batches + [batch];
        batch := [];
      }
    }
    assert rows[..|rows|] == rows;
    if |batch| > 0 {
      ConcatOneMore(batches, batch);
      batches := batches + [batch];
    }
  }

  function SizeOf<T>(rows: seq<T>, size: T -> nat): nat {
    if rows == [] then 0 else SizeOf(rows[..|rows| - 1], size) + size(rows[|rows| - 1])
  }

  /** No batch goes on after 1 MiB. */
  ghost predicate Small<T>(batch: seq<T>, size: T -> nat) {
    batch != [] && SizeOf(batch[..|batch| - 1], size) < STAGE_BYTES
  }

  /** A batch that was closed as soon as it held 1 MiB. */
  ghost predicate Full<T>(batch: seq<T>, size: T -> nat) {
    Small(batch, size) && SizeOf(batch, size) >= STAGE_BYTES
  }

  /** Batches of a build: in order, complete, and cut at the first entry that reaches 1 MiB. Keys are
      never empty, so the last batch is written when it holds anything. */
  method StageBatches(entries: seq<Entry>, size: Entry -> nat) returns (batches: seq<seq<Entry>>)
    requires forall e :: e in entries ==> size(e) > 0
    ensures Concat(batches) == entries
    ensures forall i :: 0 <= i < |batches| - 1 ==> Full(batches[i], size)
    ensures batches != [] ==> Small(batches[|batches| - 1], size)
  {
    batches := [];
    var batch: seq<Entry>, bytes: nat := [], 0;
    BatchedNothing(entries, size);
    for i := 0 to |entries|
      invariant Batched(entries[..i], batches, batch, bytes, size)
    {
      PositiveSize(entries, i, size);
      BatchOneMore(entries, i, batches, batch, bytes, size);
      batch, bytes := batch + [entries[i]], bytes + size(entries[i]);
      if bytes >= STAGE_BYTES {
        batches := batches + [batch];
        batch, bytes := [], 0;
      }
    }
    assert entries[..|entries|] == entries;
    BatchedAll(entries, batches, batch, bytes, size);
    if bytes > 0 {
      batches := batches + [batch];
    }
  }

  lemma PositiveSize(entries: seq<Entry>, i: nat, size: Entry -> nat)
    requires i < |entries| && forall e :: e in entries ==> size(e) > 0
    ensures size(entries[i]) > 0
  {
    assert entries[i] in entries;
  }

  ghost predicate AllFull(batches: seq<seq<Entry>>, size: Entry -> nat) {
    forall j :: 0 <= j < |batches| ==> Full(batches[j], size)
  }

  /** Closed batches and the open one hold the entries so far. */
  ghost predicate Batched(
    entries: seq<Entry>, batches: seq<seq<Entry>>, batch: seq<Entry>, bytes: nat, size: Entry -> nat)
  {
    && Concat(batches) + batch == entries
    && bytes == SizeOf(batch, size) < STAGE_BYTES && (batch != [] ==> bytes > 0)
    && AllFull(batches, size)
  }

  lemma BatchedNothing(entries: seq<Entry>, size: Entry -> nat)
    ensures Batched(entries[..0], [], [], 0, size)
  {}

  lemma BatchOneMore(
    entries: seq<Entry>, i: nat, batches: seq<seq<Entry>>, batch: seq<Entry>, bytes: nat, size: Entry -> nat)
    requires i < |entries| && Batched(entries[..i], batches, batch, bytes, size) && size(entries[i]) > 0
    ensures var longer, more := batch + [entries[i]], bytes + size(entries[i]);
            if more >= STAGE_BYTES then Batched(entries[..i + 1], batches + [longer], [], 0, size)
            else Batched(entries[..i + 1], batches, longer, more, size)
  {
    var longer := batch + [entries[i]];
    PrefixStep(entries, i);
    assert longer[..|batch|] == batch;
    assert Concat(batches) + longer == entries[..i + 1];
    ConcatOneMore(batches, longer);
    assert Concat(batches + [longer]) + [] == Concat(batches + [longer]);
  }

  lemma BatchedAll(
    entries: seq<Entry>, batches: seq<seq<Entry>>, batch: seq<Entry>, bytes: nat, size: Entry -> nat)
    requires Batched(entries, batches, batch, bytes, size)
    ensures var all := if bytes > 0 then batches + [batch] else batches;
            && Concat(all) == entries
            && (forall i :: 0 <= i < |all| - 1 ==> Full(all[i], size))
            && (all != [] ==> Small(all[|all| - 1], size))
  {
    if bytes > 0 {
      BelowWhole(batch, size);
      ConcatOneMore(batches, batch);
    } else {
      assert Concat(batches) + [] == Concat(batches);
    }
  }

  lemma BelowWhole<T>(rows: seq<T>, size: T -> nat)
    requires rows != [] && SizeOf(rows, size) < STAGE_BYTES
    ensures Small(rows, size)
  {}

  /** The IDs of a scan whose change records the published generation has caught up with. */
  method StaleIds(rows: seq<Id>, changes: map<Id, nat>, revision: nat) returns (ids: seq<Id>)
    requires forall id :: id in rows <==> id in changes
    requires Distinct(rows)
    ensures forall id :: id in ids <==> id in changes && changes[id] <= revision
    ensures Distinct(ids)
  {
    ids := [];
    for i := 0 to |rows|
      invariant forall id :: id in ids <==> id in rows[..i] && changes[id] <= revision
      invariant Distinct(ids)
    {
      PrefixStep(rows, i);
      assert rows[i] in rows && rows[i] !in rows[..i];
      if changes[rows[i]] <= revision {
        ids := ids + [rows[i]];
      }
    }
    assert rows[..|rows|] == rows;
  }

  lemma OutdatedOneMore(changes: map<Id, nat>, ids: seq<Id>, i: nat, revision: nat)
    requires i < |ids| && Distinct(ids)
    ensures ids[i] !in Outdated(changes, ids[..i], revision)
    ensures Outdated(changes, ids[..i + 1], revision) ==
            Outdated(changes, ids[..i], revision) +
            if ids[i] in changes && changes[ids[i]] <= revision then {ids[i]} else {}
  {
    PrefixStep(ids, i);
  }

  lemma OutdatedCounted(changes: map<Id, nat>, ids: seq<Id>, revision: nat)
    ensures |Outdated(changes, ids, revision)| <= |changes|
    ensures |changes - Outdated(changes, ids, revision)| == |changes| - |Outdated(changes, ids, revision)|
  {
    var gone := Outdated(changes, ids, revision);
    assert (changes - gone).Keys == changes.Keys - gone && gone <= changes.Keys;
    assert |changes.Keys - gone| == |changes.Keys| - |gone| by { Partition(changes.Keys, gone); }
  }

  lemma Partition<T>(all: set<T>, part: set<T>)
    requires part <= all
    ensures |all| == |part| + |all - part|
  {
    assert all == part + (all - part);
  }

  /** One chunk, under the schema lock. The counter never goes below zero. */
  method RetireChunk(current: Space, ids: seq<Id>, revision: nat) returns (next: Space)
    requires current.StatsOrZero().pending == |current.changes|
    requires Distinct(ids)
    ensures next == Retired(current, ids, revision)
    ensures next.stats.Some? && next.stats.value.pending == |next.changes|
  {
    var stats := current.StatsOrZero();
    var batch: set<Id> := {};
    for i := 0 to |ids|
      invariant Retiring(current, ids[..i], revision, batch, stats)
    {
      RetiringOneMore(current, ids, i, revision, batch, stats);
      if ids[i] in current.changes && current.changes[ids[i]] <= revision {
        batch, stats := batch + {ids[i]}, stats.(pending := stats.pending - 1);
      }
    }
    assert ids[..|ids|] == ids;
    RetiringAll(current, ids, revision, batch, stats);
    next := current.(changes := current.changes - batch, stats := Some(stats));
  }

  ghost predicate Retiring(current: Space, ids: seq<Id>, revision: nat, batch: set<Id>, stats: Stats) {
    && batch == Outdated(current.changes, ids, revision)
    && stats.pending + |batch| == |current.changes|
    && stats == current.StatsOrZero().(pending := stats.pending)
  }

  lemma RetiringOneMore(current: Space, ids: seq<Id>, i: nat, revision: nat, batch: set<Id>, stats: Stats)
    requires i < |ids| && Distinct(ids) && Retiring(current, ids[..i], revision, batch, stats)
    ensures if ids[i] in current.changes && current.changes[ids[i]] <= revision then
              stats.pending > 0
              && Retiring(current, ids[..i + 1], revision, batch + {ids[i]}, stats.(pending := stats.pending - 1))
            else
              Retiring(current, ids[..i + 1], revision, batch, stats)
  {
    OutdatedOneMore(current.changes, ids, i, revision);
    OutdatedCounted(current.changes, ids[..i + 1], revision);
  }

  lemma RetiringAll(current: Space, ids: seq<Id>, revision: nat, batch: set<Id>, stats: Stats)
    requires current.StatsOrZero().pending == |current.changes| && Retiring(current, ids, revision, batch, stats)
    ensures Retired(current, ids, revision) == current.(changes := current.changes - batch, stats := Some(stats))
    ensures stats.pending == |current.changes - batch|
  {
    OutdatedCounted(current.changes, ids, revision);
  }
}
