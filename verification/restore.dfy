/** Restoring a backup: verified first, then written in batches behind a marker that keeps the database
    unavailable until the last one. */
module Restore {
  import opened Order
  import opened Wrappers
  import opened Backup

  const RESTORE_BATCH: nat := 1024 * 1024

  /** What opening a database makes of its format marker. */
  datatype Opening = Serves | Migrates | Initializes | Refused

  function InitializeFormat(db: Flat, migrate: bool): Opening {
    if FORMAT_KEY in db then
      if db[FORMAT_KEY] == FORMAT then Serves
      else if (db[FORMAT_KEY] == FORMAT_V1 || db[FORMAT_KEY] == MIGRATING) && migrate then Migrates
      else Refused
    else if db == map[] then Initializes else Refused
  }

  /** What every request checks. */
  predicate Ready(db: Flat) {
    FORMAT_KEY in db && db[FORMAT_KEY] == FORMAT
  }

  /** Neither opened nor served. */
  predicate Unavailable(db: Flat) {
    InitializeFormat(db, false).Refused? && InitializeFormat(db, true).Refused? && !Ready(db)
  }

  lemma RestoringUnavailable(db: Flat)
    requires FORMAT_KEY in db && db[FORMAT_KEY] == RESTORING
    ensures Unavailable(db)
  {
    assert RESTORING[12] == 114 && FORMAT[12] == 50 && FORMAT_V1[12] == 49 && MIGRATING[12] == 109;
  }

  /** The records without the format marker. */
  function Others(rows: seq<Record>): Flat {
    if rows == [] then map[] else
      var (key, value) := rows[|rows| - 1];
      var before := Others(rows[..|rows| - 1]);
      if key == FORMAT_KEY then before else before[key := value]
  }

  lemma {:induction false} OthersOfMap(rows: seq<Record>)
    requires DistinctKeys(rows)
    ensures FORMAT_KEY !in Others(rows) && Others(rows) == MapOf(rows) - {FORMAT_KEY}
  {
    if rows != [] {
      var rest := rows[..|rows| - 1];
      OthersOfMap(rest);
    }
  }

  datatype RestoreError = Corrupt | NotEmpty

  class Target {
    var db: Flat
    ghost var log: seq<Flat>     // durable states, one for each batch

    constructor (db: Flat)
      ensures this.db == db && log == []
    {
      this.db := db;
      log := [];
    }

    method Commit(batch: Flat)
      modifies this
      ensures db == old(db) + batch && log == old(log) + [db]
    {
      db := db + batch;
      log := log + [db];
    }

    method Restore(file: Bytes, hash: Hash) returns (r: Result<nat, RestoreError>)
      modifies this
      ensures r.Ok? <==> Verified(file, hash).Some? && old(db).Keys <= {FORMAT_KEY}
      ensures r.Err? ==> db == old(db) && log == old(log)
      ensures r.Ok? ==> db == MapOf(Verified(file, hash).value) && r.value == |Verified(file, hash).value| - 1
      ensures r.Ok? ==> CompletesAtLast(old(log), log, db)
    {
      var ok := Verify(file, hash);
      if !ok {
        return Err(Corrupt);
      }
      if !(db.Keys <= {FORMAT_KEY}) {
        return Err(NotEmpty);
      }
      var count := Write(file, hash);
      r := Ok(count);
    }

    method Write(file: Bytes, hash: Hash) returns (count: nat)
      requires Verified(file, hash).Some? && db.Keys <= {FORMAT_KEY}
      modifies this
      ensures db == MapOf(Verified(file, hash).value) && count == |Verified(file, hash).value| - 1
      ensures CompletesAtLast(old(log), log, db)
    {
      ghost var rows, start := Verified(file, hash).value, |log|;
      Commit(map[FORMAT_KEY := RESTORING]);
      RestoringUnavailable(db);
      var rest, batch: Flat, size := file[8..], map[], 0;
      count := 0;
      ghost var i := 0;
      StagingStarts(file, hash, db);
      var step := ReadRecord(rest);
      while step.Next?
        invariant step == ReadStep(rest) && Reads(rest, rows, i)
        invariant Staging(db, batch, rows[..i], count)
        invariant Hidden(old(log), log)
        decreases |rest|
      {
        ReadsNext(rest, rows, i);
        StagingStep(db, batch, rows, i, count);
        var (key, value) := step.record;
        if key != FORMAT_KEY {
          size, batch, count := size + |key| + |value|, batch[key := value], count + 1;
          if size >= RESTORE_BATCH {
            CommitStages(db, batch, rows[..i + 1], count);
            HiddenLonger(old(log), log, db + batch);
            Commit(batch);
            batch, size := map[], 0;
          }
        }
        rest, i := step.rest, i + 1;
        step := ReadRecord(rest);
      }
      ReadsEnd(rest, rows, i);
      StagingEnds(file, hash, db, batch, count);
      HiddenLonger(old(log), log, db + batch[FORMAT_KEY := FORMAT]);
      Commit(batch[FORMAT_KEY := FORMAT]);
    }
  }

  /** From the first batch on, every durable state is unavailable. */
  ghost predicate Hidden(before: seq<Flat>, log: seq<Flat>) {
    && |before| < |log| && log[..|before|] == before
    && forall i :: |before| <= i < |log| ==> Unavailable(log[i])
  }

  /** From the first batch on, every durable state is unavailable or complete, and the last is complete. */
  ghost predicate CompletesAtLast(before: seq<Flat>, log: seq<Flat>, complete: Flat) {
    && |before| < |log| && log[..|before|] == before && log[|log| - 1] == complete
    && forall i :: |before| <= i < |log| ==> Unavailable(log[i]) || log[i] == complete
  }

  lemma HiddenLonger(before: seq<Flat>, log: seq<Flat>, db: Flat)
    requires Hidden(before, log)
    ensures Unavailable(db) ==> Hidden(before, log + [db])
    ensures CompletesAtLast(before, log + [db], db)
  {}

  /** What is still to be read are the records from a position on. */
  ghost predicate Reads(rest: Bytes, rows: seq<Record>, i: nat) {
    i <= |rows| && ReadAll(rest).Some? && ReadAll(rest).value.0 == rows[i..]
  }

  lemma ReadsNext(rest: Bytes, rows: seq<Record>, i: nat)
    requires Reads(rest, rows, i) && ReadStep(rest).Next?
    ensures i < |rows| && ReadStep(rest).record == rows[i] && Reads(ReadStep(rest).rest, rows, i + 1)
  {
    var more := ReadAll(ReadStep(rest).rest).value.0;
    assert rows[i..] == [ReadStep(rest).record] + more;
    assert rows[i] == rows[i..][0] && rows[i + 1..] == rows[i..][1..];
  }

  lemma ReadsEnd(rest: Bytes, rows: seq<Record>, i: nat)
    requires Reads(rest, rows, i) && !ReadStep(rest).Next?
    ensures rows[..i] == rows
  {}

  function CountOthers(rows: seq<Record>): nat {
    if rows == [] then 0 else CountOthers(rows[..|rows| - 1]) + if rows[|rows| - 1].0 == FORMAT_KEY then 0 else 1
  }

  lemma {:induction false} CountOthersOf(rows: seq<Record>)
    requires DistinctKeys(rows)
    ensures CountOthers(rows) == |rows| - if exists i :: 0 <= i < |rows| && rows[i].0 == FORMAT_KEY then 1 else 0
  {
    if rows != [] {
      var rest := rows[..|rows| - 1];
      CountOthersOf(rest);
      if i :| 0 <= i < |rest| && rest[i].0 == FORMAT_KEY {
        assert rows[i].0 == FORMAT_KEY && rows[|rows| - 1].0 != FORMAT_KEY;
      } else if rows[|rows| - 1].0 != FORMAT_KEY {
        forall i | 0 <= i < |rows| ensures rows[i].0 != FORMAT_KEY { if i < |rest| { assert rest[i] == rows[i]; } }
      }
    }
  }

  /** The marker and the records read so far are in the database or in the batch. */
  ghost predicate Staging(db: Flat, batch: Flat, rows: seq<Record>, count: nat) {
    && FORMAT_KEY in db && db[FORMAT_KEY] == RESTORING && FORMAT_KEY !in batch
    && db + batch == Others(rows)[FORMAT_KEY := RESTORING]
    && count == CountOthers(rows)
  }

  lemma StagingStarts(file: Bytes, hash: Hash, db: Flat)
    requires Verified(file, hash).Some? && db == map[FORMAT_KEY := RESTORING]
    ensures var rows := Verified(file, hash).value;
            Reads(file[8..], rows, 0) && Staging(db, map[], rows[..0], 0)
  {
    assert db + map[] == db;
  }

  lemma StagingStep(db: Flat, batch: Flat, rows: seq<Record>, i: nat, count: nat)
    requires i < |rows| && Staging(db, batch, rows[..i], count)
    ensures var (key, value) := rows[i];
            if key == FORMAT_KEY then Staging(db, batch, rows[..i + 1], count)
            else Staging(db, batch[key := value], rows[..i + 1], count + 1)
  {
    PrefixStep(rows, i);
    var (key, value) := rows[i];
    if key != FORMAT_KEY { assert db + batch[key := value] == (db + batch)[key := value]; }
  }

  lemma CommitStages(db: Flat, batch: Flat, rows: seq<Record>, count: nat)
    requires Staging(db, batch, rows, count)
    ensures Staging(db + batch, map[], rows, count) && Unavailable(db + batch)
  {
    assert db + batch + map[] == db + batch;
    RestoringUnavailable(db + batch);
  }

  lemma StagingEnds(file: Bytes, hash: Hash, db: Flat, batch: Flat, count: nat)
    requires Verified(file, hash).Some? && Staging(db, batch, Verified(file, hash).value, count)
    ensures db + batch[FORMAT_KEY := FORMAT] == MapOf(Verified(file, hash).value)
    ensures count == |Verified(file, hash).value| - 1
  {
    var rows := Verified(file, hash).value;
    VerifiedRows(file, hash);
    OthersOfMap(rows);
    CountOthersOf(rows);
    assert db + batch[FORMAT_KEY := FORMAT] == (db + batch)[FORMAT_KEY := FORMAT];
  }

  lemma VerifiedRows(file: Bytes, hash: Hash)
    requires Verified(file, hash).Some?
    ensures var rows := Verified(file, hash).value;
            && DistinctKeys(rows)
            && FORMAT_KEY in MapOf(rows) && MapOf(rows)[FORMAT_KEY] == FORMAT
            && exists i :: 0 <= i < |rows| && rows[i].0 == FORMAT_KEY
  {
    var rows := Verified(file, hash).value;
    VerifiedIsExport(file, hash);
    IncreasingAscends([], rows);
    KeysEnumerate(rows);
    MapOfRows(rows);
  }
}
