/** Deletion on the flat keyspace: what scans by prefix erase, batch by batch, and what reopening makes of
    deletions that were cut short at any batch. */
module Erasure {
  import opened Order
  import opened Wrappers
  import opened Numbers
  import opened Model
  import opened Keys
  import opened Index
  import opened Store
  import opened Upkeep
  import opened Keyspace

  /** The stored rows, from the text of the key to the value. */
  type Rows = map<Bytes, Bytes>

  const FAMILIES: seq<byte> := [100, 118, 99, 103]
  const DELETE: Bytes := [100, 101, 108, 101, 116, 101]

  /** A key of a family that has one key for each namespace. */
  function Single(family: byte, ns: Bytes): Bytes {
    [family, SLASH] + ns
  }

  function Marker(ns: Bytes): Bytes {
    Single(122, ns)
  }

  function Singles(ns: Bytes): set<Bytes> {
    {Single(105, ns), Single(115, ns), Single(122, ns), Single(106, ns)}
  }

  predicate InFamilies(text: Bytes, ns: Bytes, n: nat)
    requires n <= |FAMILIES|
  {
    exists i :: 0 <= i < n && StartsWith(text, Prefix(FAMILIES[i], ns))
  }

  /** What an erase of a namespace deletes. */
  predicate Doomed(text: Bytes, ns: Bytes) {
    InFamilies(text, ns, 4) || text in Singles(ns)
  }

  /** The rows under a prefix, in key order. */
  function Scan(rows: Rows, prefix: Bytes): seq<Bytes> {
    Ordered(set k | k in rows && StartsWith(k, prefix))
  }

  /** The names behind the deletion markers. */
  ghost predicate Marked(rows: Rows, ns: Bytes) {
    Marker(ns) in rows
  }

  ghost predicate DoomedByMarker(rows: Rows, k: Bytes) {
    exists ns :: Marked(rows, ns) && Doomed(k, ns)
  }

  /** The rows that an erase of one namespace leaves. */
  ghost function Erased(rows: Rows, ns: Bytes): Rows {
    map k | k in rows && !Doomed(k, ns) :: rows[k]
  }

  /** The rows that reopening leaves. */
  ghost function Recovered(rows: Rows): Rows {
    map k | k in rows && !DoomedByMarker(rows, k) :: rows[k]
  }

  /** Batches that it takes to delete a number of rows, a thousand at a time. */
  function Batches(count: nat): nat {
    BlockCount(count, CHUNK)
  }

  ghost function FamilyBatches(rows: Rows, ns: Bytes, n: nat): nat
    requires n <= |FAMILIES|
  {
    if n == 0 then 0
    else FamilyBatches(rows, ns, n - 1) + Batches(|Scan(rows, Prefix(FAMILIES[n - 1], ns))|)
  }

  /** The first rows of a scan that a number of batches reach. */
  function Reached(keys: seq<Bytes>, batches: nat): set<Bytes> {
    SetOf(keys[..if batches * CHUNK < |keys| then batches * CHUNK else |keys|])
  }

  /** Some rows are gone, and the others are as they were. */
  ghost predicate PartOf(part: Rows, whole: Rows) {
    forall k :: k in part ==> k in whole && part[k] == whole[k]
  }

  /** A durable state that can be left of these rows while marked namespaces are erased. */
  ghost predicate Partly(a: Rows, b: Rows) {
    && PartOf(b, a)
    && (forall k :: k in a && k !in b ==> DoomedByMarker(a, k))
    && forall ns :: Marked(a, ns) ==> Marked(b, ns) || forall k :: k in b ==> !Doomed(k, ns)
  }

  /** Names hidden by the first batch of a deletion. */
  function Hidden(rows: Rows, ns: Bytes): Rows {
    (rows - {Single(110, ns)})[Marker(ns) := DELETE]
  }

  /** The rows on disk. Batches are atomic and durable; the process can die between any two, here after a given
      number of them. */
  class Disk {
    var rows: Rows

    constructor (rows: Rows)
      ensures this.rows == rows
    {
      this.rows := rows;
    }

    /** Delete what a scan finds under a prefix, a thousand rows at a time. */
    method EraseFamily(prefix: Bytes, lives: nat) returns (left: nat, done: bool)
      modifies this
      ensures var keys := Scan(old(rows), prefix);
              && rows == old(rows) - Reached(keys, lives)
              && (done <==> lives >= Batches(|keys|))
              && left == (if done then lives - Batches(|keys|) else 0)
    {
      var keys := Scan(rows, prefix);
      var batch: seq<Bytes> := [];
      left, done := lives, false;
      ghost var written := 0;
      for i := 0 to |keys|
        invariant |batch| < CHUNK && i == written * CHUNK + |batch| && left + written == lives
        invariant batch == keys[written * CHUNK..i]
        invariant rows == old(rows) - SetOf(keys[..written * CHUNK])
      {
        assert keys[written * CHUNK..i + 1] == batch + [keys[i]];
        batch := batch + [keys[i]];
        if |batch| == CHUNK {
          if left == 0 {
            MoreBatches(written, |keys|);
            return;
          }
          OneBatch(old(rows), keys, written * CHUNK, i + 1);
          rows, left, batch, written := rows - SetOf(batch), left - 1, [], written + 1;
        }
      }
      BatchesOf(written, |batch|);
      if |batch| > 0 {
        if left == 0 {
          return;
        }
        OneBatch(old(rows), keys, written * CHUNK, |keys|);
        rows, left := rows - SetOf(batch), left - 1;
      }
      assert keys[..|keys|] == keys;
      done := true;
    }

    /** The next of the four families. */
    method EraseNext(ghost original: Rows, ns: Bytes, n: nat, ghost lives: nat, rest: nat)
      returns (left: nat, done: bool)
      requires n < |FAMILIES| && Cleared(original, rows, ns, n, lives, rest)
      modifies this
      ensures done ==> Cleared(original, rows, ns, n + 1, lives, left)
      ensures !done ==> left == 0 && Failed(original, rows, ns, lives)
    {
      var prefix := Prefix(FAMILIES[n], ns);
      ghost var before, keys := rows, Scan(rows, prefix);
      FamiliesApart(original, ns, n);
      left, done := EraseFamily(prefix, rest);
      ScanSize(before, prefix);
      if done {
        AllReached(keys, rest);
        NextFamily(original, ns, n);
      } else {
        StartedFamily(original, before, rows, ns, n, rest);
        BatchesGrow(original, ns, n + 1);
        if Marked(original, ns) {
          MarkerStays(original, ns, n);
          ScanLess(before, prefix, Marker(ns));
        }
      }
    }

    /** Erase a namespace: four families, then its remaining keys and the marker in one last batch. */
    method EraseNamespace(ns: Bytes, lives: nat) returns (left: nat, done: bool)
      modifies this
      ensures done <==> lives > FamilyBatches(old(rows), ns, 4)
      ensures done ==> rows == Erased(old(rows), ns) && left == lives - FamilyBatches(old(rows), ns, 4) - 1
      ensures !done ==> Started(old(rows), rows, ns) && left == 0
      ensures Marked(old(rows), ns) ==>
                if done then left + |old(rows)| >= lives + |rows| else lives < |old(rows)|
    {
      left, done := lives, false;
      ClearedNothing(rows, ns, lives);
      for n := 0 to 4
        invariant Cleared(old(rows), rows, ns, n, lives, left)
      {
        var ok;
        left, ok := EraseNext(old(rows), ns, n, lives, left);
        if !ok {
          return;
        }
      }
      LastBatch(old(rows), rows, ns, lives, left);
      if left == 0 {
        return;
      }
      rows, left, done := rows - Singles(ns), left - 1, true;
    }

    /** Hide a namespace in one batch together with the intent to delete it, then erase it. */
    method DeleteNamespace(ns: Id, lives: nat) returns (r: Result<bool, ()>)
      modifies this
      ensures r.Err? <==> !ValidId(ns)
      ensures r.Err? || lives == 0 ==> rows == old(rows)
      ensures r.Ok? && lives > 0 ==> Partly(Hidden(old(rows), ns), rows)
      ensures r == Ok(true) ==> rows == Erased(Hidden(old(rows), ns), ns)
      ensures r.Ok? && lives > |old(rows)| + 1 ==> r == Ok(true)
    {
      if !ValidId(ns) {
        return Err(());
      }
      if lives == 0 {
        return Ok(false);
      }
      ghost var hidden := Hidden(rows, ns);
      HiddenSize(rows, ns);
      rows := (rows - {Single(110, ns)})[Marker(ns) := DELETE];
      var left, done := EraseNamespace(ns, lives - 1);
      PartOfOne(hidden, rows, ns, done);
      r := Ok(done);
    }

    /** Resume every deletion before the first request. */
    method Reopen(lives: nat) returns (done: bool)
      modifies this
      ensures Partly(old(rows), rows)
      ensures done ==> rows == Recovered(old(rows))
      ensures lives >= |old(rows)| ==> done
    {
      var markers := Scan(rows, [122, SLASH]);
      var left := lives;
      MarkersFound(rows, markers);
      NoneErased(rows);
      done := true;
      for i := 0 to |markers|
        invariant Resumed(old(rows), rows, markers[..i], lives, left)
      {
        left, done := ResumeNext(old(rows), markers, i, lives, left);
        if !done {
          return;
        }
      }
      assert markers[..|markers|] == markers;
      AllErased(old(rows), markers);
      done := true;
    }

    method ResumeNext(ghost original: Rows, markers: seq<Bytes>, i: nat, ghost lives: nat, rest: nat)
      returns (left: nat, done: bool)
      requires ListsMarkers(original, markers) && i < |markers|
      requires Resumed(original, rows, markers[..i], lives, rest)
      modifies this
      ensures done ==> Resumed(original, rows, markers[..i + 1], lives, left)
      ensures !done ==> Partly(original, rows) && lives < |original|
    {
      ghost var before := rows;
      NextMarked(original, markers, i);
      left, done := EraseNamespace(markers[i][2..], rest);
      if !done { PartOfAll(original, before, rows, markers, i); }
    }
  }

  /** Some marked namespaces are gone, and no more batches were needed than rows went. */
  ghost predicate Resumed(original: Rows, rows: Rows, markers: seq<Bytes>, lives: nat, left: nat) {
    rows == Survivors(original, markers) && left + |original| >= lives + |rows|
  }

  /** Some families are gone, and no more batches were needed than rows went. */
  ghost predicate Cleared(original: Rows, rows: Rows, ns: Bytes, n: nat, lives: nat, left: nat)
    requires n <= |FAMILIES|
  {
    && rows == WithoutFamilies(original, ns, n)
    && left + FamilyBatches(original, ns, n) == lives
    && left + |original| >= lives + |rows|
  }

  /** The process died before the last batch. */
  ghost predicate Failed(original: Rows, rows: Rows, ns: Bytes, lives: nat) {
    && lives <= FamilyBatches(original, ns, 4)
    && Started(original, rows, ns)
    && (Marked(original, ns) ==> lives < |original|)
  }

  lemma ClearedNothing(rows: Rows, ns: Bytes, lives: nat)
    ensures Cleared(rows, rows, ns, 0, lives, lives)
  {
    assert forall k :: !InFamilies(k, ns, 0);
    assert WithoutFamilies(rows, ns, 0) == rows;
  }

  lemma LastBatch(original: Rows, rows: Rows, ns: Bytes, lives: nat, left: nat)
    requires Cleared(original, rows, ns, 4, lives, left)
    ensures left == 0 ==> Failed(original, rows, ns, lives)
    ensures rows - Singles(ns) == Erased(original, ns)
    ensures Marked(original, ns) ==> left + |original| > lives + |rows - Singles(ns)|
  {
    LastRows(original, ns);
    FamiliesStarted(original, ns, 4);
  }

  lemma FamiliesStarted(original: Rows, ns: Bytes, n: nat)
    requires n <= |FAMILIES|
    ensures Started(original, WithoutFamilies(original, ns, n), ns)
  {
    forall k | k in original && InFamilies(k, ns, n) ensures Doomed(k, ns) && k !in Singles(ns) {
      var i :| 0 <= i < n && StartsWith(k, Prefix(FAMILIES[i], ns));
      OneFamily(k, ns, i);
    }
  }

  /** Not yet an erased namespace: some of its families may be gone, its other keys are not. */
  ghost predicate Started(a: Rows, b: Rows, ns: Bytes) {
    && PartOf(b, a)
    && (forall k :: k in a && k !in b ==> Doomed(k, ns) && k !in Singles(ns))
  }

  ghost function WithoutFamilies(rows: Rows, ns: Bytes, n: nat): Rows
    requires n <= |FAMILIES|
  {
    map k | k in rows && !InFamilies(k, ns, n) :: rows[k]
  }
  /** More rows than the batches written hold. */
  lemma MoreBatches(written: nat, length: nat)
    requires written * CHUNK < length
    ensures written < Batches(length)
  {
    BlocksReach(length, CHUNK);
  }

  lemma BatchesOf(written: nat, more: nat)
    requires more < CHUNK
    ensures Batches(written * CHUNK + more) == written + if more > 0 then 1 else 0
  {
  }

  lemma OneBatch(rows: Rows, keys: seq<Bytes>, from: nat, to: nat)
    requires from <= to <= |keys|
    ensures rows - SetOf(keys[..from]) - SetOf(keys[from..to]) == rows - SetOf(keys[..to])
  {
    assert keys[..to] == keys[..from] + keys[from..to];
  }

  /** A row lies in one family at most. */
  lemma FamiliesApart(rows: Rows, ns: Bytes, n: nat)
    requires n < |FAMILIES|
    ensures Scan(WithoutFamilies(rows, ns, n), Prefix(FAMILIES[n], ns)) == Scan(rows, Prefix(FAMILIES[n], ns))
  {
    var prefix := Prefix(FAMILIES[n], ns);
    var left := WithoutFamilies(rows, ns, n);
    forall k ensures k in left && StartsWith(k, prefix) <==> k in rows && StartsWith(k, prefix) {
      if StartsWith(k, prefix) { OneFamily(k, ns, n); }
    }
    assert (set k | k in left && StartsWith(k, prefix)) == (set k | k in rows && StartsWith(k, prefix));
  }

  lemma OneFamily(k: Bytes, ns: Bytes, n: nat)
    requires n < |FAMILIES| && StartsWith(k, Prefix(FAMILIES[n], ns))
    ensures !InFamilies(k, ns, n) && k !in Singles(ns)
  {
    assert k[0] == FAMILIES[n];
    forall i | 0 <= i < n ensures !StartsWith(k, Prefix(FAMILIES[i], ns)) {
      assert Prefix(FAMILIES[i], ns)[0] == FAMILIES[i];
    }
  }

  lemma NextFamily(rows: Rows, ns: Bytes, n: nat)
    requires n < |FAMILIES|
    ensures var prefix := Prefix(FAMILIES[n], ns);
            WithoutFamilies(rows, ns, n) - SetOf(Scan(rows, prefix)) == WithoutFamilies(rows, ns, n + 1)
  {
    var prefix := Prefix(FAMILIES[n], ns);
    forall k ensures InFamilies(k, ns, n + 1) <==> InFamilies(k, ns, n) || StartsWith(k, prefix) {
      if StartsWith(k, prefix) { assert StartsWith(k, Prefix(FAMILIES[n], ns)); }
    }
  }

  lemma ScanSize(rows: Rows, prefix: Bytes)
    ensures var keys := Scan(rows, prefix);
            Batches(|keys|) <= |keys| && |rows - SetOf(keys)| == |rows| - |keys|
  {
    var found := set k | k in rows && StartsWith(k, prefix);
    ScanIs(rows, prefix);
    Partition(rows.Keys, found);
    assert (rows - found).Keys == rows.Keys - found;
    FewBatches(|found|);
  }

  lemma ScanIs(rows: Rows, prefix: Bytes)
    ensures var found := set k | k in rows && StartsWith(k, prefix);
            found <= rows.Keys && SetOf(Scan(rows, prefix)) == found && |Scan(rows, prefix)| == |found|
  {}

  lemma ScanLess(rows: Rows, prefix: Bytes, other: Bytes)
    requires other in rows && !StartsWith(other, prefix)
    ensures |Scan(rows, prefix)| < |rows|
  {
    var found := set k | k in rows && StartsWith(k, prefix);
    ScanIs(rows, prefix);
    Partition(rows.Keys, found);
    assert other in rows.Keys - found;
  }

  lemma FewBatches(count: nat)
    ensures Batches(count) <= count
  {
  }

  lemma {:induction false} BatchesGrow(rows: Rows, ns: Bytes, n: nat)
    requires n <= |FAMILIES|
    ensures FamilyBatches(rows, ns, n) <= FamilyBatches(rows, ns, 4)
    decreases 4 - n
  {
    if n < 4 { BatchesGrow(rows, ns, n + 1); }
  }

  lemma AllReached(keys: seq<Bytes>, batches: nat)
    requires batches >= Batches(|keys|)
    ensures Reached(keys, batches) == SetOf(keys)
  {
    BlocksReach(|keys|, CHUNK);
    assert keys[..|keys|] == keys;
  }

  lemma StartedFamily(a: Rows, before: Rows, b: Rows, ns: Bytes, n: nat, lives: nat)
    requires n < |FAMILIES| && before == WithoutFamilies(a, ns, n)
    requires b == before - Reached(Scan(before, Prefix(FAMILIES[n], ns)), lives)
    ensures Started(a, b, ns)
  {
    var keys := Scan(before, Prefix(FAMILIES[n], ns));
    forall k | k in a && k !in b ensures Doomed(k, ns) && k !in Singles(ns) {
      if k in before {
        assert k in Reached(keys, lives);
        assert k in keys;
        OneFamily(k, ns, n);
      } else {
        var i :| 0 <= i < n && StartsWith(k, Prefix(FAMILIES[i], ns));
        OneFamily(k, ns, i);
      }
    }
  }

  lemma MarkerStays(rows: Rows, ns: Bytes, n: nat)
    requires n < |FAMILIES| && Marked(rows, ns)
    ensures Marker(ns) in WithoutFamilies(rows, ns, n) && !StartsWith(Marker(ns), Prefix(FAMILIES[n], ns))
  {
    forall i | 0 <= i < |FAMILIES| ensures !StartsWith(Marker(ns), Prefix(FAMILIES[i], ns)) {
      assert Prefix(FAMILIES[i], ns)[0] == FAMILIES[i] && Marker(ns)[0] == 122;
    }
  }

  lemma LastRows(rows: Rows, ns: Bytes)
    ensures WithoutFamilies(rows, ns, 4) - Singles(ns) == Erased(rows, ns)
    ensures |WithoutFamilies(rows, ns, 4) - Singles(ns)| <= |WithoutFamilies(rows, ns, 4)|
    ensures Marked(rows, ns) ==>
              |WithoutFamilies(rows, ns, 4) - Singles(ns)| < |WithoutFamilies(rows, ns, 4)|
  {
    var left := WithoutFamilies(rows, ns, 4);
    Partition(left.Keys, left.Keys * Singles(ns));
    assert (left - Singles(ns)).Keys == left.Keys - left.Keys * Singles(ns);
    if Marked(rows, ns) {
      assert !InFamilies(Marker(ns), ns, 4) by {
        forall n: nat | n < 4 ensures !StartsWith(Marker(ns), Prefix(FAMILIES[n], ns)) { MarkerStays(rows, ns, n); }
      }
      assert Marker(ns) in left.Keys * Singles(ns);
    }
  }

  // ---------------------------------------------------------------------------------------------
  // Several namespaces

  ghost predicate DoomedByOne(k: Bytes, markers: seq<Bytes>) {
    exists i :: 0 <= i < |markers| && |markers[i]| >= 2 && Doomed(k, markers[i][2..])
  }

  ghost function Survivors(rows: Rows, markers: seq<Bytes>): Rows {
    map k | k in rows && !DoomedByOne(k, markers) :: rows[k]
  }

  ghost predicate ListsMarkers(rows: Rows, markers: seq<Bytes>) {
    && Distinct(markers)
    && forall m :: m in markers <==> m in rows && |m| >= 2 && m == Marker(m[2..])
  }

  lemma MarkersFound(rows: Rows, markers: seq<Bytes>)
    requires markers == Scan(rows, [122, SLASH])
    ensures ListsMarkers(rows, markers)
  {
    var found := set k | k in rows && StartsWith(k, [122, SLASH]);
    OrderedEnumerates(found);
    AscendingDistinct(markers);
    forall m ensures StartsWith(m, [122, SLASH]) <==> |m| >= 2 && m == Marker(m[2..]) {
      if |m| >= 2 { assert m == m[..2] + m[2..]; }
    }
  }

  lemma NoneErased(rows: Rows)
    ensures Survivors(rows, []) == rows
  {}

  /** An erase deletes no other marker. */
  lemma MarkerDoomed(a: Bytes, b: Bytes)
    ensures Doomed(Marker(a), b) <==> a == b
  {
    assert Marker(a)[0] == 122 && Marker(a)[2..] == a;
    forall i: nat | i < |FAMILIES| ensures !StartsWith(Marker(a), Prefix(FAMILIES[i], b)) {
      assert Prefix(FAMILIES[i], b)[0] == FAMILIES[i];
    }
    if Marker(a) in Singles(b) {
      assert Single(105, b)[0] == 105 && Single(115, b)[0] == 115 && Single(106, b)[0] == 106;
      assert Marker(a) == Marker(b) && Marker(b)[2..] == b;
    }
  }

  lemma NextMarked(rows: Rows, markers: seq<Bytes>, i: nat)
    requires ListsMarkers(rows, markers) && i < |markers|
    ensures |markers[i]| >= 2
    ensures Marked(Survivors(rows, markers[..i]), markers[i][2..])
    ensures Erased(Survivors(rows, markers[..i]), markers[i][2..]) == Survivors(rows, markers[..i + 1])
  {
    var m := markers[i];
    assert m in markers;
    PrefixStep(markers, i);
    forall k ensures DoomedByOne(k, markers[..i + 1]) <==> DoomedByOne(k, markers[..i]) || Doomed(k, m[2..]) {
      if Doomed(k, m[2..]) { assert markers[..i + 1][i] == m; }
      if DoomedByOne(k, markers[..i]) {
        var j :| 0 <= j < i && |markers[j]| >= 2 && Doomed(k, markers[j][2..]);
        assert markers[..i + 1][j] == markers[j];
      }
    }
    if DoomedByOne(m, markers[..i]) {
      var j :| 0 <= j < i && |markers[j]| >= 2 && Doomed(m, markers[j][2..]);
      MarkerDoomed(m[2..], markers[j][2..]);
    }
  }

  lemma DoomedAlike(rows: Rows, markers: seq<Bytes>, k: Bytes)
    requires ListsMarkers(rows, markers)
    ensures DoomedByOne(k, markers) <==> DoomedByMarker(rows, k)
  {
    if DoomedByOne(k, markers) {
      var i :| 0 <= i < |markers| && |markers[i]| >= 2 && Doomed(k, markers[i][2..]);
      assert markers[i] in markers;
      assert Marked(rows, markers[i][2..]);
    }
    if DoomedByMarker(rows, k) {
      var ns :| Marked(rows, ns) && Doomed(k, ns);
      assert Marker(ns)[2..] == ns && Marker(ns) in markers;
      var i :| 0 <= i < |markers| && markers[i] == Marker(ns);
    }
  }

  lemma AllErased(rows: Rows, markers: seq<Bytes>)
    requires ListsMarkers(rows, markers)
    ensures Survivors(rows, markers) == Recovered(rows)
    ensures Partly(rows, Recovered(rows))
  {
    forall k ensures DoomedByOne(k, markers) <==> DoomedByMarker(rows, k) { DoomedAlike(rows, markers, k); }
  }

  lemma PartOfAll(original: Rows, before: Rows, rows: Rows, markers: seq<Bytes>, i: nat)
    requires ListsMarkers(original, markers) && i < |markers| && before == Survivors(original, markers[..i])
    requires |markers[i]| >= 2 && Started(before, rows, markers[i][2..])
    ensures Partly(original, rows)
  {
    assert markers[i] in markers;
    var ns := markers[i][2..];
    forall k | k in original && k !in rows ensures DoomedByMarker(original, k) {
      if k in before {
        assert Marked(original, ns) && Doomed(k, ns);
      } else {
        EarlierDoomed(original, markers, i, k);
      }
    }
    forall m | Marked(original, m) && !Marked(rows, m) ensures forall k :: k in before ==> !Doomed(k, m) {
      MarkerDoomed(m, ns);
      MarkerGone(original, markers, i, m);
    }
  }

  lemma EarlierDoomed(rows: Rows, markers: seq<Bytes>, i: nat, k: Bytes)
    requires ListsMarkers(rows, markers) && i <= |markers| && DoomedByOne(k, markers[..i])
    ensures DoomedByMarker(rows, k)
  {
    var j :| 0 <= j < i && |markers[j]| >= 2 && Doomed(k, markers[j][2..]);
    assert markers[j] in markers;
    assert Marked(rows, markers[j][2..]);
  }

  lemma MarkerGone(rows: Rows, markers: seq<Bytes>, i: nat, m: Bytes)
    requires i <= |markers| && DoomedByOne(Marker(m), markers[..i])
    ensures forall k :: k in Survivors(rows, markers[..i]) ==> !Doomed(k, m)
  {
    var j :| 0 <= j < i && |markers[j]| >= 2 && Doomed(Marker(m), markers[j][2..]);
    MarkerDoomed(m, markers[j][2..]);
    assert markers[..i][j] == markers[j];
  }

  lemma PartOfOne(hidden: Rows, rows: Rows, ns: Bytes, done: bool)
    requires Marked(hidden, ns)
    requires if done then rows == Erased(hidden, ns) else Started(hidden, rows, ns)
    ensures Partly(hidden, rows)
  {
    forall m | Marked(hidden, m) && !Marked(rows, m) ensures forall k :: k in rows ==> !Doomed(k, m) {
      MarkerDoomed(m, ns);
    }
    MarkerDoomed(ns, ns);
  }

  lemma HiddenSize(rows: Rows, ns: Bytes)
    ensures Marked(Hidden(rows, ns), ns) && |Hidden(rows, ns)| <= |rows| + 1
  {
    var less := rows - {Single(110, ns)};
    Partition(rows.Keys, rows.Keys * {Single(110, ns)});
    assert less.Keys == rows.Keys - rows.Keys * {Single(110, ns)};
    assert Hidden(rows, ns).Keys == less.Keys + {Marker(ns)};
  }

  // ---------------------------------------------------------------------------------------------
  // Any number of crashes

  /** Reopening a state that was cut short ends where reopening at first would have ended. */
  lemma CutShortRecovers(a: Rows, b: Rows)
    requires Partly(a, b)
    ensures Recovered(b) == Recovered(a)
  {
    forall k | k in b && DoomedByMarker(a, k) ensures DoomedByMarker(b, k) {
      var ns :| Marked(a, ns) && Doomed(k, ns);
      assert Marked(b, ns);
    }
    forall k | DoomedByMarker(b, k) ensures DoomedByMarker(a, k) {
      var ns :| Marked(b, ns) && Doomed(k, ns);
      assert Marked(a, ns);
    }
  }

  /** However often the process dies while it reopens, the run that completes leaves the same rows. */
  lemma {:induction false} CrashesRecover(states: seq<Rows>)
    requires |states| > 0 && forall i :: 0 <= i < |states| - 1 ==> Partly(states[i], states[i + 1])
    ensures Recovered(states[|states| - 1]) == Recovered(states[0])
  {
    if |states| > 1 {
      CrashesRecover(states[1..]);
      assert Partly(states[0], states[0 + 1]);
      CutShortRecovers(states[0], states[1]);
    }
  }

  // ---------------------------------------------------------------------------------------------
  // The keys of the engine

  /** Every stored key is one that the engine forms. */
  ghost predicate WellKeyed(rows: Rows, h: Digests) {
    forall t :: t in rows ==> exists k :: ValidKey(k) && Rendered(k, h) == t
  }

  /** An erase deletes the keys of its namespace, whatever other names look like, except the one that defines it. */
  lemma DoomedKeys(k: Key, ns: Id, h: Digests)
    requires ValidKey(k) && ValidId(ns) && h.Valid()
    ensures Doomed(Rendered(k, h), ns) <==> Of(k, ns) && !k.NamespaceKey?
  {
    FamilyScan(k, ns, h);
    FamiliesListed(Rendered(k, h), ns);
    SinglesRendered(ns, h);
    SameText(k, IndexKey(ns), h);
    SameText(k, StatsKey(ns), h);
    SameText(k, DeletionKey(ns), h);
    SameText(k, CleanupKey(ns), h);
  }

  lemma SameText(a: Key, b: Key, h: Digests)
    requires ValidKey(a) && ValidKey(b) && h.Valid()
    ensures Rendered(a, h) == Rendered(b, h) <==> a == b
  {
    if Rendered(a, h) == Rendered(b, h) { RenderedInjective(a, b, h); }
  }

  lemma FamiliesListed(text: Bytes, ns: Bytes)
    ensures InFamilies(text, ns, 4) <==>
            || StartsWith(text, Prefix(100, ns)) || StartsWith(text, Prefix(118, ns))
            || StartsWith(text, Prefix(99, ns)) || StartsWith(text, Prefix(103, ns))
  {
    assert FAMILIES[0] == 100 && FAMILIES[1] == 118 && FAMILIES[2] == 99 && FAMILIES[3] == 103;
    if StartsWith(text, Prefix(100, ns)) { assert StartsWith(text, Prefix(FAMILIES[0], ns)); }
    if StartsWith(text, Prefix(118, ns)) { assert StartsWith(text, Prefix(FAMILIES[1], ns)); }
    if StartsWith(text, Prefix(99, ns)) { assert StartsWith(text, Prefix(FAMILIES[2], ns)); }
    if StartsWith(text, Prefix(103, ns)) { assert StartsWith(text, Prefix(FAMILIES[3], ns)); }
  }

  lemma SinglesRendered(ns: Id, h: Digests)
    ensures Rendered(IndexKey(ns), h) == Single(105, ns) && Rendered(StatsKey(ns), h) == Single(115, ns)
    ensures Rendered(DeletionKey(ns), h) == Single(122, ns) && Rendered(CleanupKey(ns), h) == Single(106, ns)
    ensures Rendered(NamespaceKey(ns), h) == Single(110, ns)
  {
    JoinTwo([105], ns);
    JoinTwo([115], ns);
    JoinTwo([122], ns);
    JoinTwo([106], ns);
    JoinTwo([110], ns);
  }

  lemma MarkedName(rows: Rows, ns: Bytes, h: Digests)
    requires WellKeyed(rows, h) && h.Valid() && Marked(rows, ns)
    ensures ValidId(ns)
  {
    var k :| ValidKey(k) && Rendered(k, h) == Marker(ns);
    PartsSlashFree(k, h);
    assert Join([[122]]) + [SLASH] == [122, SLASH];
    assert StartsWith(Marker(ns), [122, SLASH]) by { assert Marker(ns)[..2] == [122, SLASH]; }
    JoinPrefix(Parts(k, h), [[122]]);
    assert Parts(k, h)[0] == Parts(k, h)[..1][0] == [122];
    assert k.DeletionKey?;
    SinglesRendered(k.ns, h);
    assert Marker(k.ns)[2..] == k.ns && Marker(ns)[2..] == ns;
  }

  /** What reopening keeps: everything but the keys of marked names, of which only their definitions stay. */
  lemma RecoveredKeys(rows: Rows, k: Key, h: Digests)
    requires WellKeyed(rows, h) && ValidKey(k) && h.Valid()
    ensures Rendered(k, h) in Recovered(rows) <==>
            Rendered(k, h) in rows && (k.FormatKey? || k.NamespaceKey? || !Marked(rows, k.ns))
    ensures Rendered(k, h) in Recovered(rows) ==> Recovered(rows)[Rendered(k, h)] == rows[Rendered(k, h)]
  {
    var text := Rendered(k, h);
    if DoomedByMarker(rows, text) {
      var ns :| Marked(rows, ns) && Doomed(text, ns);
      MarkedName(rows, ns, h);
      DoomedKeys(k, ns, h);
    }
    if !k.FormatKey? && !k.NamespaceKey? && Marked(rows, k.ns) { DoomedKeys(k, k.ns, h); }
  }

  /** After the first batch of a deletion, whatever dies when, reopening leaves no key of the namespace and takes
      none from a name without a marker. */
  lemma DeletedKeys(rows: Rows, ns: Id, k: Key, h: Digests)
    requires WellKeyed(rows, h) && ValidId(ns) && ValidKey(k) && h.Valid()
    ensures Of(k, ns) ==> Rendered(k, h) !in Recovered(Hidden(rows, ns))
    ensures !Of(k, ns) && (k.FormatKey? || !Marked(rows, k.ns)) ==>
              (Rendered(k, h) in Recovered(Hidden(rows, ns)) <==> Rendered(k, h) in rows)
  {
    HiddenKeys(rows, ns, k, h);
    HiddenWellKeyed(rows, ns, h);
    RecoveredKeys(Hidden(rows, ns), k, h);
    if !k.FormatKey? { MarkerDoomed(k.ns, ns); }
  }

  /** The same with any number of crashes, in the deletion itself and in every attempt to reopen. */
  lemma DeletionCompletes(rows: Rows, states: seq<Rows>, ns: Id, k: Key, h: Digests)
    requires WellKeyed(rows, h) && ValidId(ns) && ValidKey(k) && h.Valid()
    requires |states| > 0 && states[0] == Hidden(rows, ns)
    requires forall i :: 0 <= i < |states| - 1 ==> Partly(states[i], states[i + 1])
    ensures var last := Recovered(states[|states| - 1]);
            && (Of(k, ns) ==> Rendered(k, h) !in last)
            && (!Of(k, ns) && (k.FormatKey? || !Marked(rows, k.ns)) ==>
                  (Rendered(k, h) in last <==> Rendered(k, h) in rows))
  {
    CrashesRecover(states);
    DeletedKeys(rows, ns, k, h);
  }

  lemma HiddenKeys(rows: Rows, ns: Id, k: Key, h: Digests)
    requires ValidId(ns) && ValidKey(k) && h.Valid()
    ensures Rendered(k, h) in Hidden(rows, ns) <==>
            k == DeletionKey(ns) || (Rendered(k, h) in rows && k != NamespaceKey(ns))
  {
    SinglesRendered(ns, h);
    SameText(k, NamespaceKey(ns), h);
    SameText(k, DeletionKey(ns), h);
  }

  lemma HiddenWellKeyed(rows: Rows, ns: Id, h: Digests)
    requires WellKeyed(rows, h) && ValidId(ns)
    ensures WellKeyed(Hidden(rows, ns), h)
  {
    SinglesRendered(ns, h);
    assert ValidKey(DeletionKey(ns));
  }

  /** The rows hold the keys of these namespaces. */
  ghost predicate Stores(rows: Rows, db: Store.Database, h: Digests) {
    forall k :: ValidKey(k) ==> (Rendered(k, h) in rows <==> Has(db, k))
  }

  /** What reopening makes of the namespaces. */
  function Reopening(db: Store.Database): Store.Database {
    map ns | ns in db :: Reopened(db[ns])
  }

  /** Key by key, reopening the rows is reopening every namespace. */
  lemma RecoveredStores(rows: Rows, db: Store.Database, h: Digests)
    requires WellKeyed(rows, h) && h.Valid() && Stores(rows, db, h)
    ensures Stores(Recovered(rows), Reopening(db), h)
  {
    forall k | ValidKey(k) ensures Rendered(k, h) in Recovered(rows) <==> Has(Reopening(db), k) {
      RecoveredKeys(rows, k, h);
      if !k.FormatKey? {
        SinglesRendered(k.ns, h);
        assert ValidKey(DeletionKey(k.ns)) && (Marked(rows, k.ns) <==> Has(db, DeletionKey(k.ns)));
        ReopenedKeys(db, k);
      }
    }
  }

  lemma ReopenedKeys(db: Store.Database, k: Key)
    requires !k.FormatKey?
    ensures Has(Reopening(db), k) <==> Has(db, k) && (k.NamespaceKey? || !Has(db, DeletionKey(k.ns)))
  {
    assert At(Reopening(db), k.ns) == Reopened(At(db, k.ns));
  }
}
