/** Backup files: a header, one record per key in key order, and a footer with a count and a digest. */
module Backup {
  import opened Order
  import opened Wrappers
  import opened Endian
  import opened Arithmetic

  type Flat = map<Bytes, Bytes>

  type Record = (Bytes, Bytes)

  type Digest = b: Bytes | |b| == 32 witness seq(32, i => 0)

  /** The digest is any function of the bytes hashed so far. */
  type Hash = Bytes -> Digest

  const HEADER: Bytes := [71, 77, 66, 65, 75, 2, 13, 10]
  const MAX_RECORD: nat := 16 * 1024 * 1024
  const MAX_KEY: nat := 2048
  const END: nat := 0xFFFF_FFFF

  // meta/format, gengis-mimi:2, gengis-mimi:restoring:2, gengis-mimi:1, gengis-mimi:migrating:1:2
  const FORMAT_KEY: Bytes := [109, 101, 116, 97, 47, 102, 111, 114, 109, 97, 116]
  const PRODUCT: Bytes := [103, 101, 110, 103, 105, 115, 45, 109, 105, 109, 105, 58]
  const FORMAT: Bytes := PRODUCT + [50]
  const RESTORING: Bytes := PRODUCT + [114, 101, 115, 116, 111, 114, 105, 110, 103, 58, 50]
  const FORMAT_V1: Bytes := PRODUCT + [49]
  const MIGRATING: Bytes := PRODUCT + [109, 105, 103, 114, 97, 116, 105, 110, 103, 58, 49, 58, 50]

  // ---------------------------------------------------------------------------------------------
  // The format

  function RecordBytes(r: Record): Bytes {
    LittleEndian(|r.0|, 4) + LittleEndian(|r.1|, 4) + r.0 + r.1
  }

  function RecordsBytes(rows: seq<Record>): Bytes {
    if rows == [] then [] else RecordBytes(rows[0]) + RecordsBytes(rows[1..])
  }

  function Footer(count: nat, digest: Digest): (r: Bytes)
    ensures |r| == 44
  {
    LittleEndian(END, 4) + LittleEndian(count, 8) + digest
  }

  function RowsOf(m: Flat): (r: seq<Record>)
    ensures |r| == |m|
  {
    var keys := Ordered(m.Keys);
    seq(|keys|, i requires 0 <= i < |keys| => assert keys[i] in keys; (keys[i], m[keys[i]]))
  }

  function FileOf(rows: seq<Record>, hash: Hash): Bytes {
    HEADER + RecordsBytes(rows) + Footer(|rows|, hash(HEADER + RecordsBytes(rows)))
  }

  function Exported(m: Flat, hash: Hash): Bytes {
    FileOf(RowsOf(m), hash)
  }

  /** The stream of an export, chunk by chunk. */
  method Export(m: Flat, hash: Hash) returns (out: Bytes)
    ensures out == Exported(m, hash)
  {
    var rows := RowsOf(m);
    var hashed, count := HEADER, 0;
    out := HEADER;
    for i := 0 to |rows|
      invariant out == hashed && count == i
      invariant hashed + RecordsBytes(rows[i..]) == HEADER + RecordsBytes(rows)
    {
      assert rows[i..][1..] == rows[i + 1..];
      var bytes := LittleEndian(|rows[i].0|, 4) + LittleEndian(|rows[i].1|, 4) + rows[i].0 + rows[i].1;
      assert hashed + (bytes + RecordsBytes(rows[i + 1..])) == (hashed + bytes) + RecordsBytes(rows[i + 1..]);
      hashed, out, count := hashed + bytes, out + bytes, count + 1;
    }
    assert rows[|rows|..] == [] && hashed == HEADER + RecordsBytes(rows);
    out := out + Footer(count, hash(hashed));
  }

  // ---------------------------------------------------------------------------------------------
  // Reading

  datatype Step = Bad | Last(rest: Bytes) | Next(record: Record, rest: Bytes)

  function ReadStep(rest: Bytes): Step {
    if |rest| < 4 then Bad else
      var k := FromLittleEndian(rest[..4]);
      if k == END then Last(rest[4..])
      else if |rest| < 8 then Bad else
        var v := FromLittleEndian(rest[4..8]);
        if k == 0 || k > MAX_KEY || v > MAX_RECORD || |rest| < 8 + k + v then Bad
        else Next((rest[8..8 + k], rest[8 + k..8 + k + v]), rest[8 + k + v..])
  }

  /** The records up to the end mark, and what follows it. */
  function ReadAll(rest: Bytes): Option<(seq<Record>, Bytes)>
    decreases |rest|
  {
    match ReadStep(rest)
    case Bad => None
    case Last(tail) => Some(([], tail))
    case Next(record, tail) =>
      match ReadAll(tail)
      case None => None
      case Some((rows, end)) => Some(([record] + rows, end))
  }

  /** Strictly ascending keys, all above a bound. */
  predicate Increasing(previous: Bytes, rows: seq<Record>)
    decreases |rows|
  {
    rows == [] || (Below(previous, rows[0].0) && Increasing(rows[0].0, rows[1..]))
  }

  predicate FormatsRight(rows: seq<Record>) {
    rows == [] || ((rows[0].0 == FORMAT_KEY ==> rows[0].1 == FORMAT) && FormatsRight(rows[1..]))
  }

  predicate HasFormat(rows: seq<Record>) {
    rows != [] && (rows[0].0 == FORMAT_KEY || HasFormat(rows[1..]))
  }

  predicate FooterRight(rows: seq<Record>, footer: Bytes, hash: Hash) {
    && |footer| == 40
    && FromLittleEndian(footer[..8]) == |rows|
    && footer[8..] == hash(HEADER + RecordsBytes(rows))
  }

  /** The records of a file that verification accepts. */
  function Verified(file: Bytes, hash: Hash): Option<seq<Record>> {
    if |file| < 8 || file[..8] != HEADER then None else
      match ReadAll(file[8..])
      case None => None
      case Some((rows, footer)) =>
        if Increasing([], rows) && FormatsRight(rows) && HasFormat(rows) && FooterRight(rows, footer, hash)
        then Some(rows) else None
  }

  /** Read one record, or the end mark. */
  method ReadRecord(rest: Bytes) returns (step: Step)
    ensures step == ReadStep(rest)
  {
    if |rest| < 4 {
      return Bad;
    }
    var keyLength := FromLittleEndian(rest[..4]);
    if keyLength == END {
      return Last(rest[4..]);
    }
    if |rest| < 8 {
      return Bad;
    }
    var valueLength := FromLittleEndian(rest[4..8]);
    if keyLength == 0 || keyLength > MAX_KEY || valueLength > MAX_RECORD {
      return Bad;
    }
    var data := rest[8..];
    if |data| < keyLength + valueLength {
      return Bad;
    }
    assert data[..keyLength] == rest[8..8 + keyLength];
    assert data[keyLength..keyLength + valueLength] == rest[8 + keyLength..8 + keyLength + valueLength];
    assert data[keyLength + valueLength..] == rest[8 + keyLength + valueLength..];
    return Next((data[..keyLength], data[keyLength..keyLength + valueLength]), data[keyLength + valueLength..]);
  }

  /** What is still to be checked of a file, given what has been read. */
  function Remaining(
    hashed: Bytes, previous: Bytes, format: bool, count: nat, rest: Bytes, hash: Hash): bool
  {
    match ReadAll(rest)
    case None => false
    case Some((rows, footer)) =>
      && Increasing(previous, rows) && FormatsRight(rows) && (format || HasFormat(rows))
      && |footer| == 40 && FromLittleEndian(footer[..8]) == count + |rows|
      && footer[8..] == hash(hashed + RecordsBytes(rows))
  }

  method Verify(file: Bytes, hash: Hash) returns (ok: bool)
    ensures ok == Verified(file, hash).Some?
  {
    if |file| < 8 || file[..8] != HEADER {
      return false;
    }
    var hashed, rest, count, format, previous: Bytes := HEADER, file[8..], 0, false, [];
    var step := ReadRecord(rest);
    while step.Next?
      invariant step == ReadStep(rest)
      invariant Remaining(hashed, previous, format, count, rest, hash) == Verified(file, hash).Some?
      decreases |rest|
    {
      var (key, value) := step.record;
      RemainingStep(hashed, previous, format, count, rest, hash);
      if key == previous || Below(key, previous) {
        NotBelow(key, previous);
        return false;
      }
      BelowTotal(key, previous);
      if key == FORMAT_KEY {
        if value != FORMAT {
          return false;
        }
        format := true;
      }
      hashed := hashed + LittleEndian(|key|, 4) + LittleEndian(|value|, 4) + key + value;
      count, previous, rest := count + 1, key, step.rest;
      step := ReadRecord(rest);
    }
    if step.Bad? {
      return false;
    }
    var footer := step.rest;
    assert hashed + [] == hashed;
    ok := format && |footer| == 40 && count == FromLittleEndian(footer[..8]) && hash(hashed) == footer[8..];
  }

  lemma NotBelow(key: Bytes, previous: Bytes)
    requires key == previous || Below(key, previous)
    ensures !Below(previous, key)
  {
    if key == previous { BelowIrreflexive(key); } else { BelowAsymmetric(key, previous); }
  }

  /** One record further. */
  lemma RemainingStep(hashed: Bytes, previous: Bytes, format: bool, count: nat, rest: Bytes, hash: Hash)
    requires ReadStep(rest).Next?
    ensures var (key, value) := ReadStep(rest).record;
            Remaining(hashed, previous, format, count, rest, hash) <==>
              && Below(previous, key) && (key == FORMAT_KEY ==> value == FORMAT)
              && Remaining(hashed + LittleEndian(|key|, 4) + LittleEndian(|value|, 4) + key + value, key,
                           format || key == FORMAT_KEY, count + 1, ReadStep(rest).rest, hash)
  {
    var Next(record, tail) := ReadStep(rest);
    var more := ReadAll(tail);
    if more.Some? {
      var rows := [record] + more.value.0;
      assert rows[0] == record && rows[1..] == more.value.0;
      assert hashed + (RecordBytes(record) + RecordsBytes(more.value.0)) ==
             (hashed + LittleEndian(|record.0|, 4) + LittleEndian(|record.1|, 4) + record.0 + record.1)
             + RecordsBytes(more.value.0);
    }
  }

  // ---------------------------------------------------------------------------------------------
  // What is accepted

  predicate Readable(r: Record) {
    1 <= |r.0| <= MAX_KEY && |r.1| <= MAX_RECORD
  }

  /** What the store can hold at all: lengths that fit the fields of a record. */
  predicate Holdable(r: Record) {
    1 <= |r.0| < END && |r.1| <= END
  }

  ghost predicate AllReadable(rows: seq<Record>) {
    forall i :: 0 <= i < |rows| ==> Readable(rows[i])
  }

  lemma Parts(a: Bytes, b: Bytes, k: Bytes, v: Bytes, tail: Bytes)
    requires |a| == 4 && |b| == 4
    ensures var rest := a + b + k + v + tail;
            && rest[..4] == a && rest[4..8] == b
            && rest[8..8 + |k|] == k && rest[8 + |k|..8 + |k| + |v|] == v && rest[8 + |k| + |v|..] == tail
  {}

  lemma ReadWritten(r: Record, tail: Bytes)
    requires Holdable(r)
    ensures ReadStep(RecordBytes(r) + tail) == if Readable(r) then Next(r, tail) else Bad
  {
    ReadBack(|r.0|, 4);
    ReadBack(|r.1|, 4);
    Widths();
    ReadParts(LittleEndian(|r.0|, 4), LittleEndian(|r.1|, 4), r, tail);
  }

  lemma ReadParts(a: Bytes, b: Bytes, r: Record, tail: Bytes)
    requires Holdable(r) && |a| == 4 && |b| == 4 && FromLittleEndian(a) == |r.0| && FromLittleEndian(b) == |r.1|
    ensures ReadStep(a + b + r.0 + r.1 + tail) == if Readable(r) then Next(r, tail) else Bad
  {
    Parts(a, b, r.0, r.1, tail);
  }

  lemma WriteRead(rest: Bytes)
    requires ReadStep(rest).Next?
    ensures var Next(r, tail) := ReadStep(rest);
            Readable(r) && rest == RecordBytes(r) + tail
  {
    WriteBack(rest[..4]);
    WriteBack(rest[4..8]);
    FiveParts(rest, FromLittleEndian(rest[..4]), FromLittleEndian(rest[4..8]));
  }

  lemma FiveParts(rest: Bytes, k: nat, v: nat)
    requires |rest| >= 8 + k + v
    ensures rest == rest[..4] + rest[4..8] + rest[8..8 + k] + rest[8 + k..8 + k + v] + rest[8 + k + v..]
  {}

  lemma EndRead(tail: Bytes)
    ensures ReadStep(LittleEndian(END, 4) + tail) == Last(tail)
  {
    var rest := LittleEndian(END, 4) + tail;
    assert rest[..4] == LittleEndian(END, 4) && rest[4..] == tail;
    ReadBack(END, 4);
    Widths();
  }

  /** Written records are read back, up to the first that is too long to read. */
  lemma {:induction false} ReadAllWritten(rows: seq<Record>, tail: Bytes)
    requires forall i :: 0 <= i < |rows| ==> Holdable(rows[i])
    ensures ReadAll(RecordsBytes(rows) + (LittleEndian(END, 4) + tail)) ==
            if AllReadable(rows) then Some((rows, tail)) else None
  {
    var rest := RecordsBytes(rows) + (LittleEndian(END, 4) + tail);
    if rows == [] {
      assert rest == LittleEndian(END, 4) + tail;
      EndRead(tail);
    } else {
      var more := RecordsBytes(rows[1..]) + (LittleEndian(END, 4) + tail);
      assert rest == RecordBytes(rows[0]) + more;
      ReadWritten(rows[0], more);
      ReadAllWritten(rows[1..], tail);
      assert rows == [rows[0]] + rows[1..];
      assert AllReadable(rows) <==> Readable(rows[0]) && AllReadable(rows[1..]) by {
        assert forall i :: 0 <= i < |rows| - 1 ==> rows[1..][i] == rows[i + 1];
        assert forall i :: 1 <= i < |rows| ==> rows[i] == rows[1..][i - 1];
      }
    }
  }

  lemma Associates(a: Bytes, b: Bytes, c: Bytes)
    ensures a + (b + c) == (a + b) + c
  {}

  lemma {:induction false} WriteAllRead(rest: Bytes)
    requires ReadAll(rest).Some?
    ensures var (rows, tail) := ReadAll(rest).value;
            AllReadable(rows) && rest == RecordsBytes(rows) + (LittleEndian(END, 4) + tail)
    decreases |rest|
  {
    match ReadStep(rest) {
      case Last(tail) =>
        WriteBack(rest[..4]);
        assert rest == rest[..4] + rest[4..];
      case Next(r, tail) =>
        WriteRead(rest);
        WriteAllRead(tail);
        var (rows, end) := ReadAll(tail).value;
        RecordsFirst(r, rows);
        Associates(RecordBytes(r), RecordsBytes(rows), LittleEndian(END, 4) + end);
    }
  }

  lemma RecordsFirst(r: Record, rows: seq<Record>)
    ensures RecordsBytes([r] + rows) == RecordBytes(r) + RecordsBytes(rows)
    ensures Readable(r) && AllReadable(rows) ==> AllReadable([r] + rows)
  {
    assert ([r] + rows)[1..] == rows;
  }

  /** More bytes after what is read do not change it. */
  lemma {:induction false} ReadAllLonger(rest: Bytes, more: Bytes)
    requires ReadAll(rest).Some?
    ensures var (rows, tail) := ReadAll(rest).value;
            ReadAll(rest + more) == Some((rows, tail + more))
    decreases |rest|
  {
    var whole := rest + more;
    assert whole[..4] == rest[..4];
    match ReadStep(rest) {
      case Last(tail) =>
        assert whole[4..] == tail + more;
      case Next(r, tail) =>
        WriteRead(rest);
        assert whole == RecordBytes(r) + (tail + more);
        ReadWritten(r, tail + more);
        ReadAllLonger(tail, more);
    }
  }

  lemma FooterLength(file: Bytes, hash: Hash)
    requires Verified(file, hash).Some?
    ensures |file| >= 8 && ReadAll(file[8..]).Some? && |ReadAll(file[8..]).value.1| == 40
  {}

  lemma AfterHeader(file: Bytes, more: Bytes)
    requires |file| >= 8
    ensures (file + more)[8..] == file[8..] + more
  {}

  /** Of two files that are both accepted, neither is a proper prefix of the other, whatever the digest. */
  lemma NoOtherLength(file: Bytes, more: Bytes, hash: Hash)
    requires Verified(file, hash).Some? && more != []
    ensures Verified(file + more, hash).None?
  {
    FooterLength(file, hash);
    ReadAllLonger(file[8..], more);
    AfterHeader(file, more);
    if Verified(file + more, hash).Some? {
      FooterLength(file + more, hash);
      assert false;
    }
  }

  ghost predicate Complete(m: Flat) {
    && FORMAT_KEY in m && m[FORMAT_KEY] == FORMAT
    && |m| < 0x1_0000_0000_0000_0000
    && forall k :: k in m ==> Readable((k, m[k]))
  }

  lemma {:induction false} IncreasingAscends(previous: Bytes, rows: seq<Record>)
    ensures Increasing(previous, rows) <==>
            && (forall i :: 0 <= i < |rows| ==> Below(previous, rows[i].0))
            && forall i, j :: 0 <= i < j < |rows| ==> Below(rows[i].0, rows[j].0)
    decreases |rows|
  {
    if rows != [] {
      IncreasingAscends(rows[0].0, rows[1..]);
      if Increasing(previous, rows) {
        forall i | 0 <= i < |rows| ensures Below(previous, rows[i].0) {
          if i > 0 { assert rows[i] == rows[1..][i - 1]; BelowTransitive(previous, rows[0].0, rows[i].0); }
        }
        forall i, j | 0 <= i < j < |rows| ensures Below(rows[i].0, rows[j].0) {
          assert rows[j] == rows[1..][j - 1];
          if i > 0 { assert rows[i] == rows[1..][i - 1]; }
        }
      } else if Below(previous, rows[0].0) {
        assert !Increasing(rows[0].0, rows[1..]);
        assert forall i :: 0 <= i < |rows| - 1 ==> rows[1..][i] == rows[i + 1];
      }
    }
  }

  lemma {:induction false} FormatsRightIff(rows: seq<Record>)
    ensures FormatsRight(rows) <==> forall i :: 0 <= i < |rows| && rows[i].0 == FORMAT_KEY ==> rows[i].1 == FORMAT
    ensures HasFormat(rows) <==> exists i :: 0 <= i < |rows| && rows[i].0 == FORMAT_KEY
  {
    if rows != [] {
      FormatsRightIff(rows[1..]);
      assert forall i :: 0 <= i < |rows| - 1 ==> rows[1..][i] == rows[i + 1];
      assert forall i :: 1 <= i < |rows| ==> rows[i] == rows[1..][i - 1];
    }
  }

  function MapOf(rows: seq<Record>): Flat {
    if rows == [] then map[] else MapOf(rows[..|rows| - 1])[rows[|rows| - 1].0 := rows[|rows| - 1].1]
  }

  ghost predicate DistinctKeys(rows: seq<Record>) {
    forall i, j :: 0 <= i < j < |rows| ==> rows[i].0 != rows[j].0
  }

  lemma {:induction false} MapOfRows(rows: seq<Record>)
    requires DistinctKeys(rows)
    ensures forall k :: k in MapOf(rows) ==> exists i :: 0 <= i < |rows| && rows[i].0 == k
    ensures forall i :: 0 <= i < |rows| ==> rows[i].0 in MapOf(rows) && MapOf(rows)[rows[i].0] == rows[i].1
  {
    if rows != [] {
      var rest := rows[..|rows| - 1];
      MapOfRows(rest);
      forall i | 0 <= i < |rows| ensures rows[i].0 in MapOf(rows) && MapOf(rows)[rows[i].0] == rows[i].1 {
        if i < |rest| { assert rest[i] == rows[i] && rows[i].0 != rows[|rows| - 1].0; }
      }
      forall k | k in MapOf(rows) ensures exists i :: 0 <= i < |rows| && rows[i].0 == k {
        if k != rows[|rows| - 1].0 {
          assert k in MapOf(rest);
          var i :| 0 <= i < |rest| && rest[i].0 == k;
          assert rows[i].0 == k;
        }
      }
    }
  }

  function KeysOf(rows: seq<Record>): (r: seq<Bytes>)
    ensures |r| == |rows|
  {
    seq(|rows|, i requires 0 <= i < |rows| => rows[i].0)
  }

  lemma KeysEnumerate(rows: seq<Record>)
    requires forall i, j :: 0 <= i < j < |rows| ==> Below(rows[i].0, rows[j].0)
    ensures DistinctKeys(rows) && Enumerates(KeysOf(rows), MapOf(rows).Keys)
  {
    var keys, m := KeysOf(rows), MapOf(rows);
    AscendingDistinct(keys);
    forall i, j | 0 <= i < j < |rows| ensures rows[i].0 != rows[j].0 { assert keys[i] != keys[j]; }
    MapOfRows(rows);
    forall k ensures k in keys <==> k in m.Keys {
      if k in keys { var i :| 0 <= i < |keys| && keys[i] == k; assert rows[i].0 == k; }
      if k in m { var i :| 0 <= i < |rows| && rows[i].0 == k; assert keys[i] == k; }
    }
  }

  /** Records in strict key order are the records of one map. */
  lemma OrderedRowsAreOfMap(rows: seq<Record>)
    requires forall i, j :: 0 <= i < j < |rows| ==> Below(rows[i].0, rows[j].0)
    ensures RowsOf(MapOf(rows)) == rows
  {
    var keys, m := KeysOf(rows), MapOf(rows);
    KeysEnumerate(rows);
    OrderedEnumerates(m.Keys);
    EnumerationUnique(keys, Ordered(m.Keys), m.Keys);
    MapOfRows(rows);
    RowsAt(m, rows, keys);
  }

  lemma RowsAt(m: Flat, rows: seq<Record>, keys: seq<Bytes>)
    requires keys == Ordered(m.Keys) && |keys| == |rows|
    requires forall i :: 0 <= i < |rows| ==> keys[i] == rows[i].0 && rows[i].0 in m && m[rows[i].0] == rows[i].1
    ensures RowsOf(m) == rows
  {
    forall i | 0 <= i < |rows| ensures RowsOf(m)[i] == rows[i] {
      assert keys[i] == rows[i].0;
    }
  }

  lemma RowsOfIncreasing(m: Flat)
    requires [] !in m
    ensures Increasing([], RowsOf(m))
  {
    var rows, keys := RowsOf(m), Ordered(m.Keys);
    OrderedEnumerates(m.Keys);
    forall i | 0 <= i < |rows| ensures Below([], rows[i].0) { assert keys[i] in keys; }
    IncreasingAscends([], rows);
  }

  lemma RowsOfOrdered(m: Flat)
    requires [] !in m
    ensures Increasing([], RowsOf(m))
    ensures FormatsRight(RowsOf(m)) && HasFormat(RowsOf(m)) <==> FORMAT_KEY in m && m[FORMAT_KEY] == FORMAT
  {
    RowsOfIncreasing(m);
    RowsOfFormat(m);
  }

  lemma RowsOfFormat(m: Flat)
    ensures FormatsRight(RowsOf(m)) && HasFormat(RowsOf(m)) <==> FORMAT_KEY in m && m[FORMAT_KEY] == FORMAT
  {
    var rows, keys := RowsOf(m), Ordered(m.Keys);
    FormatsRightIff(rows);
    if FORMAT_KEY in m {
      var i :| 0 <= i < |keys| && keys[i] == FORMAT_KEY;
      assert rows[i] == (FORMAT_KEY, m[FORMAT_KEY]);
    }
    forall i | 0 <= i < |rows| && rows[i].0 == FORMAT_KEY ensures FORMAT_KEY in m && rows[i].1 == m[FORMAT_KEY] {
      assert keys[i] in keys;
    }
  }

  lemma AllReadableIff(m: Flat)
    ensures AllReadable(RowsOf(m)) <==> forall k :: k in m ==> Readable((k, m[k]))
  {
    var rows, keys := RowsOf(m), Ordered(m.Keys);
    forall i | 0 <= i < |rows| ensures rows[i].0 in m && rows[i] == (keys[i], m[keys[i]]) { assert keys[i] in keys; }
    forall k | k in m ensures exists i :: 0 <= i < |rows| && rows[i] == (k, m[k]) {
      var i :| 0 <= i < |keys| && keys[i] == k;
      assert rows[i] == (k, m[k]);
    }
  }

  /** Verification accepts an export exactly when it is one of a complete database within the limits of a
      record, and then it reads what was exported. */
  lemma ExportVerifies(m: Flat, hash: Hash)
    requires forall k :: k in m ==> Holdable((k, m[k]))
    ensures Verified(Exported(m, hash), hash) == if Complete(m) then Some(RowsOf(m)) else None
  {
    var rows := RowsOf(m);
    var digest := hash(HEADER + RecordsBytes(rows));
    var tail := LittleEndian(|rows|, 8) + digest;
    FileParts(rows, hash);
    forall i | 0 <= i < |rows| ensures Holdable(rows[i]) { assert Ordered(m.Keys)[i] in Ordered(m.Keys); }
    ReadAllWritten(rows, tail);
    AllReadableIff(m);
    if AllReadable(rows) {
      RowsOfOrdered(m);
      CountWritten(|rows|);
      FooterWritten(rows, LittleEndian(|rows|, 8), digest, hash);
    }
  }

  // The text of an index status, with the texts of its numbers

  function Commas(items: seq<Bytes>): Bytes {
    if items == [] then [] else if |items| == 1 then items[0] else items[0] + [44] + Commas(items[1..])
  }

  function ListText(items: seq<Bytes>): Bytes {
    [91] + Commas(items) + [93]
  }

  /** A status: its other fields around the list of its centroids. */
  function StatusText(head: Bytes, centroids: seq<seq<Bytes>>, tail: Bytes): Bytes {
    head + ListText(seq(|centroids|, i requires 0 <= i < |centroids| => ListText(centroids[i]))) + tail
  }

  lemma {:induction false} CommasLength(items: seq<Bytes>, least: nat, most: nat)
    requires items != [] && forall i :: 0 <= i < |items| ==> least <= |items[i]| <= most
    ensures |items| * (least + 1) - 1 <= |Commas(items)| <= |items| * (most + 1) - 1
  {
    if |items| > 1 {
      CommasLength(items[1..], least, most);
      Distribute(|items| - 1, least + 1);
      Distribute(|items| - 1, most + 1);
    }
  }

  /** Finite numbers of four bytes take 3 to 16 characters. */
  ghost predicate NumberTexts(centroid: seq<Bytes>) {
    |centroid| == 4096 && forall i :: 0 <= i < |centroid| ==> 3 <= |centroid[i]| <= 16
  }

  /** With as many centroids and dimensions as are allowed, the text is longer than a record can be. */
  lemma StatusLength(head: Bytes, centroids: seq<seq<Bytes>>, tail: Bytes)
    requires |centroids| == 1024 && forall i :: 0 <= i < |centroids| ==> NumberTexts(centroids[i])
    ensures MAX_RECORD < |StatusText(head, centroids, tail)| <= |head| + |tail| + 0x1000_0000
  {
    var texts: seq<Bytes> := seq(|centroids|, i requires 0 <= i < |centroids| => ListText(centroids[i]));
    forall i | 0 <= i < |texts| ensures 16385 <= |texts[i]| <= 69633 {
      assert NumberTexts(centroids[i]);
      CommasLength(centroids[i], 3, 16);
    }
    CommasLength(texts, 16385, 69633);
  }

  /** Such a database exports and cannot be restored. */
  lemma UnreadableStatus(m: Flat, k: Bytes, head: Bytes, centroids: seq<seq<Bytes>>, tail: Bytes, hash: Hash)
    requires (forall x :: x in m ==> Holdable((x, m[x]))) && k in m && m[k] == StatusText(head, centroids, tail)
    requires |centroids| == 1024 && forall i :: 0 <= i < |centroids| ==> NumberTexts(centroids[i])
    ensures Verified(Exported(m, hash), hash).None?
  {
    StatusLength(head, centroids, tail);
    assert !Readable((k, m[k]));
    ExportVerifies(m, hash);
  }

  /** The index of documents whose vectors are 4096 times the number 1.0, in 1024 clusters. */
  lemma UnreadableExample(head: Bytes, tail: Bytes, hash: Hash)
    requires |head| + |tail| <= 0x10_0000
    ensures var centroids := seq(1024, _ => seq(4096, _ => [49, 46, 48]));
            var m: Flat := map[FORMAT_KEY := FORMAT, [105, 47, 97] := StatusText(head, centroids, tail)];
            (forall x :: x in m ==> Holdable((x, m[x]))) && Verified(Exported(m, hash), hash).None?
  {
    var one: Bytes := [49, 46, 48];
    var centroids: seq<seq<Bytes>> := seq(1024, _ => seq(4096, _ => one));
    StatusLength(head, centroids, tail);
    var m: Flat := map[FORMAT_KEY := FORMAT, [105, 47, 97] := StatusText(head, centroids, tail)];
    UnreadableStatus(m, [105, 47, 97], head, centroids, tail, hash);
  }

  lemma FileParts(rows: seq<Record>, hash: Hash)
    ensures var file := FileOf(rows, hash);
            && |file| >= 8 && file[..8] == HEADER
            && file[8..] == RecordsBytes(rows) + (LittleEndian(END, 4)
                            + (LittleEndian(|rows|, 8) + hash(HEADER + RecordsBytes(rows))))
  {
    FrameParts(RecordsBytes(rows), LittleEndian(END, 4), LittleEndian(|rows|, 8), hash(HEADER + RecordsBytes(rows)));
  }

  lemma FrameParts(records: Bytes, end: Bytes, count: Bytes, digest: Bytes)
    ensures var file := HEADER + records + (end + count + digest);
            |file| >= 8 && file[..8] == HEADER && file[8..] == records + (end + (count + digest))
  {}

  lemma CountWritten(n: nat)
    ensures FromLittleEndian(LittleEndian(n, 8)) == n <==> n < 0x1_0000_0000_0000_0000
  {
    ReadBack(n, 8);
    Widths();
  }

  lemma FooterWritten(rows: seq<Record>, count: Bytes, digest: Digest, hash: Hash)
    requires |count| == 8
    requires FromLittleEndian(count) == |rows| <==> |rows| < 0x1_0000_0000_0000_0000
    requires digest == hash(HEADER + RecordsBytes(rows))
    ensures FooterRight(rows, count + digest, hash) <==> |rows| < 0x1_0000_0000_0000_0000
  {
    assert (count + digest)[..8] == count && (count + digest)[8..] == digest;
  }

  lemma FooterRebuilt(footer: Bytes)
    requires |footer| == 40
    ensures FromLittleEndian(footer[..8]) < 0x1_0000_0000_0000_0000
    ensures footer == LittleEndian(FromLittleEndian(footer[..8]), 8) + footer[8..]
  {
    WriteBack(footer[..8]);
    Widths();
  }

  /** What verification accepts is the export of a complete database. */
  lemma VerifiedIsExport(file: Bytes, hash: Hash)
    requires Verified(file, hash).Some?
    ensures var m := MapOf(Verified(file, hash).value);
            && Complete(m) && RowsOf(m) == Verified(file, hash).value
            && file == Exported(m, hash)
  {
    var (rows, footer) := ReadAll(file[8..]).value;
    WriteAllRead(file[8..]);
    FooterRebuilt(footer);
    FileRebuilt(file, rows, footer, hash);
    CompleteRows(rows);
  }

  lemma FileRebuilt(file: Bytes, rows: seq<Record>, footer: Bytes, hash: Hash)
    requires |file| >= 8 && file[..8] == HEADER && FooterRight(rows, footer, hash)
    requires file[8..] == RecordsBytes(rows) + (LittleEndian(END, 4) + footer)
    ensures file == FileOf(rows, hash)
  {
    FooterRebuilt(footer);
    FileParts(rows, hash);
    assert file == file[..8] + file[8..];
    assert FileOf(rows, hash) == FileOf(rows, hash)[..8] + FileOf(rows, hash)[8..];
  }

  /** Ordered records that pass the checks are those of a complete database. */
  lemma CompleteRows(rows: seq<Record>)
    requires AllReadable(rows) && Increasing([], rows) && FormatsRight(rows) && HasFormat(rows)
    requires |rows| < 0x1_0000_0000_0000_0000
    ensures Complete(MapOf(rows)) && RowsOf(MapOf(rows)) == rows
  {
    var m := MapOf(rows);
    IncreasingAscends([], rows);
    OrderedRowsAreOfMap(rows);
    AllReadableIff(m);
    assert [] in m ==> Readable(([], m[[]]));
    RowsOfOrdered(m);
  }

  /** A file is accepted exactly when it is the export of a complete database. */
  lemma AcceptedIffExport(file: Bytes, hash: Hash)
    ensures Verified(file, hash).Some? <==> exists m :: Complete(m) && file == Exported(m, hash)
  {
    if Verified(file, hash).Some? { VerifiedIsExport(file, hash); }
    if m :| Complete(m) && file == Exported(m, hash) { ExportVerifies(m, hash); }
  }

  lemma RowsDistinct(m: Flat)
    ensures DistinctKeys(RowsOf(m))
    ensures forall r :: r in RowsOf(m) <==> r.0 in m && r.1 == m[r.0]
  {
    var rows, keys := RowsOf(m), Ordered(m.Keys);
    OrderedEnumerates(m.Keys);
    AscendingDistinct(keys);
    forall r ensures r in rows <==> r.0 in m && r.1 == m[r.0] {
      if r in rows { var i :| 0 <= i < |rows| && rows[i] == r; assert keys[i] in keys; }
      if r.0 in m && r.1 == m[r.0] { var i :| 0 <= i < |keys| && keys[i] == r.0; assert rows[i] == r; }
    }
  }

  lemma MapOfRowsOf(m: Flat)
    ensures MapOf(RowsOf(m)) == m
  {
    var rows := RowsOf(m);
    RowsDistinct(m);
    MapOfRows(rows);
    forall k | k in m ensures k in MapOf(rows) && MapOf(rows)[k] == m[k] { ListedRow(m, rows, k); }
    forall k | k in MapOf(rows) ensures k in m {
      var i :| 0 <= i < |rows| && rows[i].0 == k;
      assert rows[i] in rows;
    }
  }

  lemma ListedRow(m: Flat, rows: seq<Record>, k: Bytes)
    requires k in m && (k, m[k]) in rows && DistinctKeys(rows)
    ensures k in MapOf(rows) && MapOf(rows)[k] == m[k]
  {
    MapOfRows(rows);
    var i :| 0 <= i < |rows| && rows[i] == (k, m[k]);
  }

  /** What was exported is what a restore of the file writes. */
  lemma ExportRoundTrip(m: Flat, hash: Hash)
    requires Complete(m)
    ensures Verified(Exported(m, hash), hash).Some? && MapOf(Verified(Exported(m, hash), hash).value) == m
  {
    ExportVerifies(m, hash);
    MapOfRowsOf(m);
  }
}
