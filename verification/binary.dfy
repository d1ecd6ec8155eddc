/** Vector blocks: a header, rows of an ID and its components, and a checksum. */
module Binary {
  import opened Arithmetic
  import opened Order
  import opened Wrappers
  import opened Endian
  import opened Model
  import opened Index
  import Engine

  type U32 = n: nat | n < 0x1_0000_0000

  /** The checksum is any function of the bytes before it. */
  type Checksum = Bytes -> U32

  const MAGIC: Bytes := [71, 77, 86, 66, 1]

  // ---------------------------------------------------------------------------------------------
  // The format

  function FloatBytes(v: Vector): (r: Bytes)
    ensures |r| == 4 * |v|
  {
    if v == [] then [] else LittleEndian(v[0], 4) + FloatBytes(v[1..])
  }

  function RowBytes(row: Row): Bytes {
    LittleEndian(|row.0|, 2) + row.0 + FloatBytes(row.1)
  }

  function RowsBytes(rows: seq<Row>): Bytes {
    if rows == [] then [] else RowBytes(rows[0]) + RowsBytes(rows[1..])
  }

  function Dimensions(rows: seq<Row>): nat {
    if rows == [] then 0 else |rows[0].1|
  }

  function Header(dimensions: nat, count: nat): (r: Bytes)
    ensures |r| == 13
  {
    MAGIC + LittleEndian(dimensions, 4) + LittleEndian(count, 4)
  }

  function Sealed(body: Bytes, crc: Checksum): Bytes {
    body + LittleEndian(crc(body), 4)
  }

  function Encoded(rows: seq<Row>, crc: Checksum): Bytes {
    Sealed(Header(Dimensions(rows), |rows|) + RowsBytes(rows), crc)
  }

  /** Rows that a block can hold. */
  predicate Storable(row: Row, dimensions: nat) {
    ValidId(row.0) && |row.1| == dimensions && forall i :: 0 <= i < |row.1| ==> Finite32(row.1[i])
  }

  predicate WellFormedRows(rows: seq<Row>) {
    && 1 <= |rows| < 0x1_0000_0000
    && 1 <= Dimensions(rows) <= MAX_DIMENSIONS
    && forall i :: 0 <= i < |rows| ==> Storable(rows[i], Dimensions(rows))
  }

  /** Writing a block. */
  method Encode(rows: seq<Row>, crc: Checksum) returns (out: Bytes)
    ensures out == Encoded(rows, crc)
  {
    out := MAGIC;
    out := out + LittleEndian(if rows == [] then 0 else |rows[0].1|, 4);
    out := out + LittleEndian(|rows|, 4);
    out := EncodeRows(out, rows);
    out := out + LittleEndian(crc(out), 4);
  }

  method EncodeRows(before: Bytes, rows: seq<Row>) returns (out: Bytes)
    ensures out == before + RowsBytes(rows)
  {
    out := before;
    ghost var whole := before + RowsBytes(rows);
    for i := 0 to |rows|
      invariant out + RowsBytes(rows[i..]) == whole
    {
      RowsFrom(out, rows, i);
      out := EncodeRow(out, rows[i]);
    }
    assert rows[|rows|..] == [] && out == whole;
  }

  lemma RowsFrom(before: Bytes, rows: seq<Row>, i: nat)
    requires i < |rows|
    ensures before + RowsBytes(rows[i..]) == (before + RowBytes(rows[i])) + RowsBytes(rows[i + 1..])
  {
    assert rows[i..][1..] == rows[i + 1..];
    assert before + (RowBytes(rows[i]) + RowsBytes(rows[i + 1..])) ==
           (before + RowBytes(rows[i])) + RowsBytes(rows[i + 1..]);
  }

  method EncodeRow(before: Bytes, row: Row) returns (out: Bytes)
    ensures out == before + RowBytes(row)
  {
    var (id, vector) := row;
    out := before + LittleEndian(|id|, 2);
    out := out + id;
    ghost var whole := out + FloatBytes(vector);
    for j := 0 to |vector|
      invariant out + FloatBytes(vector[j..]) == whole
    {
      assert vector[j..][1..] == vector[j + 1..];
      assert out + (LittleEndian(vector[j], 4) + FloatBytes(vector[j + 1..])) ==
             (out + LittleEndian(vector[j], 4)) + FloatBytes(vector[j + 1..]);
      out := out + LittleEndian(vector[j], 4);
    }
    assert vector[|vector|..] == [] && out == whole;
    assert whole == before + RowBytes(row);
  }

  // ---------------------------------------------------------------------------------------------
  // Reading

  function Floats(data: Bytes): (v: Vector)
    ensures |v| == |data| / 4
  {
    if |data| < 4 then [] else
      [ReadFloat(data[..4])] + Floats(data[4..])
  }

  /** The first row of the rest, and what follows it. */
  function TakeRow(rest: Bytes, dimensions: nat): Option<(Row, Bytes)> {
    if |rest| < 2 then None else
      var n := FromLittleEndian(rest[..2]);
      if |rest| < 2 + n || !ValidId(rest[2..2 + n]) || |rest| < 2 + n + 4 * dimensions then None else
        var row := (rest[2..2 + n], Floats(rest[2 + n..2 + n + 4 * dimensions]));
        if Storable(row, dimensions) then Some((row, rest[2 + n + 4 * dimensions..])) else None
  }

  function TakeRows(rest: Bytes, dimensions: nat, count: nat): Option<seq<Row>> {
    if count == 0 then if rest == [] then Some([]) else None
    else
      match TakeRow(rest, dimensions)
      case None => None
      case Some((row, tail)) =>
        match TakeRows(tail, dimensions, count - 1)
        case None => None
        case Some(rows) => Some([row] + rows)
  }

  /** What the bytes before the checksum say. */
  function Parsed(body: Bytes): Option<seq<Row>>
    requires |body| >= 13
  {
    var dimensions, count := FromLittleEndian(body[5..9]), FromLittleEndian(body[9..13]);
    if dimensions > MAX_DIMENSIONS || (count > 0 && dimensions == 0) || count > |body| / (dimensions * 4 + 2) then None
    else TakeRows(body[13..], dimensions, count)
  }

  function Decoded(bytes: Bytes, crc: Checksum): Option<seq<Row>> {
    if |bytes| < 17 || bytes[..5] != MAGIC then None else
      var body := bytes[..|bytes| - 4];
      if crc(body) != FromLittleEndian(bytes[|bytes| - 4..]) then None else
        Parsed(body)
  }

  /** Reading a block: total on arbitrary bytes, and never room for more rows than there are bytes. */
  method Decode(bytes: Bytes, crc: Checksum) returns (r: Option<seq<Row>>, reserved: nat)
    ensures r == Decoded(bytes, crc)
    ensures reserved <= |bytes|
  {
    reserved := 0;
    if |bytes| < 17 || bytes[..5] != MAGIC {
      return None, reserved;
    }
    var body, checksum := bytes[..|bytes| - 4], bytes[|bytes| - 4..];
    if crc(body) != FromLittleEndian(checksum) {
      return None, reserved;
    }
    var dimensions, count := FromLittleEndian(body[5..9]), FromLittleEndian(body[9..13]);
    if dimensions > MAX_DIMENSIONS || (count > 0 && dimensions == 0) || count > |body| / (dimensions * 4 + 2) {
      return None, reserved;
    }
    reserved := count;
    QuotientAtMost(|body|, dimensions * 4 + 2);
    r := DecodeRows(body[13..], dimensions, count);
  }

  /** What reading the remaining rows adds to those already read. */
  function Continued(rows: seq<Row>, more: Option<seq<Row>>): Option<seq<Row>> {
    if more.None? then None else Some(rows + more.value)
  }

  lemma ContinuedByOne(rows: seq<Row>, row: Row, tail: Bytes, dimensions: nat, count: nat)
    ensures Continued(rows, Continued([row], TakeRows(tail, dimensions, count))) ==
            Continued(rows + [row], TakeRows(tail, dimensions, count))
  {
    var more := TakeRows(tail, dimensions, count);
    if more.Some? { assert rows + ([row] + more.value) == (rows + [row]) + more.value; }
  }

  method DecodeRows(start: Bytes, dimensions: nat, count: nat) returns (r: Option<seq<Row>>)
    ensures r == TakeRows(start, dimensions, count)
  {
    var rest, rows: seq<Row>, i := start, [], 0;
    ContinuedByNone(TakeRows(start, dimensions, count));
    while i < count
      invariant i <= count
      invariant TakeRows(start, dimensions, count) == Continued(rows, TakeRows(rest, dimensions, count - i))
    {
      var next := DecodeRow(rest, dimensions);
      if next.None? {
        return None;
      }
      ContinuedByOne(rows, next.value.0, next.value.1, dimensions, count - i - 1);
      rows, rest := rows + [next.value.0], next.value.1;
      i := i + 1;
    }
    r := if rest == [] then Some(rows) else None;
    assert rows + [] == rows;
  }

  lemma ContinuedByNone(more: Option<seq<Row>>)
    ensures Continued([], more) == more
  {
    if more.Some? { assert [] + more.value == more.value; }
  }

  method DecodeRow(start: Bytes, dimensions: nat) returns (r: Option<(Row, Bytes)>)
    ensures r == TakeRow(start, dimensions)
  {
    if |start| < 2 {
      return None;
    }
    var length := FromLittleEndian(start[..2]);
    var rest := start[2..];
    assert |rest| >= length ==> rest[..length] == start[2..2 + length];
    if |rest| < length || !ValidId(rest[..length]) {
      return None;
    }
    var id := rest[..length];
    rest := rest[length..];
    assert rest == start[2 + length..];
    if |rest| < dimensions * 4 {
      return None;
    }
    assert start[2 + length..2 + length + 4 * dimensions] == rest[..dimensions * 4];
    assert start[2 + length + 4 * dimensions..] == rest[dimensions * 4..];
    var vector := DecodeFloats(rest[..dimensions * 4], dimensions);
    r := if vector.None? then None else Some(((id, vector.value), rest[dimensions * 4..]));
  }

  method DecodeFloats(data: Bytes, dimensions: nat) returns (r: Option<Vector>)
    requires |data| == dimensions * 4
    ensures r == if forall i :: 0 <= i < dimensions ==> Finite32(Floats(data)[i]) then Some(Floats(data)) else None
  {
    var vector: Vector, rest := [], data;
    while |rest| >= 4
      invariant |rest| == 4 * (dimensions - |vector|)
      invariant vector + Floats(rest) == Floats(data)
      invariant forall j :: 0 <= j < |vector| ==> Finite32(vector[j])
    {
      var value := ReadFloat(rest[..4]);
      assert Floats(data)[|vector|] == value;
      if !Finite32(value) {
        return None;
      }
      assert (vector + [value]) + Floats(rest[4..]) == vector + ([value] + Floats(rest[4..]));
      vector, rest := vector + [value], rest[4..];
    }
    assert vector == Floats(data);
    r := Some(vector);
  }

  function ReadFloat(chunk: Bytes): (x: F32)
    requires |chunk| == 4
    ensures x == FromLittleEndian(chunk) && LittleEndian(x, 4) == chunk
  {
    WriteBack(chunk);
    Widths();
    FromLittleEndian(chunk)
  }

  // ---------------------------------------------------------------------------------------------
  // Round trips

  lemma {:induction false} FloatsOfBytes(v: Vector)
    ensures Floats(FloatBytes(v)) == v
  {
    if v != [] {
      FloatsOfBytes(v[1..]);
      var data := FloatBytes(v);
      assert data[..4] == LittleEndian(v[0], 4) && data[4..] == FloatBytes(v[1..]);
      ReadBack(v[0], 4);
      Widths();
      assert FromLittleEndian(data[..4]) == v[0];
    }
  }

  lemma {:induction false} BytesOfFloats(data: Bytes)
    requires |data| % 4 == 0
    ensures FloatBytes(Floats(data)) == data
    decreases |data|
  {
    if |data| >= 4 {
      BytesOfFloats(data[4..]);
      assert Floats(data)[1..] == Floats(data[4..]);
      assert data == data[..4] + data[4..];
    }
  }

  lemma TakeWrittenRow(row: Row, tail: Bytes, dimensions: nat)
    requires Storable(row, dimensions)
    ensures TakeRow(RowBytes(row) + tail, dimensions) == Some((row, tail))
  {
    ReadBack(|row.0|, 2);
    Widths();
    RowParts(LittleEndian(|row.0|, 2), row.0, FloatBytes(row.1), tail);
    FloatsOfBytes(row.1);
  }

  lemma RowParts(length: Bytes, id: Bytes, floats: Bytes, tail: Bytes)
    requires |length| == 2
    ensures var rest, n := length + id + floats + tail, |id|;
            && rest[..2] == length && rest[2..2 + n] == id
            && rest[2 + n..2 + n + |floats|] == floats && rest[2 + n + |floats|..] == tail
  {}

  lemma WriteTakenRow(rest: Bytes, dimensions: nat)
    requires TakeRow(rest, dimensions).Some?
    ensures var (row, tail) := TakeRow(rest, dimensions).value;
            Storable(row, dimensions) && rest == RowBytes(row) + tail
  {
    var n := FromLittleEndian(rest[..2]);
    WriteBack(rest[..2]);
    var data := rest[2 + n..2 + n + 4 * dimensions];
    BytesOfFloats(data);
    assert rest == rest[..2] + rest[2..2 + n] + data + rest[2 + n + 4 * dimensions..];
  }

  lemma {:induction false} TakeWrittenRows(rows: seq<Row>, dimensions: nat)
    requires forall i :: 0 <= i < |rows| ==> Storable(rows[i], dimensions)
    ensures TakeRows(RowsBytes(rows), dimensions, |rows|) == Some(rows)
  {
    if rows != [] {
      TakeWrittenRow(rows[0], RowsBytes(rows[1..]), dimensions);
      TakeWrittenRows(rows[1..], dimensions);
      assert [rows[0]] + rows[1..] == rows;
    }
  }

  lemma {:induction false} WriteTakenRows(rest: Bytes, dimensions: nat, count: nat)
    requires TakeRows(rest, dimensions, count).Some?
    ensures var rows := TakeRows(rest, dimensions, count).value;
            && |rows| == count && rest == RowsBytes(rows)
            && forall i :: 0 <= i < |rows| ==> Storable(rows[i], dimensions)
    decreases count
  {
    if count > 0 {
      WriteTakenRow(rest, dimensions);
      var (row, tail) := TakeRow(rest, dimensions).value;
      WriteTakenRows(tail, dimensions, count - 1);
      var rows := TakeRows(rest, dimensions, count).value;
      assert rows[0] == row && rows[1..] == TakeRows(tail, dimensions, count - 1).value;
    }
  }

  lemma {:induction false} RowsLength(rows: seq<Row>, dimensions: nat)
    requires forall i :: 0 <= i < |rows| ==> Storable(rows[i], dimensions)
    ensures |rows| * (4 * dimensions + 2) <= |RowsBytes(rows)| <= |rows| * (4 * dimensions + 130)
  {
    if rows != [] {
      RowsLength(rows[1..], dimensions);
      assert |RowBytes(rows[0])| == 2 + |rows[0].0| + 4 * dimensions;
      Distribute(|rows| - 1, 4 * dimensions + 2);
      Distribute(|rows| - 1, 4 * dimensions + 130);
    }
  }

  lemma HeaderParts(dimensions: nat, count: nat, rest: Bytes)
    requires dimensions < 0x1_0000_0000 && count < 0x1_0000_0000
    ensures var body := Header(dimensions, count) + rest;
            && body[..5] == MAGIC && body[13..] == rest
            && FromLittleEndian(body[5..9]) == dimensions && FromLittleEndian(body[9..13]) == count
  {
    var body := Header(dimensions, count) + rest;
    assert body[5..9] == LittleEndian(dimensions, 4) && body[9..13] == LittleEndian(count, 4);
    ReadBack(dimensions, 4);
    ReadBack(count, 4);
    Widths();
  }

  lemma CountAllowed(rows: seq<Row>, dimensions: nat)
    requires forall i :: 0 <= i < |rows| ==> Storable(rows[i], dimensions)
    ensures |rows| <= |Header(dimensions, |rows|) + RowsBytes(rows)| / (dimensions * 4 + 2)
  {
    RowsLength(rows, dimensions);
    QuotientAtLeast(|rows|, dimensions * 4 + 2, |Header(dimensions, |rows|) + RowsBytes(rows)|);
  }

  lemma ParsesParts(body: Bytes, dimensions: nat, count: nat, rest: Bytes)
    requires body == Header(dimensions, count) + rest && 1 <= dimensions <= MAX_DIMENSIONS
    requires count < 0x1_0000_0000 && count <= |body| / (dimensions * 4 + 2)
    ensures Parsed(body) == TakeRows(rest, dimensions, count)
  {
    HeaderParts(dimensions, count, rest);
  }

  lemma ParsesWritten(rows: seq<Row>)
    requires WellFormedRows(rows)
    ensures Parsed(Header(Dimensions(rows), |rows|) + RowsBytes(rows)) == Some(rows)
  {
    var d := Dimensions(rows);
    CountAllowed(rows, d);
    ParsesParts(Header(d, |rows|) + RowsBytes(rows), d, |rows|, RowsBytes(rows));
    TakeWrittenRows(rows, d);
  }

  lemma SealOpens(body: Bytes, crc: Checksum)
    requires |body| >= 13 && body[..5] == MAGIC
    ensures Decoded(Sealed(body, crc), crc) == Parsed(body)
  {
    var bytes := Sealed(body, crc);
    assert bytes[..|bytes| - 4] == body && bytes[|bytes| - 4..] == LittleEndian(crc(body), 4);
    assert bytes[..5] == body[..5];
    ReadBack(crc(body), 4);
    Widths();
  }

  /** What was written is read back. */
  lemma DecodesEncoded(rows: seq<Row>, crc: Checksum)
    requires WellFormedRows(rows)
    ensures Decoded(Encoded(rows, crc), crc) == Some(rows)
  {
    var body := Header(Dimensions(rows), |rows|) + RowsBytes(rows);
    ParsesWritten(rows);
    HeaderParts(Dimensions(rows), |rows|, RowsBytes(rows));
    SealOpens(body, crc);
  }

  /** What is read is well formed, and was written like that when it holds any row. */
  lemma EncodesDecoded(bytes: Bytes, crc: Checksum)
    requires Decoded(bytes, crc).Some? && Decoded(bytes, crc).value != []
    ensures var rows := Decoded(bytes, crc).value;
            WellFormedRows(rows) && Encoded(rows, crc) == bytes
  {
    var body, rows := bytes[..|bytes| - 4], Decoded(bytes, crc).value;
    assert body[..5] == bytes[..5];
    WritesParsed(body);
    WriteBack(bytes[|bytes| - 4..]);
    assert bytes == body + bytes[|bytes| - 4..];
  }

  lemma WritesParsed(body: Bytes)
    requires |body| >= 13 && body[..5] == MAGIC && Parsed(body).Some? && Parsed(body).value != []
    ensures var rows := Parsed(body).value;
            WellFormedRows(rows) && Header(Dimensions(rows), |rows|) + RowsBytes(rows) == body
  {
    var d, count := FromLittleEndian(body[5..9]), FromLittleEndian(body[9..13]);
    HeaderWritten(body);
    WriteTakenRows(body[13..], d, count);
  }

  lemma HeaderWritten(body: Bytes)
    requires |body| >= 13 && body[..5] == MAGIC
    ensures var d, count := FromLittleEndian(body[5..9]), FromLittleEndian(body[9..13]);
            d < 0x1_0000_0000 && count < 0x1_0000_0000 && body == Header(d, count) + body[13..]
  {
    WriteBack(body[5..9]);
    WriteBack(body[9..13]);
    Widths();
    assert body == body[..5] + body[5..9] + body[9..13] + body[13..];
  }

  /** A block is accepted with these rows exactly when it is their encoding. */
  lemma DecodesOnlyEncoded(bytes: Bytes, rows: seq<Row>, crc: Checksum)
    requires rows != []
    ensures Decoded(bytes, crc) == Some(rows) <==> WellFormedRows(rows) && bytes == Encoded(rows, crc)
  {
    if Decoded(bytes, crc) == Some(rows) { EncodesDecoded(bytes, crc); }
    if WellFormedRows(rows) { DecodesEncoded(rows, crc); }
  }

  // ---------------------------------------------------------------------------------------------
  // One vector, and the size of a block

  const VECTOR_ID: Id := [118]

  function EncodedVector(v: Vector, crc: Checksum): Bytes {
    Encoded([(VECTOR_ID, v)], crc)
  }

  function DecodedVector(bytes: Bytes, crc: Checksum): Option<Vector> {
    match Decoded(bytes, crc)
    case None => None
    case Some(rows) => if |rows| == 1 then Some(rows[0].1) else None
  }

  /** The stored form of a vector has the size that writes account for, and is read back exactly when the vector
      has a dimension that the format allows and finite components. */
  lemma VectorRoundTrip(v: Vector, crc: Checksum)
    ensures |EncodedVector(v, crc)| == Engine.VectorSize(v)
    ensures DecodedVector(EncodedVector(v, crc), crc) == Some(v) <==>
            1 <= |v| <= MAX_DIMENSIONS && forall i :: 0 <= i < |v| ==> Finite32(v[i])
  {
    var rows := [(VECTOR_ID, v)];
    assert RowsBytes(rows[1..]) == [];
    DecodesOnlyEncoded(Encoded(rows, crc), rows, crc);
    if DecodedVector(EncodedVector(v, crc), crc) == Some(v) {
      EncodesDecoded(Encoded(rows, crc), crc);
      var read := Decoded(Encoded(rows, crc), crc).value;
      assert read == [(read[0].0, v)] && Storable(read[0], |v|);
    }
    if 1 <= |v| <= MAX_DIMENSIONS && forall i :: 0 <= i < |v| ==> Finite32(v[i]) {
      assert Storable(rows[0], |v|);
    }
  }
}
