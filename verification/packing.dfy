/** How vectors are spread over seeds, clusters and blocks. */
module Packing {
  import opened Arithmetic
  import opened Model
  import opened Keys
  import opened Index
  import opened Wrappers
  import opened Binary

  /** Position of a seed among the vectors in ID order. */
  function Seed(i: nat, count: nat, vectors: nat): nat
    requires count > 0
  {
    i * vectors / count
  }

  /** Seeds are different vectors. */
  lemma SeedsAscend(i: nat, j: nat, count: nat, vectors: nat)
    requires i < j < count <= vectors
    ensures Seed(i, count, vectors) < Seed(j, count, vectors) < vectors
  {
    var a, b := Seed(i, count, vectors), Seed(j, count, vectors);
    Quotient(i * vectors, count);
    Quotient(j * vectors, count);
    assert i * vectors + vectors <= j * vectors by { Monotone(i + 1, j, vectors); Distribute(i, vectors); }
    assert a * count <= i * vectors;
    if a >= b {
      Monotone(b, a, count);
      Distribute(b, count);
      assert false;
    }
    assert b < vectors by {
      if b >= vectors {
        Monotone(vectors, b, count);
        Monotone(j + 1, count, vectors);
        Distribute(j, vectors);
        assert false;
      }
    }
  }

  /** Rows per block are chosen so that a block of any dimension stays within 256 KiB and its frame. */
  lemma BlockSize(rows: seq<Row>, schema: Schema, crc: Checksum)
    requires schema.Valid() && schema.dimensions.Some? && |rows| <= PerBlock(schema)
    requires forall i :: 0 <= i < |rows| ==> Storable(rows[i], schema.dimensions.value)
    ensures |Encoded(rows, crc)| <= 262144 + 17
  {
    var unit := 4 * schema.dimensions.value + 130;
    RowsLength(rows, schema.dimensions.value);
    Monotone(|rows|, PerBlock(schema), unit);
    var n := 262144 / unit;
    Quotient(262144, unit);
    assert PerBlock(schema) <= n by { assert unit <= 16514; QuotientAtLeast(15, unit, 262144); }
    Monotone(PerBlock(schema), n, unit);
  }

  ghost predicate AllStorable(rows: seq<Row>, schema: Schema) {
    forall r :: r in rows ==> schema.dimensions.Some? && Storable(r, schema.dimensions.value)
  }

  lemma StorableConcat(a: seq<Row>, b: seq<Row>, schema: Schema)
    requires AllStorable(a, schema) && AllStorable(b, schema)
    ensures AllStorable(a + b, schema)
  {}

  lemma {:induction false} ClusterRowsStorable(
    order: seq<Id>, view: View, nearest: map<Id, nat>, cluster: nat, schema: Schema)
    requires forall id :: id in order && id in view.vectors ==> id in nearest
    requires forall id :: id in order ==> ValidId(id)
    requires forall id :: id in view.vectors ==> schema.ValidVector(view.vectors[id])
    ensures AllStorable(ClusterRows(order, view, nearest, cluster), schema)
  {
    if order != [] {
      var rest, last := order[..|order| - 1], order[|order| - 1];
      ClusterRowsStorable(rest, view, nearest, cluster, schema);
      assert last in order;
      var before := ClusterRows(rest, view, nearest, cluster);
      var more := if last in view.vectors && nearest[last] == cluster then [(last, view.vectors[last])] else [];
      assert AllStorable(more, schema);
      StorableConcat(before, more, schema);
      assert ClusterRows(order, view, nearest, cluster) == before + more;
    }
  }

  /** No block of any stored generation is larger, and every one of them can be read back. */
  lemma StoredBlocks(
    m: Entries, order: seq<Id>, view: View, schema: Schema, nearest: map<Id, nat>, count: nat, c: nat, b: nat,
    crc: Checksum)
    requires forall id :: id in order && id in view.vectors ==> id in nearest
    requires StoresVectors(m, order, view, schema, nearest, count) && schema.Valid()
    requires forall id :: id in order ==> ValidId(id)
    requires forall id :: id in view.vectors ==> schema.ValidVector(view.vectors[id])
    requires VectorBlock(c, b) in m
    ensures m[VectorBlock(c, b)].Rows?
    ensures var rows := m[VectorBlock(c, b)].rows;
            |Encoded(rows, crc)| <= 262144 + 17 && Decoded(Encoded(rows, crc), crc) == Some(rows)
  {
    var all := ClusterRows(order, view, nearest, c);
    var rows := Chunk(all, PerBlock(schema), b);
    ChunkBounds(|all|, PerBlock(schema), b);
    Distribute(b, PerBlock(schema));
    ClusterRowsStorable(order, view, nearest, c, schema);
    assert forall i :: 0 <= i < |rows| ==> rows[i] == all[b * PerBlock(schema) + i] && rows[i] in all;
    assert Storable(rows[0], schema.dimensions.value);
    BlockSize(rows, schema, crc);
    DecodesEncoded(rows, crc);
  }
}
