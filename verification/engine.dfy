/** Writes and their counters. */
module Engine {
  import opened Order
  import opened Wrappers
  import opened Sums
  import opened Numbers
  import opened Model
  import opened Store

  /** A document of a request, with the lengths of its JSON text with and without its vector. */
  datatype Document = Document(
    id: Id, vector: Option<Vector>, attributes: Attributes, fullSize: nat, size: nat)

  datatype WriteRequest = WriteRequest(upsert: seq<Document>, delete: seq<Id>)

  datatype WriteResult = WriteResult(upserted: nat, deleted: nat, revision: nat)

  datatype Limits = Limits(maxDocuments: nat, maxBytes: nat, maxPending: nat)

  datatype WriteError = Invalid | NotFound | Limit

  /** One operation of a request: an upsert, or a deletion when there is no document. */
  datatype Op = Op(id: Id, document: Option<Document>)

  function Ops(request: WriteRequest): (r: seq<Op>)
    ensures |r| == |request.upsert| + |request.delete|
  {
    seq(|request.upsert|, i requires 0 <= i < |request.upsert| => Op(request.upsert[i].id, Some(request.upsert[i])))
    + seq(|request.delete|, i requires 0 <= i < |request.delete| => Op(request.delete[i], None))
  }

  /** Length of the checksummed encoding of one vector. */
  function VectorSize(v: Vector): nat {
    20 + 4 * |v|
  }

  ghost function DocSizes(docs: map<Id, Doc>): map<Id, nat> {
    map id | id in docs :: docs[id].size
  }

  ghost function VectorSizes(vectors: map<Id, Vector>): map<Id, nat> {
    map id | id in vectors :: VectorSize(vectors[id])
  }

  /** What the stored documents and vectors of a namespace take up. */
  ghost function BytesOf(docs: map<Id, Doc>, vectors: map<Id, Vector>): nat {
    Total(DocSizes(docs)) + Total(VectorSizes(vectors))
  }

  /** The counters of a space say what its keys say. */
  ghost predicate Counts(stats: Stats, space: Space) {
    && stats.documents == |space.docs|
    && stats.bytes == BytesOf(space.docs, space.vectors)
    && stats.pending == |space.changes|
  }

  /** What every write keeps. */
  ghost predicate Sound(space: Space) {
    && Counts(space.StatsOrZero(), space)
    && space.vectors.Keys <= space.docs.Keys
    && (forall id :: id in space.docs ==> ValidId(id) && WellFormedAttributes(space.docs[id].attributes))
    && (forall id :: id in space.vectors ==> space.schema.Some? && space.schema.value.ValidVector(space.vectors[id]))
    && (forall id :: id in space.changes ==> ValidId(id) && 1 <= space.changes[id] <= space.StatsOrZero().revision)
    && (space.schema.None? ==> space == EMPTY)
  }

  /** The space after one operation, counters aside. */
  function ApplyOp(space: Space, op: Op, revision: nat): Space {
    space.(
      docs := DocsAfter(space.docs, op),
      vectors := VectorsAfter(space.vectors, op),
      changes := space.changes[op.id := revision])
  }

  function ApplyAll(space: Space, ops: seq<Op>, revision: nat): Space {
    if ops == [] then space
    else ApplyOp(ApplyAll(space, ops[..|ops| - 1], revision), ops[|ops| - 1], revision)
  }

  function InputSize(op: Op): nat {
    if op.document.Some? then op.document.value.fullSize else |op.id|
  }

  function InputBytes(ops: seq<Op>): nat {
    if ops == [] then 0 else InputBytes(ops[..|ops| - 1]) + InputSize(ops[|ops| - 1])
  }

  predicate AcceptableOp(schema: Schema, op: Op) {
    op.document.Some? ==>
      && op.document.value.fullSize <= MAX_DOCUMENT_BYTES
      && |op.document.value.attributes| <= 64
      && (op.document.value.vector.Some? ==> schema.ValidVector(op.document.value.vector.value))
  }

  predicate WellNamed(ops: seq<Op>) {
    && 1 <= |ops| <= MAX_BATCH_OPERATIONS
    && (forall i :: 0 <= i < |ops| ==> ValidId(ops[i].id))
    && forall i, j :: 0 <= i < j < |ops| ==> ops[i].id != ops[j].id
  }

  predicate FromJson(ops: seq<Op>) {
    forall i :: 0 <= i < |ops| && ops[i].document.Some? ==> WellFormedAttributes(ops[i].document.value.attributes)
  }

  /** The counters of a space. */
  ghost function StatsOf(space: Space, revision: nat): Stats {
    Stats(revision, |space.docs|, BytesOf(space.docs, space.vectors), |space.changes|)
  }

  predicate Fits(stats: Stats, limits: Limits) {
    && stats.documents <= limits.maxDocuments
    && stats.bytes <= limits.maxBytes
    && stats.pending <= limits.maxPending
  }

  predicate AcceptableOps(schema: Schema, ops: seq<Op>) {
    forall i :: 0 <= i < |ops| ==> AcceptableOp(schema, ops[i])
  }

  predicate Acceptable(schema: Schema, ops: seq<Op>) {
    AcceptableOps(schema, ops) && InputBytes(ops) <= MAX_BODY_BYTES
  }

  /** When a write is accepted. */
  ghost predicate Admissible(space: Space, ops: seq<Op>, limits: Limits) {
    && WellNamed(ops)
    && space.schema.Some?
    && space.StatsOrZero().revision + 1 < TWO64
    && Acceptable(space.schema.value, ops)
    && Fits(StatsOf(Applied(space, ops), space.StatsOrZero().revision + 1), limits)
  }

  /** Why a write is refused: its names, then the namespace, its documents, its quotas. */
  ghost function Refusal(ns: Id, space: Space, ops: seq<Op>): WriteError {
    if !ValidId(ns) || !WellNamed(ops) then Invalid
    else if space.schema.None? then NotFound
    else if space.StatsOrZero().revision + 1 >= TWO64 then Limit
    else if !Acceptable(space.schema.value, ops) then Invalid
    else Limit
  }

  function Applied(space: Space, ops: seq<Op>): Space {
    ApplyAll(space, ops, space.StatsOrZero().revision + 1)
  }

  /** What an accepted write leaves. */
  ghost function Written(space: Space, ops: seq<Op>): Space {
    Applied(space, ops).(stats := Some(StatsOf(Applied(space, ops), space.StatsOrZero().revision + 1)))
  }

  /** A batch of puts and deletes, keyed by document. The last word on a key wins. */
  datatype Batch = Batch(docs: map<Id, Option<Doc>>, vectors: map<Id, Option<Vector>>, changes: map<Id, nat>)

  function Merge<T>(m: map<Id, T>, batch: map<Id, Option<T>>): map<Id, T> {
    map id | id in m.Keys + batch.Keys && (if id in batch then batch[id].Some? else id in m)
      :: if id in batch then batch[id].value else m[id]
  }

  function Commit(space: Space, batch: Batch): Space {
    space.(
      docs := Merge(space.docs, batch.docs),
      vectors := Merge(space.vectors, batch.vectors),
      changes := space.changes + batch.changes)
  }

  /** What the snapshot says about the document of an operation. */
  datatype Before = Before(stored: bool, bytes: nat, pending: bool)

  function BeforeOp(space: Space, id: Id): Before {
    Before(id in space.docs, BytesAt(space, id), id in space.changes)
  }

  /** The counters after one operation. */
  function Recount(stats: Stats, before: Before, op: Op): Stats
    requires before.stored ==> stats.documents >= 1 && stats.bytes >= before.bytes
  {
    var without :=
      if before.stored
      then stats.(documents := stats.documents - 1, bytes := stats.bytes - before.bytes)
      else stats;
    var with :=
      if op.document.Some?
      then without.(documents := without.documents + 1, bytes := without.bytes + NewBytes(op))
      else without;
    if before.pending then with else with.(pending := with.pending + 1)
  }

  lemma SizeWithout<T>(m: map<Id, T>, id: Id)
    ensures |m - {id}| == if id in m then |m| - 1 else |m|
  {
    assert (m - {id}).Keys == m.Keys - {id};
  }

  lemma SizeWith<T>(m: map<Id, T>, id: Id, x: T)
    ensures |m[id := x]| == if id in m then |m| else |m| + 1
  {
    assert m[id := x].Keys == m.Keys + {id};
  }

  lemma DocBytes(docs: map<Id, Doc>, id: Id, doc: Doc)
    ensures id in docs ==> docs[id].size <= Total(DocSizes(docs))
    ensures Total(DocSizes(docs - {id})) ==
            Total(DocSizes(docs)) - if id in docs then docs[id].size else 0
    ensures Total(DocSizes(docs[id := doc])) == Total(DocSizes(docs - {id})) + doc.size
  {
    var sizes := DocSizes(docs);
    assert DocSizes(docs - {id}) == sizes - {id};
    assert DocSizes(docs[id := doc]) == sizes[id := doc.size];
    TotalDrop(sizes, id);
    TotalUpdate(sizes, id, doc.size);
    if id in docs { TotalAtLeast(sizes, id); }
  }

  lemma VectorBytes(vectors: map<Id, Vector>, id: Id, v: Vector)
    ensures id in vectors ==> VectorSize(vectors[id]) <= Total(VectorSizes(vectors))
    ensures Total(VectorSizes(vectors - {id})) ==
            Total(VectorSizes(vectors)) - if id in vectors then VectorSize(vectors[id]) else 0
    ensures Total(VectorSizes(vectors[id := v])) == Total(VectorSizes(vectors - {id})) + VectorSize(v)
  {
    var sizes := VectorSizes(vectors);
    assert VectorSizes(vectors - {id}) == sizes - {id};
    assert VectorSizes(vectors[id := v]) == sizes[id := VectorSize(v)];
    TotalDrop(sizes, id);
    TotalUpdate(sizes, id, VectorSize(v));
    if id in vectors { TotalAtLeast(sizes, id); }
  }

  /** Bytes of one document with its vector. */
  function BytesAt(space: Space, id: Id): nat {
    (if id in space.docs then space.docs[id].size else 0)
    + if id in space.vectors then VectorSize(space.vectors[id]) else 0
  }

  function NewBytes(op: Op): nat {
    if op.document.None? then 0
    else
      op.document.value.size
      + if op.document.value.vector.Some? then VectorSize(op.document.value.vector.value) else 0
  }

  lemma BytesAfter(space: Space, op: Op, revision: nat)
    ensures BytesAt(space, op.id) <= BytesOf(space.docs, space.vectors)
    ensures var next := ApplyOp(space, op, revision);
            BytesOf(next.docs, next.vectors) ==
            BytesOf(space.docs, space.vectors) - BytesAt(space, op.id) + NewBytes(op)
  {
    DocumentBytesAfter(space.docs, op);
    VectorBytesAfter(space.vectors, op);
  }

  function DocsAfter(docs: map<Id, Doc>, op: Op): map<Id, Doc> {
    if op.document.Some? then docs[op.id := Doc(op.document.value.attributes, op.document.value.size)]
    else docs - {op.id}
  }

  function VectorsAfter(vectors: map<Id, Vector>, op: Op): map<Id, Vector> {
    if op.document.Some? && op.document.value.vector.Some? then vectors[op.id := op.document.value.vector.value]
    else vectors - {op.id}
  }

  lemma DocumentBytesAfter(docs: map<Id, Doc>, op: Op)
    ensures var was := if op.id in docs then docs[op.id].size else 0;
            && was <= Total(DocSizes(docs))
            && Total(DocSizes(DocsAfter(docs, op))) ==
               Total(DocSizes(docs)) - was + if op.document.Some? then op.document.value.size else 0
  {
    DocBytes(docs, op.id,
             if op.document.Some? then Doc(op.document.value.attributes, op.document.value.size) else Doc(map[], 0));
  }

  lemma VectorBytesAfter(vectors: map<Id, Vector>, op: Op)
    ensures var was := if op.id in vectors then VectorSize(vectors[op.id]) else 0;
            && was <= Total(VectorSizes(vectors))
            && Total(VectorSizes(VectorsAfter(vectors, op))) ==
               Total(VectorSizes(vectors)) - was
               + if op.document.Some? && op.document.value.vector.Some?
                 then VectorSize(op.document.value.vector.value) else 0
  {
    VectorBytes(vectors, op.id,
                if op.document.Some? && op.document.value.vector.Some? then op.document.value.vector.value else []);
  }

  lemma SizesAfter(space: Space, op: Op, revision: nat)
    ensures var next := ApplyOp(space, op, revision);
            && |next.docs| == |space.docs| - (if op.id in space.docs then 1 else 0) +
                              (if op.document.Some? then 1 else 0)
            && |next.changes| == |space.changes| + (if op.id in space.changes then 0 else 1)
  {
    SizeWithout(space.docs, op.id);
    if op.document.Some? { SizeWith(space.docs, op.id, Doc(op.document.value.attributes, op.document.value.size)); }
    SizeWith(space.changes, op.id, revision);
  }

  /** No subtraction goes below zero, and the counters follow the keys. */
  lemma RecountFollows(stats: Stats, space: Space, op: Op, revision: nat)
    requires Counts(stats, space) && space.vectors.Keys <= space.docs.Keys
    ensures op.id in space.docs ==> stats.documents >= 1 && stats.bytes >= BytesAt(space, op.id)
    ensures Counts(Recount(stats, BeforeOp(space, op.id), op), ApplyOp(space, op, revision))
  {
    EnoughToSubtract(stats, space, op.id);
    CountsFollow(stats, space, op, revision);
    BytesFollow(stats, space, op, revision);
  }

  lemma EnoughToSubtract(stats: Stats, space: Space, id: Id)
    requires Counts(stats, space)
    ensures id in space.docs ==> stats.documents >= 1
    ensures stats.bytes >= BytesAt(space, id)
  {
    if id in space.docs { SizeWithout(space.docs, id); }
    BytesAfter(space, Op(id, None), 0);
  }

  lemma CountsFollow(stats: Stats, space: Space, op: Op, revision: nat)
    requires stats.documents == |space.docs| && stats.pending == |space.changes|
    requires op.id in space.docs ==> stats.documents >= 1 && stats.bytes >= BytesAt(space, op.id)
    ensures var next, r := ApplyOp(space, op, revision), Recount(stats, BeforeOp(space, op.id), op);
            r.documents == |next.docs| && r.pending == |next.changes|
  {
    SizesAfter(space, op, revision);
  }

  lemma BytesFollow(stats: Stats, space: Space, op: Op, revision: nat)
    requires stats.bytes == BytesOf(space.docs, space.vectors) && space.vectors.Keys <= space.docs.Keys
    requires op.id in space.docs ==> stats.documents >= 1 && stats.bytes >= BytesAt(space, op.id)
    ensures var next, r := ApplyOp(space, op, revision), Recount(stats, BeforeOp(space, op.id), op);
            r.bytes == BytesOf(next.docs, next.vectors)
  {
    BytesAfter(space, op, revision);
  }

  /** The space that one atomic batch leaves, or the reason why there is no batch. */
  method Accept(ghost ns: Id, snapshot: Space, ops: seq<Op>, limits: Limits) returns (r: Result<Space, WriteError>)
    requires snapshot.schema.Some? ==> StatsFor(snapshot.StatsOrZero(), snapshot)
    requires ValidId(ns) && WellNamed(ops)
    ensures r.Ok? <==> Admissible(snapshot, ops, limits)
    ensures r.Err? ==> r.error == Refusal(ns, snapshot, ops)
    ensures r.Ok? ==> r.value == Written(snapshot, ops)
  {
    if snapshot.schema.None? {
      return Err(NotFound);
    }
    if snapshot.StatsOrZero().revision + 1 >= TWO64 {
      return Err(Limit);
    }
    var ok, next, stats := Plan(snapshot, ops);
    Decision(snapshot, ops, limits, ok, next, stats);
    r := if !ok then Err(Invalid) else if !Fits(stats, limits) then Err(Limit) else Ok(next.(stats := Some(stats)));
  }

  lemma Decision(snapshot: Space, ops: seq<Op>, limits: Limits, ok: bool, next: Space, stats: Stats)
    requires WellNamed(ops) && snapshot.schema.Some? && snapshot.StatsOrZero().revision + 1 < TWO64
    requires ok == Acceptable(snapshot.schema.value, ops)
    requires ok ==> next == Applied(snapshot, ops)
    requires ok ==> stats == StatsOf(next, snapshot.StatsOrZero().revision + 1)
    ensures Admissible(snapshot, ops, limits) == (ok && Fits(stats, limits))
    ensures ok ==> Written(snapshot, ops) == next.(stats := Some(stats))
  {}

  /** The space after the batch, and the counters to store with it. */
  method Plan(snapshot: Space, ops: seq<Op>) returns (ok: bool, next: Space, stats: Stats)
    requires StatsFor(snapshot.StatsOrZero(), snapshot)
    requires snapshot.schema.Some? && forall i, j :: 0 <= i < j < |ops| ==> ops[i].id != ops[j].id
    ensures ok <==> Acceptable(snapshot.schema.value, ops)
    ensures ok ==> next == Applied(snapshot, ops)
    ensures ok ==> stats == StatsOf(Applied(snapshot, ops), snapshot.StatsOrZero().revision + 1)
  {
    var batch;
    ok, batch, stats := Prepare(snapshot, ops, snapshot.StatsOrZero().revision + 1);
    next := Commit(snapshot, batch);
  }

  method CheckNames(ns: Id, ops: seq<Op>) returns (ok: bool)
    ensures ok <==> ValidId(ns) && WellNamed(ops)
  {
    if !ValidId(ns) || !(1 <= |ops| <= MAX_BATCH_OPERATIONS) {
      return false;
    }
    var seen: set<Id> := {};
    for i := 0 to |ops|
      invariant seen == set j | 0 <= j < i :: ops[j].id
      invariant forall j :: 0 <= j < i ==> ValidId(ops[j].id)
      invariant forall j, k :: 0 <= j < k < i ==> ops[j].id != ops[k].id
    {
      if !ValidId(ops[i].id) || ops[i].id in seen {
        return false;
      }
      seen := seen + {ops[i].id};
    }
    return true;
  }

  ghost predicate Touches(batch: Batch, ids: set<Id>) {
    batch.docs.Keys == ids && batch.vectors.Keys == ids && batch.changes.Keys == ids
  }

  function IdsOf(ops: seq<Op>): set<Id> {
    set i | 0 <= i < |ops| :: ops[i].id
  }

  /** The batch prepared so far turns the snapshot into the next space. */
  ghost predicate BatchFor(snapshot: Space, batch: Batch, ids: set<Id>, next: Space) {
    Touches(batch, ids) && Commit(snapshot, batch) == next
  }

  /** The counters prepared so far are those of the next space. */
  ghost predicate StatsFor(stats: Stats, next: Space) {
    Counts(stats, next) && next.vectors.Keys <= next.docs.Keys
  }

  /** The batch and the counters prepared for some operations. */
  ghost predicate Prepared(snapshot: Space, ops: seq<Op>, revision: nat, batch: Batch, stats: Stats) {
    && BatchFor(snapshot, batch, IdsOf(ops), ApplyAll(snapshot, ops, revision))
    && StatsFor(stats, ApplyAll(snapshot, ops, revision))
    && stats.revision == revision
  }

  /** Build the batch and the new counters from one snapshot, or find a reason to refuse. */
  method Prepare(snapshot: Space, ops: seq<Op>, revision: nat) returns (ok: bool, batch: Batch, stats: Stats)
    requires StatsFor(snapshot.StatsOrZero(), snapshot)
    requires snapshot.schema.Some? && forall i, j :: 0 <= i < j < |ops| ==> ops[i].id != ops[j].id
    ensures ok == Acceptable(snapshot.schema.value, ops)
    ensures ok ==> Prepared(snapshot, ops, revision, batch, stats)
  {
    ok, batch, stats := true, Batch(map[], map[], map[]), snapshot.StatsOrZero().(revision := revision);
    var inputBytes := 0;
    PreparedNothing(snapshot, ops, revision);
    for i := 0 to |ops|
      invariant AcceptableOps(snapshot.schema.value, ops[..i])
      invariant inputBytes == InputBytes(ops[..i])
      invariant Prepared(snapshot, ops[..i], revision, batch, stats)
    {
      AcceptableStep(snapshot.schema.value, ops, i);
      if !AcceptableOp(snapshot.schema.value, ops[i]) {
        return false, batch, stats;
      }
      batch, stats := Step(snapshot, ops, i, revision, batch, stats);
      inputBytes := inputBytes + InputSize(ops[i]);
    }
    assert ops[..|ops|] == ops;
    ok := inputBytes <= MAX_BODY_BYTES;
  }

  lemma AcceptableStep(schema: Schema, ops: seq<Op>, i: nat)
    requires i < |ops| && AcceptableOps(schema, ops[..i])
    ensures AcceptableOps(schema, ops[..i + 1]) == AcceptableOp(schema, ops[i])
    ensures !AcceptableOp(schema, ops[i]) ==> !AcceptableOps(schema, ops)
    ensures InputBytes(ops[..i + 1]) == InputBytes(ops[..i]) + InputSize(ops[i])
  {
    PrefixStep(ops, i);
    assert ops[..i + 1][i] == ops[i];
  }

  lemma NewId(ops: seq<Op>, i: nat)
    requires i < |ops| && forall i, j :: 0 <= i < j < |ops| ==> ops[i].id != ops[j].id
    ensures ops[i].id !in IdsOf(ops[..i])
    ensures IdsOf(ops[..i + 1]) == IdsOf(ops[..i]) + {ops[i].id}
  {
    PrefixStep(ops, i);
    IdsOfOneMore(ops[..i], ops[i]);
  }

  lemma IdsOfOneMore(before: seq<Op>, op: Op)
    ensures IdsOf(before + [op]) == IdsOf(before) + {op.id}
  {
    var all := before + [op];
    forall id ensures id in IdsOf(all) <==> id in IdsOf(before) + {op.id} {
      if id in IdsOf(before) { var i :| 0 <= i < |before| && before[i].id == id; assert all[i].id == id; }
      if id == op.id { assert all[|before|].id == id; }
    }
  }

  /** One operation. Reading the snapshot is right because no earlier operation touched this ID. */
  method Step(snapshot: Space, ops: seq<Op>, i: nat, revision: nat, batch: Batch, stats: Stats)
    returns (newBatch: Batch, newStats: Stats)
    requires i < |ops| && forall i, j :: 0 <= i < j < |ops| ==> ops[i].id != ops[j].id
    requires Prepared(snapshot, ops[..i], revision, batch, stats)
    ensures Prepared(snapshot, ops[..i + 1], revision, newBatch, newStats)
  {
    NextBatch(snapshot, ops, i, revision, batch, stats);
    NextStats(snapshot, ops, i, revision, batch, stats);
    newStats := Recount(stats, BeforeOp(snapshot, ops[i].id), ops[i]);
    newBatch := WithOp(batch, ops[i], revision);
  }

  lemma NextBatch(snapshot: Space, ops: seq<Op>, i: nat, revision: nat, batch: Batch, stats: Stats)
    requires i < |ops| && forall i, j :: 0 <= i < j < |ops| ==> ops[i].id != ops[j].id
    requires Prepared(snapshot, ops[..i], revision, batch, stats)
    ensures BatchFor(snapshot, WithOp(batch, ops[i], revision), IdsOf(ops[..i + 1]),
                     ApplyAll(snapshot, ops[..i + 1], revision))
  {
    NewId(ops, i);
    ApplyOneMore(snapshot, ops, i, revision);
    BatchStep(snapshot, batch, ops[i], revision, IdsOf(ops[..i]), ApplyAll(snapshot, ops[..i], revision));
  }

  lemma NextStats(snapshot: Space, ops: seq<Op>, i: nat, revision: nat, batch: Batch, stats: Stats)
    requires i < |ops| && forall i, j :: 0 <= i < j < |ops| ==> ops[i].id != ops[j].id
    requires Prepared(snapshot, ops[..i], revision, batch, stats)
    ensures var before := BeforeOp(snapshot, ops[i].id);
            && (before.stored ==> stats.documents >= 1 && stats.bytes >= before.bytes)
            && StatsFor(Recount(stats, before, ops[i]), ApplyAll(snapshot, ops[..i + 1], revision))
            && Recount(stats, before, ops[i]).revision == stats.revision
  {
    NewId(ops, i);
    ApplyOneMore(snapshot, ops, i, revision);
    SameOutside(snapshot, batch, ops[i].id);
    StatsStep(stats, ApplyAll(snapshot, ops[..i], revision), ops[i], revision);
  }

  lemma ApplyOneMore(space: Space, ops: seq<Op>, i: nat, revision: nat)
    requires i < |ops|
    ensures ApplyAll(space, ops[..i + 1], revision) == ApplyOp(ApplyAll(space, ops[..i], revision), ops[i], revision)
  {
    PrefixStep(ops, i);
  }

  lemma StatsStep(stats: Stats, now: Space, op: Op, revision: nat)
    requires StatsFor(stats, now)
    ensures op.id in now.docs ==> stats.documents >= 1 && stats.bytes >= BytesAt(now, op.id)
    ensures StatsFor(Recount(stats, BeforeOp(now, op.id), op), ApplyOp(now, op, revision))
  {
    RecountFollows(stats, now, op, revision);
  }

  lemma BatchStep(snapshot: Space, batch: Batch, op: Op, revision: nat, before: set<Id>, now: Space)
    requires BatchFor(snapshot, batch, before, now)
    ensures BatchFor(snapshot, WithOp(batch, op, revision), before + {op.id}, ApplyOp(now, op, revision))
  {
    CommitOp(snapshot, batch, op, revision);
    TouchesStep(batch, op, revision, before);
  }

  lemma TouchesStep(batch: Batch, op: Op, revision: nat, before: set<Id>)
    requires Touches(batch, before)
    ensures Touches(WithOp(batch, op, revision), before + {op.id})
  {}

  function WithOp(batch: Batch, op: Op, revision: nat): Batch {
    var vector := if op.document.Some? then op.document.value.vector else None;
    var doc := if op.document.Some? then Some(Doc(op.document.value.attributes, op.document.value.size)) else None;
    Batch(batch.docs[op.id := doc], batch.vectors[op.id := vector], batch.changes[op.id := revision])
  }

  lemma CommitOp(snapshot: Space, batch: Batch, op: Op, revision: nat)
    ensures Commit(snapshot, WithOp(batch, op, revision)) == ApplyOp(Commit(snapshot, batch), op, revision)
  {
    var vector := if op.document.Some? then op.document.value.vector else None;
    var doc := if op.document.Some? then Some(Doc(op.document.value.attributes, op.document.value.size)) else None;
    CommitOne(snapshot.docs, batch.docs, op.id, doc);
    CommitOne(snapshot.vectors, batch.vectors, op.id, vector);
    assert snapshot.changes + batch.changes[op.id := revision] == (snapshot.changes + batch.changes)[op.id := revision];
  }

  lemma SameOutside(snapshot: Space, batch: Batch, id: Id)
    requires id !in batch.docs && id !in batch.vectors && id !in batch.changes
    ensures var now := Commit(snapshot, batch);
            && (id in now.docs <==> id in snapshot.docs) && (id in now.docs ==> now.docs[id] == snapshot.docs[id])
            && (id in now.vectors <==> id in snapshot.vectors)
            && (id in now.vectors ==> now.vectors[id] == snapshot.vectors[id])
            && (id in now.changes <==> id in snapshot.changes)
            && BeforeOp(now, id) == BeforeOp(snapshot, id)
  {}

  lemma PreparedNothing(space: Space, ops: seq<Op>, revision: nat)
    requires StatsFor(space.StatsOrZero(), space)
    ensures Prepared(space, ops[..0], revision, Batch(map[], map[], map[]), space.StatsOrZero().(revision := revision))
  {
    CommitNothing(space);
    assert IdsOf(ops[..0]) == {} && ApplyAll(space, ops[..0], revision) == space;
    assert BatchFor(space, Batch(map[], map[], map[]), {}, space);
  }

  lemma CommitNothing(space: Space)
    ensures Commit(space, Batch(map[], map[], map[])) == space
  {
    assert Merge(space.docs, map[]) == space.docs && Merge(space.vectors, map[]) == space.vectors;
  }

  lemma CommitOne<T>(m: map<Id, T>, batch: map<Id, Option<T>>, id: Id, x: Option<T>)
    ensures Merge(m, batch[id := x]) ==
            if x.Some? then Merge(m, batch)[id := x.value] else Merge(m, batch) - {id}
  {}

  // ---------------------------------------------------------------------------------------------
  // What a write does, key by key, and what it keeps

  /** Operations leave the other IDs alone. */
  lemma {:induction false} ApplyAllElsewhere(space: Space, ops: seq<Op>, revision: nat, id: Id)
    requires forall i :: 0 <= i < |ops| ==> ops[i].id != id
    ensures var next := ApplyAll(space, ops, revision);
            && (id in next.docs <==> id in space.docs) && (id in next.docs ==> next.docs[id] == space.docs[id])
            && (id in next.vectors <==> id in space.vectors)
            && (id in next.vectors ==> next.vectors[id] == space.vectors[id])
            && (id in next.changes <==> id in space.changes)
            && (id in next.changes ==> next.changes[id] == space.changes[id])
  {
    if ops != [] { ApplyAllElsewhere(space, ops[..|ops| - 1], revision, id); }
  }

  /** An upsert replaces attributes and vector, a deletion removes both, and either leaves a change
      record with the revision of the write. */
  lemma {:induction false} ApplyAllOn(space: Space, ops: seq<Op>, revision: nat, i: nat)
    requires i < |ops| && forall i, j :: 0 <= i < j < |ops| ==> ops[i].id != ops[j].id
    ensures var next, op := ApplyAll(space, ops, revision), ops[i];
            && op.id in next.changes && next.changes[op.id] == revision
            && (op.id in next.docs <==> op.document.Some?)
            && (op.document.Some? ==> next.docs[op.id] == Doc(op.document.value.attributes, op.document.value.size))
            && (op.id in next.vectors <==> op.document.Some? && op.document.value.vector.Some?)
            && (op.id in next.vectors ==> next.vectors[op.id] == op.document.value.vector.value)
  {
    var rest := ops[..|ops| - 1];
    if i < |rest| {
      ApplyAllOn(space, rest, revision, i);
      assert rest[i] == ops[i] && ops[i].id != ops[|ops| - 1].id;
    }
  }

  lemma {:induction false} ApplyAllFrame(space: Space, ops: seq<Op>, revision: nat)
    ensures var next := ApplyAll(space, ops, revision);
            next == space.(docs := next.docs, vectors := next.vectors, changes := next.changes)
  {
    if ops != [] { ApplyAllFrame(space, ops[..|ops| - 1], revision); }
  }

  lemma WrittenAt(space: Space, ops: seq<Op>, revision: nat, id: Id)
    requires Sound(space) && space.schema.Some? && FromJson(ops) && WellNamed(ops)
    requires AcceptableOps(space.schema.value, ops)
    requires revision == space.StatsOrZero().revision + 1
    ensures var next := ApplyAll(space, ops, revision);
            && (id in next.docs ==> ValidId(id) && WellFormedAttributes(next.docs[id].attributes))
            && (id in next.vectors ==> id in next.docs && space.schema.value.ValidVector(next.vectors[id]))
            && (id in next.changes ==> ValidId(id) && 1 <= next.changes[id] <= revision)
  {
    if i :| 0 <= i < |ops| && ops[i].id == id {
      ApplyAllOn(space, ops, revision, i);
      assert AcceptableOp(space.schema.value, ops[i]);
    } else {
      ApplyAllElsewhere(space, ops, revision, id);
    }
  }

  /** An accepted write keeps the counters and every other invariant of the space. */
  lemma WriteKeepsSound(space: Space, ops: seq<Op>, limits: Limits)
    requires Sound(space) && Admissible(space, ops, limits) && FromJson(ops)
    ensures Sound(Written(space, ops))
    ensures Written(space, ops).StatsOrZero().revision == space.StatsOrZero().revision + 1
  {
    var revision := space.StatsOrZero().revision + 1;
    var next := Written(space, ops);
    forall id
      ensures id in next.docs ==> ValidId(id) && WellFormedAttributes(next.docs[id].attributes)
      ensures id in next.vectors ==> id in next.docs && space.schema.value.ValidVector(next.vectors[id])
      ensures id in next.changes ==> ValidId(id) && 1 <= next.changes[id] <= revision
    {
      WrittenAt(space, ops, revision, id);
    }
    ApplyAllFrame(space, ops, revision);
  }
}
