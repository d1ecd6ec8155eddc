/** Migration of a version 1 database, in which documents hold their vectors as JSON, to version 2. A run
    can stop between any two batches and is then repeated from the start. */
module Migration {
  import opened Wrappers
  import opened Numbers
  import opened Decimal
  import opened Model
  import opened Store
  import opened Engine
  import opened Upkeep

  const MIGRATE_BATCH: nat := 128

  /** A document as stored: what its text parses to, and the length of the text. */
  datatype Text = Text(attributes: Attributes, vector: Option<Vector>, size: nat)

  /** The text written for attributes without a vector. What it parses to can differ from them. */
  type Printer = Attributes -> Text

  /** The keys of a namespace that migration reads or writes. */
  datatype Legacy = Legacy(
    schema: Schema, texts: map<Id, Text>, vectors: map<Id, Vector>, changes: map<Id, nat>, stats: Option<Stats>)

  type Spaces = map<Id, Legacy>

  ghost predicate Prints(render: Printer) {
    forall a :: render(a).vector.None? && (WellFormedAttributes(a) ==> WellFormedAttributes(render(a).attributes))
  }

  /** A namespace of version 1, or one that migration has partly converted. */
  ghost predicate LegacyOk(space: Legacy) {
    && space.vectors.Keys <= space.texts.Keys && space.changes.Keys <= space.texts.Keys
    && (forall id :: id in space.changes ==> space.changes[id] == 1)
    && (forall id :: id in space.texts ==> ValidId(id) && WellFormedAttributes(space.texts[id].attributes))
    && (forall id :: id in space.vectors ==> space.schema.ValidVector(space.vectors[id]))
  }

  predicate VectorsValid(space: Legacy) {
    forall id :: id in space.texts && space.texts[id].vector.Some? ==>
      space.schema.ValidVector(space.texts[id].vector.value)
  }

  /** The namespace with some of its documents converted. */
  function Converted(space: Legacy, render: Printer, ids: set<Id>): Legacy {
    space.(
      texts := map id | id in space.texts ::
                 if id in ids then render(space.texts[id].attributes) else space.texts[id],
      vectors := space.vectors
                 + map id | id in space.texts && id in ids && space.texts[id].vector.Some? ::
                     space.texts[id].vector.value,
      changes := space.changes + map id | id in space.texts && id in ids :: 1)
  }

  ghost function Documents(texts: map<Id, Text>): map<Id, Doc> {
    map id | id in texts :: Doc(texts[id].attributes, texts[id].size)
  }

  ghost function Recounted(space: Legacy): Stats {
    Stats(1, |space.texts|, BytesOf(Documents(space.texts), space.vectors), |space.texts|)
  }

  /** What one uninterrupted run leaves. */
  ghost function Migrated(space: Legacy, render: Printer): Legacy {
    var all := Converted(space, render, space.texts.Keys);
    all.(stats := Some(Recounted(all)))
  }

  /** Writing a document again changes nothing once it was written. */
  predicate Stable(space: Legacy, render: Printer) {
    forall id :: id in space.texts ==>
      render(render(space.texts[id].attributes).attributes) == render(space.texts[id].attributes)
  }

  /** Stopping after any part of a namespace and starting over ends in the same state for every part exactly
      when writing documents again changes nothing. */
  lemma ResumesIffStable(space: Legacy, render: Printer)
    requires Prints(render)
    ensures (forall ids | ids <= space.texts.Keys ::
               Migrated(Converted(space, render, ids), render) == Migrated(space, render))
            <==> Stable(space, render)
  {
    if Stable(space, render) {
      forall ids | ids <= space.texts.Keys
        ensures Migrated(Converted(space, render, ids), render) == Migrated(space, render)
      {
        ResumesSame(space, render, ids);
      }
    } else {
      UnstableDiffers(space, render);
    }
  }

  lemma UnstableDiffers(space: Legacy, render: Printer)
    requires !Stable(space, render)
    ensures exists ids | ids <= space.texts.Keys ::
              Migrated(Converted(space, render, ids), render) != Migrated(space, render)
  {
    var id :| id in space.texts
              && render(render(space.texts[id].attributes).attributes) != render(space.texts[id].attributes);
    OnceAndAgain(space, render, id);
    var ids := {id};
    assert ids <= space.texts.Keys && Migrated(Converted(space, render, ids), render) != Migrated(space, render);
  }

  /** What is written of a whole number, alone in a document, is what its printed digits are read as. */
  ghost predicate Rereads(render: Printer, b: Bits)
    requires Whole(b)
  {
    forall digits, exponent :: Printed(WholeNumber(b), digits, exponent) ==>
      exists c :: Whole(c) && Read(digits, exponent) == WholeNumber(c)
                  && render(map["n" := Float(b)]).attributes == map["n" := Float(c)]
  }

  lemma RereadAs(render: Printer, b: Bits, digits: nat, exponent: nat, c: Bits)
    requires Whole(b) && Whole(c) && Rereads(render, b)
    requires Printed(WholeNumber(b), digits, exponent) && Read(digits, exponent) == WholeNumber(c)
    ensures render(map["n" := Float(b)]).attributes == map["n" := Float(c)]
  {
    var d :| Whole(d) && Read(digits, exponent) == WholeNumber(d)
             && render(map["n" := Float(b)]).attributes == map["n" := Float(d)];
    WholeInjective(c, d);
  }

  /** A version 1 namespace with one document. */
  function OneDocument(attributes: Attributes): Legacy {
    Legacy(Schema(None, Cosine, []), map[[97] := Text(attributes, None, 10)], map[], map[], None)
  }

  /** A version 1 document with the number 9.3e24, which is read as 9.299999999999999e24. One run of the migration
      leaves 9.3e24 in it; stopping after its conversion and starting over leaves 9.299999999999999e24. */
  lemma DriftExample(render: Printer)
    requires Prints(render) && Whole(UPPER) && Whole(LOWER) && Rereads(render, UPPER) && Rereads(render, LOWER)
    ensures
      var space, id: Id := OneDocument(map["n" := Float(LOWER)]), [97];
      && LegacyOk(space) && VectorsValid(space) && !Stable(space, render)
      && Migrated(space, render).texts[id].attributes == map["n" := Float(UPPER)]
      && Migrated(Converted(space, render, {id}), render).texts[id].attributes == map["n" := Float(LOWER)]
  {
    NeighboursSwap();
    RereadAs(render, UPPER, 93, 23, LOWER);
    RereadAs(render, LOWER, 9_299_999_999_999_999, 9, UPPER);
    DriftBetween(render, LOWER, UPPER);
  }

  lemma DriftBetween(render: Printer, b: Bits, c: Bits)
    requires b != c && Finite(b)
    requires render(map["n" := Float(b)]).attributes == map["n" := Float(c)]
    requires render(map["n" := Float(c)]).attributes == map["n" := Float(b)]
    ensures
      var space, id: Id := OneDocument(map["n" := Float(b)]), [97];
      && LegacyOk(space) && VectorsValid(space) && !Stable(space, render)
      && Migrated(space, render).texts[id].attributes == map["n" := Float(c)]
      && Migrated(Converted(space, render, {id}), render).texts[id].attributes == map["n" := Float(b)]
  {
    OneDocumentOk(map["n" := Float(b)]);
    OnceAndAgain(OneDocument(map["n" := Float(b)]), render, [97]);
    assert map["n" := Float(b)]["n"] != map["n" := Float(c)]["n"];
  }

  /** A printer that does this with the two numbers and leaves everything else alone. */
  const SWAPPING: Printer := (a: Attributes) => Text(map f | f in a :: Swapped(a[f]), None, 10)

  function Swapped(v: Json): Json {
    if v == Float(UPPER) then Float(LOWER) else if v == Float(LOWER) then Float(UPPER) else v
  }

  /** The premises of the example can be met. */
  lemma DriftPossible()
    ensures Prints(SWAPPING) && Whole(UPPER) && Whole(LOWER)
    ensures Rereads(SWAPPING, UPPER) && Rereads(SWAPPING, LOWER)
  {
    SwappedPrints();
    UpperRereads();
    LowerRereads();
  }

  lemma UpperRereads()
    ensures Whole(UPPER) && Rereads(SWAPPING, UPPER)
  {
    Neighbours();
    NeighboursSwap();
    SwapsOnce(UPPER, LOWER);
    forall d, e | Printed(UPPER_NUMBER, d, e) ensures d == 93 && e == 23 { UpperOnly(d, e); }
    OnlyReread(SWAPPING, UPPER, 93, 23, LOWER);
  }

  lemma LowerRereads()
    ensures Whole(LOWER) && Rereads(SWAPPING, LOWER)
  {
    Neighbours();
    NeighboursSwap();
    SwapsOnce(LOWER, UPPER);
    forall d, e | Printed(LOWER_NUMBER, d, e) ensures d == 9_299_999_999_999_999 && e == 9 { LowerOnly(d, e); }
    OnlyReread(SWAPPING, LOWER, 9_299_999_999_999_999, 9, UPPER);
  }

  lemma SwappedPrints()
    ensures Prints(SWAPPING)
  {
    Neighbours();
    forall v | WellFormed(v) ensures WellFormed(Swapped(v)) {}
  }

  lemma OnlyReread(render: Printer, b: Bits, digits: nat, exponent: nat, c: Bits)
    requires Whole(b) && Whole(c) && Read(digits, exponent) == WholeNumber(c)
    requires render(map["n" := Float(b)]).attributes == map["n" := Float(c)]
    requires forall d, e :: Printed(WholeNumber(b), d, e) ==> d == digits && e == exponent
    ensures Rereads(render, b)
  {}

  lemma SwapsOnce(b: Bits, c: Bits)
    requires Swapped(Float(b)) == Float(c)
    ensures SWAPPING(map["n" := Float(b)]).attributes == map["n" := Float(c)]
  {}

  lemma OneDocumentOk(attributes: Attributes)
    requires WellFormedAttributes(attributes)
    ensures LegacyOk(OneDocument(attributes)) && VectorsValid(OneDocument(attributes))
    ensures OneDocument(attributes).texts.Keys == {[97]} && OneDocument(attributes).texts[[97]].attributes == attributes
  {}

  lemma OnceAndAgain(space: Legacy, render: Printer, id: Id)
    requires id in space.texts
    ensures Migrated(space, render).texts[id] == render(space.texts[id].attributes)
    ensures Migrated(Converted(space, render, {id}), render).texts[id] ==
            render(render(space.texts[id].attributes).attributes)
  {}

  /** Everything stored under one ID. */
  datatype Cell = Cell(text: Option<Text>, vector: Option<Vector>, change: Option<nat>)

  function CellAt(space: Legacy, id: Id): Cell {
    Cell(
      if id in space.texts then Some(space.texts[id]) else None,
      if id in space.vectors then Some(space.vectors[id]) else None,
      if id in space.changes then Some(space.changes[id]) else None)
  }

  function ConvertedCell(c: Cell, render: Printer): Cell {
    if c.text.None? then c else
      Cell(Some(render(c.text.value.attributes)),
           if c.text.value.vector.Some? then c.text.value.vector else c.vector,
           Some(1))
  }

  lemma ConvertedAt(space: Legacy, render: Printer, ids: set<Id>, id: Id)
    ensures CellAt(Converted(space, render, ids), id) ==
            if id in ids then ConvertedCell(CellAt(space, id), render) else CellAt(space, id)
  {}

  lemma SameCells(a: Legacy, b: Legacy)
    requires forall id :: CellAt(a, id) == CellAt(b, id)
    ensures a.texts == b.texts && a.vectors == b.vectors && a.changes == b.changes
  {
    forall id
      ensures id in a.texts <==> id in b.texts ensures id in a.texts ==> a.texts[id] == b.texts[id]
      ensures id in a.vectors <==> id in b.vectors ensures id in a.vectors ==> a.vectors[id] == b.vectors[id]
      ensures id in a.changes <==> id in b.changes ensures id in a.changes ==> a.changes[id] == b.changes[id]
    {
      assert CellAt(a, id) == CellAt(b, id);
    }
  }

  /** Converting a part and then everything is converting everything. */
  lemma ConvertedTwice(space: Legacy, render: Printer, ids: set<Id>)
    requires Prints(render) && Stable(space, render)
    ensures var part := Converted(space, render, ids);
            Converted(part, render, part.texts.Keys) == Converted(space, render, space.texts.Keys)
  {
    var part := Converted(space, render, ids);
    forall id
      ensures CellAt(Converted(part, render, part.texts.Keys), id) ==
              CellAt(Converted(space, render, space.texts.Keys), id)
    {
      ConvertedAt(space, render, ids, id);
      ConvertedAt(part, render, part.texts.Keys, id);
      ConvertedAt(space, render, space.texts.Keys, id);
    }
    SameCells(Converted(part, render, part.texts.Keys), Converted(space, render, space.texts.Keys));
  }

  lemma ResumesSame(space: Legacy, render: Printer, ids: set<Id>)
    requires Prints(render) && Stable(space, render) && ids <= space.texts.Keys
    ensures Migrated(Converted(space, render, ids), render) == Migrated(space, render)
    ensures Stable(Converted(space, render, ids), render)
  {
    ConvertedTwice(space, render, ids);
    assert Converted(space, render, ids).stats == space.stats;
  }

  // ---------------------------------------------------------------------------------------------
  // Any sequence of crashes

  /** What a run that stops anywhere leaves of a namespace. */
  ghost predicate PartlyMigrated(a: Legacy, b: Legacy, render: Printer) {
    b == Migrated(a, render) || exists ids :: ids <= a.texts.Keys && b == Converted(a, render, ids)
  }

  ghost predicate Partly(a: Spaces, b: Spaces, render: Printer) {
    a.Keys == b.Keys && forall ns :: ns in a ==> PartlyMigrated(a[ns], b[ns], render)
  }

  lemma PartlyResumes(a: Legacy, b: Legacy, render: Printer)
    requires Prints(render) && Stable(a, render) && PartlyMigrated(a, b, render)
    ensures Stable(b, render) && Migrated(b, render) == Migrated(a, render)
  {
    if b == Migrated(a, render) {
      ResumesSame(a, render, a.texts.Keys);
    } else {
      var ids :| ids <= a.texts.Keys && b == Converted(a, render, ids);
      ResumesSame(a, render, ids);
    }
  }

  /** The durable states at which runs stopped, one after the other. */
  ghost predicate Stops(stops: seq<Spaces>, render: Printer) {
    |stops| > 0 && forall i :: 0 <= i < |stops| - 1 ==> Partly(stops[i], stops[i + 1], render)
  }

  /** However often migration is interrupted, the run that completes leaves what an uninterrupted one would. */
  lemma {:induction false} MigrationResumes(stops: seq<Spaces>, k: nat, render: Printer, ns: Id)
    requires Prints(render) && Stops(stops, render) && k < |stops|
    requires ns in stops[0] && Stable(stops[0][ns], render)
    ensures ns in stops[k] && Stable(stops[k][ns], render)
    ensures Migrated(stops[k][ns], render) == Migrated(stops[0][ns], render)
  {
    if k > 0 {
      MigrationResumes(stops, k - 1, render, ns);
      PartlyNext(stops[k - 1], stops[k], render, ns);
    }
  }

  lemma PartlyNext(a: Spaces, b: Spaces, render: Printer, ns: Id)
    requires Prints(render) && Partly(a, b, render) && ns in a && Stable(a[ns], render)
    ensures ns in b && Stable(b[ns], render) && Migrated(b[ns], render) == Migrated(a[ns], render)
  {
    PartlyResumes(a[ns], b[ns], render);
  }

  // ---------------------------------------------------------------------------------------------
  // What migration leaves

  /** The namespace as the engine reads it. */
  ghost function AsSpace(space: Legacy): Space {
    Space(Some(space.schema), space.stats, Documents(space.texts), space.vectors, space.changes, None, map[], false,
          false)
  }

  /** Every document keeps its ID and its vector, and is pending for the first index build. */
  lemma MigratedKeeps(space: Legacy, render: Printer, id: Id)
    requires LegacyOk(space)
    ensures var m := Migrated(space, render);
            && (id in m.texts <==> id in space.texts) && (id in m.changes <==> id in space.texts)
            && (id in space.texts ==>
                  && m.texts[id] == render(space.texts[id].attributes)
                  && m.changes[id] == 1
                  && Look(m.vectors, id) ==
                     (if space.texts[id].vector.Some? then space.texts[id].vector else Look(space.vectors, id)))
  {
    ConvertedAt(space, render, space.texts.Keys, id);
    assert CellAt(Migrated(space, render), id) == CellAt(Converted(space, render, space.texts.Keys), id);
  }

  lemma MigratedValid(space: Legacy, render: Printer, id: Id)
    requires Prints(render) && LegacyOk(space) && VectorsValid(space)
    ensures var m := Migrated(space, render);
            && (id in m.texts ==> ValidId(id) && WellFormedAttributes(m.texts[id].attributes))
            && (id in m.vectors ==> id in m.texts && space.schema.ValidVector(m.vectors[id]))
  {
    ConvertedAt(space, render, space.texts.Keys, id);
    var m, all := Migrated(space, render), Converted(space, render, space.texts.Keys);
    assert CellAt(m, id) == CellAt(all, id);
  }

  lemma RecountedCounts(m: Legacy)
    requires m.stats == Some(Recounted(m)) && m.changes.Keys == m.texts.Keys
    ensures Counts(Recounted(m), AsSpace(m))
  {
    assert Documents(m.texts).Keys == m.texts.Keys;
    assert |m.changes| == |m.changes.Keys| && |Documents(m.texts)| == |Documents(m.texts).Keys|;
  }

  lemma RecountedSound(m: Legacy)
    requires m.stats == Some(Recounted(m)) && m.changes.Keys == m.texts.Keys
    requires forall id :: id in m.texts ==> ValidId(id) && WellFormedAttributes(m.texts[id].attributes)
    requires forall id :: id in m.vectors ==> id in m.texts && m.schema.ValidVector(m.vectors[id])
    requires forall id :: id in m.changes ==> m.changes[id] == 1
    ensures Sound(AsSpace(m))
  {
    RecountedCounts(m);
  }

  lemma ConvertedChanges(space: Legacy, render: Printer)
    requires LegacyOk(space)
    ensures var c := Converted(space, render, space.texts.Keys);
            c.changes.Keys == c.texts.Keys && forall id :: id in c.changes ==> c.changes[id] == 1
  {
    var more := map id | id in space.texts && id in space.texts.Keys :: 1;
    assert more.Keys == space.texts.Keys;
  }

  lemma MigratedChanges(space: Legacy, render: Printer)
    requires LegacyOk(space)
    ensures var m := Migrated(space, render);
            m.changes.Keys == m.texts.Keys && forall id :: id in m.changes ==> m.changes[id] == 1
  {
    ConvertedChanges(space, render);
  }

  /** The counters and the other invariants of the engine hold. */
  lemma MigratedSound(space: Legacy, render: Printer)
    requires Prints(render) && LegacyOk(space) && VectorsValid(space)
    ensures Sound(AsSpace(Migrated(space, render)))
  {
    var m := Migrated(space, render);
    MigratedChanges(space, render);
    forall id
      ensures id in m.texts ==> ValidId(id) && WellFormedAttributes(m.texts[id].attributes)
      ensures id in m.vectors ==> id in m.texts && m.schema.ValidVector(m.vectors[id])
    {
      MigratedValid(space, render, id);
    }
    RecountedSound(m);
  }
}
