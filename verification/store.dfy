/** The keys of one namespace, gathered by family, and the namespaces of a database. A space is what
    the namespace's part of the flat keyspace holds at one moment, hence also what a snapshot pins. */
module Store {
  import opened Wrappers
  import opened Model
  import opened Keys
  import opened Index

  /** A stored document: what its JSON text parses to, and the length of that text. */
  datatype Doc = Doc(attributes: Attributes, size: nat)

  datatype Stats = Stats(revision: nat, documents: nat, bytes: nat, pending: nat)

  datatype Space = Space(
    schema: Option<Schema>,                          // n/<ns>
    stats: Option<Stats>,                            // s/<ns>
    docs: map<Id, Doc>,                              // d/<ns>/<id>
    vectors: map<Id, Vector>,                        // v/<ns>/<id>
    changes: map<Id, nat>,                           // c/<ns>/<id>
    index: Option<Status>,                           // i/<ns>
    generations: map<(Id, EntryKey), Content>,       // g/<ns>/<generation>/...
    cleanup: bool,                                   // j/<ns>
    deletion: bool)                                  // z/<ns>
  {
    /** Counters default to zero when the key is absent. */
    function StatsOrZero(): Stats {
      if stats.None? then Stats(0, 0, 0, 0) else stats.value
    }

    function View(): View {
      Index.View.View(map id | id in docs :: docs[id].attributes, vectors)
    }

    /** The entries of one generation. */
    function EntriesOf(generation: Id): Entries {
      map p | p in generations && p.0 == generation :: p.1 := generations[p]
    }
  }

  const EMPTY: Space := Space(None, None, map[], map[], map[], None, map[], false, false)

  type Database = map<Id, Space>

  function At(db: Database, ns: Id): Space {
    if ns in db then db[ns] else EMPTY
  }

  /** What reopening makes of a namespace: a marked one loses every key but its definition. */
  function Reopened(space: Space): Space {
    if space.deletion then EMPTY.(schema := space.schema) else space
  }

  /** Two views agree on one document and its vector. */
  ghost predicate SameAt(a: View, b: View, id: Id) {
    && (id in a.docs <==> id in b.docs)
    && (id in a.docs ==> a.docs[id] == b.docs[id])
    && (id in a.vectors <==> id in b.vectors)
    && (id in a.vectors ==> a.vectors[id] == b.vectors[id])
  }

  ghost predicate ChangedAfter(space: Space, id: Id, revision: nat) {
    id in space.changes && space.changes[id] > revision
  }

  /** Every document or vector that differs from the view has a change record newer than the revision. */
  ghost predicate Covered(space: Space, view: View, revision: nat) {
    forall id :: !ChangedAfter(space, id, revision) ==> SameAt(space.View(), view, id)
  }

  /** The published generation was built from this view and is completely stored. */
  ghost predicate Published(space: Space, view: View, u: Unicode)
    requires space.index.Some? && space.schema.Some?
  {
    var status := space.index.value;
    && Faithful(status, space.EntriesOf(status.generation), view, u, space.schema.value)
    && Covered(space, view, status.revision)
  }

  /** What queries need from a snapshot. */
  ghost predicate Queryable(space: Space, u: Unicode) {
    && space.schema.Some?
    && space.View().Valid()
    && (space.index.Some? ==> exists view :: Published(space, view, u))
  }
}
