/** The namespaces of a database as one flat keyspace, and what scans and erases mean there. */
module Keyspace {
  import opened Order
  import opened Model
  import opened Keys
  import opened Store
  import opened Engine
  import opened Lifecycle
  import opened Runs

  /** The keys that are stored, the format marker aside. */
  predicate Has(db: Store.Database, k: Key) {
    match k
    case FormatKey => true
    case NamespaceKey(ns) => At(db, ns).schema.Some?
    case StatsKey(ns) => At(db, ns).stats.Some?
    case DocumentKey(ns, id) => id in At(db, ns).docs
    case VectorKey(ns, id) => id in At(db, ns).vectors
    case ChangeKey(ns, id) => id in At(db, ns).changes
    case IndexKey(ns) => At(db, ns).index.Some?
    case GenerationKey(ns, g, e) => (g, e) in At(db, ns).generations
    case CleanupKey(ns) => At(db, ns).cleanup
    case DeletionKey(ns) => At(db, ns).deletion
  }

  predicate Of(k: Key, ns: Id) {
    !k.FormatKey? && k.ns == ns
  }

  /** An empty space is one without a key. */
  lemma EmptyIffKeyless(db: Store.Database, ns: Id)
    ensures At(db, ns) == EMPTY <==> forall k :: Of(k, ns) ==> !Has(db, k)
  {
    if forall k :: Of(k, ns) ==> !Has(db, k) {
      var s := At(db, ns);
      assert !Has(db, NamespaceKey(ns)) && !Has(db, StatsKey(ns)) && !Has(db, IndexKey(ns));
      assert !Has(db, CleanupKey(ns)) && !Has(db, DeletionKey(ns));
      forall id ensures id !in s.docs && id !in s.vectors && id !in s.changes {
        assert !Has(db, DocumentKey(ns, id)) && !Has(db, VectorKey(ns, id)) && !Has(db, ChangeKey(ns, id));
      }
      forall p ensures p !in s.generations { assert !Has(db, GenerationKey(ns, p.0, p.1)); }
      assert s.docs == map[] && s.vectors == map[] && s.changes == map[] && s.generations == map[];
    }
  }

  /** What an erase scans: the stored keys whose text starts with one of four prefixes, and no key of a
      namespace whose name merely starts like this one. */
  lemma ScannedByPrefix(db: Store.Database, ns: Id, k: Key, h: Digests)
    requires ValidKey(k) && ValidId(ns) && h.Valid()
    ensures Scanned(At(db, ns), ns, k) <==>
            && Has(db, k)
            && exists family :: family in {100, 118, 99, 103} && StartsWith(Rendered(k, h), Prefix(family, ns))
  {
    FamilyScan(k, ns, h);
    assert 100 in {100, 118, 99, 103} && 118 in {100, 118, 99, 103} && 99 in {100, 118, 99, 103};
  }

  /** A batch of an erase removes these keys and no other. */
  lemma EraseRemoves(db: Store.Database, ns: Id, keys: seq<Key>, k: Key)
    requires forall x :: x in keys ==> x.DocumentKey? || x.VectorKey? || x.ChangeKey? || x.GenerationKey?
    requires forall x :: x in keys ==> Of(x, ns)
    ensures Has(db[ns := Without(At(db, ns), ns, keys)], k) <==> Has(db, k) && k !in keys
  {
    var next := db[ns := Without(At(db, ns), ns, keys)];
    if Of(k, ns) { assert At(next, ns) == Without(At(db, ns), ns, keys); }
    if !k.FormatKey? && k.ns != ns { assert At(next, k.ns) == At(db, k.ns); }
  }

  /** Deletion recovery, key by key: after a crash at any point of a deletion, when requests are served again,
      no key of that namespace is left, and every key of a namespace that was not being deleted is. */
  lemma DeletionLeavesNoKey(
    run: seq<State>, events: seq<Event>, limits: Limits, complete: Completeness, i: nat, j: nat, k: Key)
    requires Run(run, events, limits, complete) && 0 < i < j < |run|
    requires run[i - 1].job.Erasing? && events[i - 1].Crash? && run[j].serving
    requires forall x :: i <= x < j ==> !run[x].serving
    requires !k.FormatKey?
    ensures k.ns == run[i - 1].job.ns ==> !Has(run[j].db, k)
    ensures !At(run[i].db, k.ns).deletion ==> (Has(run[j].db, k) <==> Has(run[i].db, k))
  {
    DeletionRecovered(run, events, limits, complete, i, j);
    EmptyIffKeyless(run[j].db, run[i - 1].job.ns);
    assert Of(k, k.ns);
    RecoveryOutcome(run, events, limits, complete, i, j, k.ns);
    SameKeys(run[i].db, run[j].db, k);
  }

  lemma SameKeys(a: Store.Database, b: Store.Database, k: Key)
    requires !k.FormatKey?
    ensures At(a, k.ns) == At(b, k.ns) ==> (Has(a, k) <==> Has(b, k))
  {}
}
