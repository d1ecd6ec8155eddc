/** Building a generation from a view, and reading filters back from it. */
module Builder {
  import opened Order
  import opened Wrappers
  import opened Numbers
  import opened Model
  import opened Keys
  import opened Index

  type Entry = (EntryKey, Content)

  /** The entries as the database will hold them. */
  function AsMap(entries: seq<Entry>): Entries {
    if entries == [] then map[] else
      var last := entries[|entries| - 1];
      AsMap(entries[..|entries| - 1])[last.0 := last.1]
  }

  ghost predicate DistinctKeys(entries: seq<Entry>) {
    forall i, j :: 0 <= i < j < |entries| ==> entries[i].0 != entries[j].0
  }

  lemma {:induction false} AsMapKeys(entries: seq<Entry>)
    ensures forall k :: k in AsMap(entries) <==> exists i :: 0 <= i < |entries| && entries[i].0 == k
  {
    if entries != [] {
      var rest := entries[..|entries| - 1];
      AsMapKeys(rest);
      forall k ensures k in AsMap(entries) <==> exists i :: 0 <= i < |entries| && entries[i].0 == k {
        if k in AsMap(rest) { var i :| 0 <= i < |rest| && rest[i].0 == k; assert entries[i].0 == k; }
        if k == entries[|entries| - 1].0 { assert k in AsMap(entries); }
        if i :| 0 <= i < |entries| && entries[i].0 == k {
          if i < |rest| { assert rest[i].0 == k; }
        }
      }
    }
  }

  lemma {:induction false} AsMapConcat(a: seq<Entry>, b: seq<Entry>)
    ensures AsMap(a + b) == AsMap(a) + AsMap(b)
  {
    if b == [] {
      assert a + b == a;
    } else {
      AsMapConcat(a, b[..|b| - 1]);
      assert (a + b)[..|a + b| - 1] == a + b[..|b| - 1];
    }
  }

  method Push(entries: seq<Entry>, key: EntryKey, content: Content) returns (r: seq<Entry>)
    requires DistinctKeys(entries) && key !in AsMap(entries)
    ensures DistinctKeys(r) && AsMap(r) == AsMap(entries)[key := content]
  {
    r := entries + [(key, content)];
    AsMapKeys(entries);
    assert r[..|r| - 1] == entries;
  }

  /** Split a list into numbered blocks of 256. */
  method AppendBlocks<T>(entries: seq<Entry>, list: List, rows: seq<T>, wrap: seq<T> -> Content)
    returns (r: seq<Entry>)
    requires DistinctKeys(entries) && forall b :: Block(list, b) !in AsMap(entries)
    ensures DistinctKeys(r)
    ensures forall k :: k in AsMap(r) <==>
              k in AsMap(entries) || (k.Block? && k.list == list && k.block < BlockCount(|rows|, POSTING_BLOCK))
    ensures forall k :: k in AsMap(entries) ==> AsMap(r)[k] == AsMap(entries)[k]
    ensures forall b: nat :: b < BlockCount(|rows|, POSTING_BLOCK) ==>
              AsMap(r)[Block(list, b)] == wrap(Chunk(rows, POSTING_BLOCK, b))
  {
    r := entries;
    for block := 0 to BlockCount(|rows|, POSTING_BLOCK)
      invariant DistinctKeys(r)
      invariant forall k :: k in AsMap(r) <==>
                  k in AsMap(entries) || (k.Block? && k.list == list && k.block < block)
      invariant forall k :: k in AsMap(entries) ==> AsMap(r)[k] == AsMap(entries)[k]
      invariant forall b: nat :: b < block ==> AsMap(r)[Block(list, b)] == wrap(Chunk(rows, POSTING_BLOCK, b))
    {
      r := Push(r, Block(list, block), wrap(Chunk(rows, POSTING_BLOCK, block)));
    }
  }

  function Got<T>(m: map<List, seq<T>>, l: List): seq<T> {
    if l in m then m[l] else []
  }

  predicate Tidy<T(==)>(m: map<List, seq<T>>) {
    forall l :: l in m ==> m[l] != []
  }

  function Added<T>(m: map<List, seq<T>>, l: List, x: T): map<List, seq<T>> {
    m[l := Got(m, l) + [x]]
  }

  /** Put one document's ID into the lists of one attribute. */
  method AddAttribute(attributes: map<List, seq<Id>>, id: Id, field: string, doc: Attributes)
    returns (r: map<List, seq<Id>>)
    requires field in doc && WellFormedAttributes(doc)
    requires Tidy(attributes) && forall l: List :: l in attributes ==> !l.TermList?
    ensures Tidy(r) && forall l: List :: l in r ==> !l.TermList?
    ensures forall l: List ::
              Got(r, l) == Got(attributes, l) + if l.field == field && InList(doc, l) then [id] else []
  {
    r := Added(attributes, EqList(field, Canonical(doc[field])), id);
    var number := AsDouble(doc[field]);
    if number.Some? {
      r := Added(r, NumList(field, NumberKey(number.value)), id);
    }
  }

  /** Put one document's ID into the lists of its attributes. */
  method AddAttributes(attributes: map<List, seq<Id>>, id: Id, doc: Attributes)
    returns (r: map<List, seq<Id>>)
    requires WellFormedAttributes(doc) && Tidy(attributes) && forall l: List :: l in attributes ==> !l.TermList?
    ensures Tidy(r) && forall l: List :: l in r ==> !l.TermList?
    ensures forall l: List :: Got(r, l) == Got(attributes, l) + if InList(doc, l) then [id] else []
  {
    r := attributes;
    var todo := doc.Keys;
    while todo != {}
      invariant todo <= doc.Keys
      invariant Tidy(r) && forall l: List :: l in r ==> !l.TermList?
      invariant forall l: List :: Got(r, l) ==
                  Got(attributes, l) + if l.field !in todo && InList(doc, l) then [id] else []
      decreases |todo|
    {
      var field :| field in todo;
      todo := todo - {field};
      r := AddAttribute(r, id, field, doc);
    }
  }

  function CorpusAt(text: map<string, Corpus>, f: string): Corpus {
    if f in text then text[f] else Corpus(0, 0)
  }

  /** Put one document's text into the corpora and the term lists. */
  method AddText(corpora: map<string, Corpus>, text: map<List, seq<Posting>>, id: Id, terms: map<string, Terms>)
    returns (c: map<string, Corpus>, t: map<List, seq<Posting>>)
    requires Tidy(text) && forall l :: l in text ==> l.TermList?
    requires forall f :: f in corpora ==> corpora[f].documents > 0
    ensures Tidy(t) && forall l :: l in t ==> l.TermList?
    ensures forall f :: f in c ==> c[f].documents > 0
    ensures forall f: string :: CorpusAt(c, f) == Grown(CorpusAt(corpora, f), terms, f)
    ensures forall f: string, w: string ::
              Got(t, TermList(f, w)) == Got(text, TermList(f, w)) + PostingOf(terms, id, f, w)
  {
    c, t := corpora, text;
    var fields := terms.Keys;
    while fields != {}
      invariant fields <= terms.Keys
      invariant TextAdded(c, t, corpora, text, id, terms, terms.Keys - fields)
      decreases |fields|
    {
      var field :| field in fields;
      c, t := AddField(c, t, corpora, text, id, terms, terms.Keys - fields, field);
      assert terms.Keys - (fields - {field}) == terms.Keys - fields + {field};
      fields := fields - {field};
    }
    assert terms.Keys - fields == terms.Keys;
  }

  /** Some fields of a document have been added. */
  ghost predicate TextAdded(
    c: map<string, Corpus>, t: map<List, seq<Posting>>, corpora: map<string, Corpus>, text: map<List, seq<Posting>>,
    id: Id, terms: map<string, Terms>, fields: set<string>)
  {
    && Tidy(t) && (forall l :: l in t ==> l.TermList?)
    && (forall f :: f in c ==> c[f].documents > 0)
    && (forall f: string ::
          CorpusAt(c, f) == if f in fields then Grown(CorpusAt(corpora, f), terms, f) else CorpusAt(corpora, f))
    && forall f: string, w: string ::
         Got(t, TermList(f, w)) ==
         Got(text, TermList(f, w)) + if f in fields then PostingOf(terms, id, f, w) else []
  }

  method AddField(
    before: map<string, Corpus>, postings: map<List, seq<Posting>>, ghost corpora: map<string, Corpus>,
    ghost text: map<List, seq<Posting>>, id: Id, terms: map<string, Terms>, ghost fields: set<string>, field: string)
    returns (c: map<string, Corpus>, t: map<List, seq<Posting>>)
    requires field in terms && field !in fields
    requires TextAdded(before, postings, corpora, text, id, terms, fields)
    ensures TextAdded(c, t, corpora, text, id, terms, fields + {field}) == true
  {
    c := before[field := Grown(CorpusAt(before, field), terms, field)];
    t := AddFieldText(postings, id, field, terms);
  }

  method AddFieldText(text: map<List, seq<Posting>>, id: Id, field: string, terms: map<string, Terms>)
    returns (t: map<List, seq<Posting>>)
    requires field in terms && Tidy(text) && forall l :: l in text ==> l.TermList?
    ensures Tidy(t) && forall l :: l in t ==> l.TermList?
    ensures forall f: string, w: string ::
              Got(t, TermList(f, w)) ==
              Got(text, TermList(f, w)) + if f == field then PostingOf(terms, id, f, w) else []
  {
    t := text;
    var todo := terms[field].frequencies.Keys;
    while todo != {}
      invariant todo <= terms[field].frequencies.Keys
      invariant Tidy(t) && forall l :: l in t ==> l.TermList?
      invariant forall f: string, w: string ::
                  Got(t, TermList(f, w)) ==
                  Got(text, TermList(f, w)) +
                  if f == field && w !in todo then PostingOf(terms, id, f, w) else []
      decreases |todo|
    {
      var term :| term in todo;
      todo := todo - {term};
      t := Added(t, TermList(field, term), Posting(id, terms[field].frequencies[term], terms[field].length));
    }
  }

  /** The rows of every cluster, in ID order. */
  method Cluster(order: seq<Id>, view: View, nearest: map<Id, nat>, count: nat) returns (clusters: seq<seq<Row>>)
    requires forall id :: id in order && id in view.vectors ==> id in nearest && nearest[id] < count
    ensures |clusters| == count
    ensures forall c :: 0 <= c < count ==> clusters[c] == ClusterRows(order, view, nearest, c)
  {
    clusters := seq(count, _ => []);
    for i := 0 to |order|
      invariant |clusters| == count
      invariant forall c :: 0 <= c < count ==> clusters[c] == ClusterRows(order[..i], view, nearest, c)
    {
      var id := order[i];
      assert order[..i + 1][..i] == order[..i];
      if id in view.vectors {
        var c := nearest[id];
        clusters := clusters[c := clusters[c] + [(id, view.vectors[id])]];
      }
    }
    assert order[..|order|] == order;
  }

  /** Store the rows of every cluster in blocks. */
  method PackVectors(schema: Schema, clusters: seq<seq<Row>>)
    returns (clusterBlocks: seq<nat>, entries: seq<Entry>)
    ensures DistinctKeys(entries) && forall k :: k in AsMap(entries) ==> k.VectorBlock?
    ensures |clusterBlocks| == |clusters|
    ensures forall c :: 0 <= c < |clusters| ==> clusterBlocks[c] == BlockCount(|clusters[c]|, PerBlock(schema))
    ensures forall c: nat, b: nat ::
              && (VectorBlock(c, b) in AsMap(entries) <==>
                    c < |clusters| && b < BlockCount(|clusters[c]|, PerBlock(schema)))
              && (VectorBlock(c, b) in AsMap(entries) ==>
                    AsMap(entries)[VectorBlock(c, b)] == Rows(Chunk(clusters[c], PerBlock(schema), b)))
  {
    clusterBlocks, entries := [], [];
    var size := PerBlock(schema);
    for cluster := 0 to |clusters|
      invariant |clusterBlocks| == cluster
      invariant forall c :: 0 <= c < cluster ==> clusterBlocks[c] == BlockCount(|clusters[c]|, size)
      invariant DistinctKeys(entries) && forall k :: k in AsMap(entries) ==> k.VectorBlock?
      invariant forall c: nat, b: nat ::
                  && (VectorBlock(c, b) in AsMap(entries) <==> c < cluster && b < BlockCount(|clusters[c]|, size))
                  && (VectorBlock(c, b) in AsMap(entries) ==>
                        AsMap(entries)[VectorBlock(c, b)] == Rows(Chunk(clusters[c], size, b)))
    {
      var rows := clusters[cluster];
      clusterBlocks := clusterBlocks + [BlockCount(|rows|, size)];
      for block := 0 to BlockCount(|rows|, size)
        invariant DistinctKeys(entries) && forall k :: k in AsMap(entries) ==> k.VectorBlock?
        invariant forall c: nat, b: nat ::
                    && (VectorBlock(c, b) in AsMap(entries) <==>
                          (c < cluster && b < BlockCount(|clusters[c]|, size)) || (c == cluster && b < block))
                    && (VectorBlock(c, b) in AsMap(entries) ==>
                          AsMap(entries)[VectorBlock(c, b)] == Rows(Chunk(clusters[c], size, b)))
      {
        entries := Push(entries, VectorBlock(cluster, block), Rows(Chunk(rows, size, block)));
      }
    }
  }

  method AddTerms(entries: seq<Entry>, id: Id, terms: map<string, Terms>) returns (r: seq<Entry>)
    requires DistinctKeys(entries) && TermsOf(id) !in AsMap(entries)
    ensures DistinctKeys(r)
    ensures AsMap(r) == if terms == map[] then AsMap(entries) else AsMap(entries)[TermsOf(id) := FieldTerms(terms)]
  {
    if terms == map[] {
      r := entries;
    } else {
      r := Push(entries, TermsOf(id), FieldTerms(terms));
    }
  }

  /** Attribute lists of the documents so far. */
  ghost predicate ListedSoFar(attributes: map<List, seq<Id>>, order: seq<Id>, view: View)
    requires view.Valid() && forall id :: id in order ==> id in view.docs
  {
    && Tidy(attributes)
    && (forall l: List :: l in attributes ==> !l.TermList?)
    && forall l: List :: !l.TermList? ==> Got(attributes, l) == ListIds(order, view, l)
  }

  /** Term lists and corpora of the documents so far. */
  ghost predicate TextSoFar(
    text: map<List, seq<Posting>>, corpora: map<string, Corpus>, order: seq<Id>, texts: Texts)
    requires forall id :: id in order ==> id in texts
  {
    && Tidy(text)
    && (forall l: List :: l in text ==> l.TermList?)
    && (forall f: string, w: string :: Got(text, TermList(f, w)) == ListPostings(order, texts, f, w))
    && (forall f :: f in corpora ==> corpora[f].documents > 0)
    && forall f: string :: CorpusAt(corpora, f) == CorpusOf(order, texts, f)
  }

  ghost predicate EntriesSoFar(
    entries: seq<Entry>, vectorEntries: seq<Entry>, order: seq<Id>, texts: Texts)
    requires forall id :: id in order ==> id in texts
  {
    && DistinctKeys(entries)
    && (forall k :: k in AsMap(entries) ==> k in AsMap(vectorEntries) || k.TermsOf?)
    && (forall k :: k in AsMap(vectorEntries) ==> k in AsMap(entries) && AsMap(entries)[k] == AsMap(vectorEntries)[k])
    && StoresTerms(AsMap(entries), order, texts)
  }

  method ListDocument(attributes: map<List, seq<Id>>, ghost before: seq<Id>, id: Id, view: View)
    returns (r: map<List, seq<Id>>)
    requires view.Valid() && id in view.docs && forall x :: x in before ==> x in view.docs
    requires ListedSoFar(attributes, before, view)
    ensures ListedSoFar(r, before + [id], view)
  {
    r := AddAttributes(attributes, id, view.docs[id]);
    assert (before + [id])[..|before|] == before;
  }

  method TextDocument(
    corpora: map<string, Corpus>, text: map<List, seq<Posting>>, ghost before: seq<Id>, id: Id,
    terms: map<string, Terms>, ghost texts: Texts)
    returns (c: map<string, Corpus>, t: map<List, seq<Posting>>)
    requires id in texts && terms == texts[id] && forall x :: x in before ==> x in texts
    requires TextSoFar(text, corpora, before, texts)
    ensures TextSoFar(t, c, before + [id], texts)
  {
    c, t := AddText(corpora, text, id, terms);
    assert (before + [id])[..|before|] == before;
  }

  method TermsDocument(
    entries: seq<Entry>, ghost vectorEntries: seq<Entry>, ghost before: seq<Id>, id: Id,
    terms: map<string, Terms>, ghost texts: Texts)
    returns (r: seq<Entry>)
    requires id in texts && terms == texts[id] && id !in before && forall x :: x in before ==> x in texts
    requires forall k :: k in AsMap(vectorEntries) ==> k.VectorBlock?
    requires EntriesSoFar(entries, vectorEntries, before, texts)
    ensures EntriesSoFar(r, vectorEntries, before + [id], texts)
  {
    r := AddTerms(entries, id, terms);
  }

  /** Go through the documents in ID order, filling lists and corpora and storing field lengths. */
  method AddDocuments(vectorEntries: seq<Entry>, view: View, order: seq<Id>, schema: Schema, u: Unicode)
    returns (
      entries: seq<Entry>, attributes: map<List, seq<Id>>, text: map<List, seq<Posting>>,
      corpora: map<string, Corpus>)
    requires view.Valid() && Enumerates(order, view.docs.Keys)
    requires DistinctKeys(vectorEntries) && forall k :: k in AsMap(vectorEntries) ==> k.VectorBlock?
    ensures EntriesSoFar(entries, vectorEntries, order, TextsOf(u, schema, view.docs))
    ensures ListedSoFar(attributes, order, view)
    ensures TextSoFar(text, corpora, order, TextsOf(u, schema, view.docs))
  {
    entries, attributes, text, corpora := vectorEntries, map[], map[], map[];
    ghost var texts := TextsOf(u, schema, view.docs);
    for i := 0 to |order|
      invariant EntriesSoFar(entries, vectorEntries, order[..i], texts)
      invariant ListedSoFar(attributes, order[..i], view)
      invariant TextSoFar(text, corpora, order[..i], texts)
    {
      var id := order[i];
      assert order[..i + 1] == order[..i] + [id];
      AscendingDistinct(order);
      attributes := ListDocument(attributes, order[..i], id, view);
      var terms := TextOf(u, schema, view.docs[id]);
      corpora, text := TextDocument(corpora, text, order[..i], id, terms, texts);
      entries := TermsDocument(entries, vectorEntries, order[..i], id, terms, texts);
    }
    assert order[..|order|] == order;
  }

  /** The whole build. The nearest centroid of each vector and the refined centroids are given:
      any assignment to existing clusters will do. */
  method Build(
    view: View, order: seq<Id>, schema: Schema, u: Unicode, revision: nat, generation: Id,
    nearest: map<Id, nat>, centroids: seq<Vector>)
    returns (status: Status, entries: seq<Entry>)
    requires view.Valid() && Enumerates(order, view.docs.Keys)
    requires nearest.Keys == view.vectors.Keys && forall id :: id in nearest ==> nearest[id] < |centroids|
    ensures DistinctKeys(entries)
    ensures status.generation == generation && status.revision == revision && status.centroids == centroids
    ensures status.documents == |view.docs| && status.vectors == |view.vectors|
    ensures StoresVectors(AsMap(entries), order, view, schema, nearest, |centroids|)
    ensures Faithful(status, AsMap(entries), view, u, schema)
  {
    var clusterBlocks, vectorEntries := BuildVectors(view, order, schema, nearest, |centroids|);
    var documentEntries, attributes, text, corpora := AddDocuments(vectorEntries, view, order, schema, u);
    entries := AppendLists(
      documentEntries, attributes, text, vectorEntries, view, order, corpora, TextsOf(u, schema, view.docs));
    status := Status(generation, revision, |view.docs|, |view.vectors|, centroids, clusterBlocks, corpora);
    ghost var m, texts := AsMap(entries), TextsOf(u, schema, view.docs);
    assert StoresVectors(m, order, view, schema, nearest, |centroids|) by {
      KeptVectors(m, AsMap(vectorEntries), order, view, schema, nearest, |centroids|);
    }
    assert FaithfulVectors(status, m, view) by {
      StoredVectors(status, m, order, view, schema, nearest);
    }
    assert FaithfulLists(m, view) by { StoredLists(m, order, view); }
    assert FaithfulText(status, m, texts) by { StoredText(status, m, order, texts); }
  }

  /** Assign the vectors to their clusters and pack each cluster into blocks. */
  method BuildVectors(view: View, order: seq<Id>, schema: Schema, nearest: map<Id, nat>, count: nat)
    returns (clusterBlocks: seq<nat>, entries: seq<Entry>)
    requires forall id :: id in order && id in view.vectors ==> id in nearest && nearest[id] < count
    ensures DistinctKeys(entries) && forall k :: k in AsMap(entries) ==> k.VectorBlock?
    ensures |clusterBlocks| == count && StoresVectors(AsMap(entries), order, view, schema, nearest, count)
    ensures forall c :: 0 <= c < count ==>
              clusterBlocks[c] == BlockCount(|ClusterRows(order, view, nearest, c)|, PerBlock(schema))
  {
    var clusters := Cluster(order, view, nearest, count);
    clusterBlocks, entries := PackVectors(schema, clusters);
  }

  /** Store the lists of all documents behind the entries that are there. */
  method AppendLists(
    documentEntries: seq<Entry>, attributes: map<List, seq<Id>>, text: map<List, seq<Posting>>,
    ghost vectorEntries: seq<Entry>, ghost view: View, ghost order: seq<Id>, ghost corpora: map<string, Corpus>,
    ghost texts: Texts)
    returns (entries: seq<Entry>)
    requires view.Valid() && (forall id :: id in order ==> id in view.docs) && forall id :: id in order ==> id in texts
    requires forall k :: k in AsMap(vectorEntries) ==> k.VectorBlock?
    requires EntriesSoFar(documentEntries, vectorEntries, order, texts)
    requires ListedSoFar(attributes, order, view) && TextSoFar(text, corpora, order, texts)
    ensures DistinctKeys(entries)
    ensures StoresLists(AsMap(entries), order, view) && StoresText(AsMap(entries), order, texts)
    ensures StoresTerms(AsMap(entries), order, texts) && CountsCorpora(corpora, order, texts)
    ensures forall k: EntryKey :: k.VectorBlock? ==>
              && (k in AsMap(entries) <==> k in AsMap(vectorEntries))
              && (k in AsMap(entries) ==> AsMap(entries)[k] == AsMap(vectorEntries)[k])
  {
    var attributeEntries := AppendAttributes(documentEntries, attributes);
    entries := AppendText(attributeEntries, text);
    assert StoresLists(AsMap(entries), order, view) by { KeptLists(AsMap(entries), attributes, order, view); }
    KeptText(AsMap(entries), text, corpora, order, texts);
    assert StoresTerms(AsMap(entries), order, texts) by {
      KeptTerms(AsMap(entries), AsMap(documentEntries), order, texts);
    }
  }

  lemma KeptVectors(
    m: Entries, v: Entries, order: seq<Id>, view: View, schema: Schema, nearest: map<Id, nat>, count: nat)
    requires forall id :: id in order && id in view.vectors ==> id in nearest
    requires StoresVectors(v, order, view, schema, nearest, count)
    requires forall k: EntryKey :: k.VectorBlock? ==> (k in m <==> k in v) && (k in m ==> m[k] == v[k])
    ensures StoresVectors(m, order, view, schema, nearest, count)
  {}

  lemma KeptLists(m: Entries, attributes: map<List, seq<Id>>, order: seq<Id>, view: View)
    requires view.Valid() && (forall id :: id in order ==> id in view.docs) && ListedSoFar(attributes, order, view)
    requires forall l: List, b: nat :: !l.TermList? ==>
               && (Block(l, b) in m <==> b < BlockCount(|Got(attributes, l)|, POSTING_BLOCK))
               && (Block(l, b) in m ==> m[Block(l, b)] == Ids(Chunk(Got(attributes, l), POSTING_BLOCK, b)))
    ensures StoresLists(m, order, view)
  {}

  lemma KeptText(
    m: Entries, text: map<List, seq<Posting>>, corpora: map<string, Corpus>, order: seq<Id>, texts: Texts)
    requires (forall id :: id in order ==> id in texts) && TextSoFar(text, corpora, order, texts)
    requires forall l: List, b: nat :: l.TermList? ==>
               && (Block(l, b) in m <==> b < BlockCount(|Got(text, l)|, POSTING_BLOCK))
               && (Block(l, b) in m ==> m[Block(l, b)] == Postings(Chunk(Got(text, l), POSTING_BLOCK, b)))
    ensures StoresText(m, order, texts) && CountsCorpora(corpora, order, texts)
  {
    forall f: string, t: string, b: nat
      ensures var rows := ListPostings(order, texts, f, t);
              && (Block(TermList(f, t), b) in m <==> b < BlockCount(|rows|, POSTING_BLOCK))
              && (Block(TermList(f, t), b) in m ==>
                    m[Block(TermList(f, t), b)] == Postings(Chunk(rows, POSTING_BLOCK, b)))
    {
      assert Got(text, TermList(f, t)) == ListPostings(order, texts, f, t);
    }
    forall f: string
      ensures f in corpora <==> CorpusOf(order, texts, f).documents > 0
      ensures f in corpora ==> corpora[f] == CorpusOf(order, texts, f)
    {
      assert CorpusAt(corpora, f) == CorpusOf(order, texts, f);
    }
  }

  lemma KeptTerms(m: Entries, d: Entries, order: seq<Id>, texts: Texts)
    requires (forall id :: id in order ==> id in texts) && StoresTerms(d, order, texts)
    requires forall k: EntryKey :: k.TermsOf? ==> (k in m <==> k in d) && (k in m ==> m[k] == d[k])
    ensures StoresTerms(m, order, texts)
  {}

  method AppendAttributes(entries: seq<Entry>, attributes: map<List, seq<Id>>) returns (r: seq<Entry>)
    requires DistinctKeys(entries) && forall k :: k in AsMap(entries) ==> !k.Block?
    requires forall l :: l in attributes ==> !l.TermList?
    ensures DistinctKeys(r)
    ensures forall k: EntryKey :: !k.Block? ==> (k in AsMap(r) <==> k in AsMap(entries))
    ensures forall k :: k in AsMap(entries) ==> AsMap(r)[k] == AsMap(entries)[k]
    ensures forall l: List, b: nat ::
              && (Block(l, b) in AsMap(r) <==> b < BlockCount(|Got(attributes, l)|, POSTING_BLOCK))
              && (Block(l, b) in AsMap(r) ==> AsMap(r)[Block(l, b)] == Ids(Chunk(Got(attributes, l), POSTING_BLOCK, b)))
  {
    r := entries;
    var todo := attributes.Keys;
    while todo != {}
      invariant todo <= attributes.Keys && DistinctKeys(r)
      invariant forall k: EntryKey :: !k.Block? ==> (k in AsMap(r) <==> k in AsMap(entries))
      invariant forall k :: k in AsMap(entries) ==> AsMap(r)[k] == AsMap(entries)[k]
      invariant forall l: List, b: nat ::
                  && (Block(l, b) in AsMap(r) <==> l !in todo && b < BlockCount(|Got(attributes, l)|, POSTING_BLOCK))
                  && (Block(l, b) in AsMap(r) ==>
                        AsMap(r)[Block(l, b)] == Ids(Chunk(Got(attributes, l), POSTING_BLOCK, b)))
      decreases |todo|
    {
      var l :| l in todo;
      todo := todo - {l};
      r := AppendBlocks(r, l, attributes[l], ids => Ids(ids));
    }
  }

  method AppendText(entries: seq<Entry>, text: map<List, seq<Posting>>) returns (r: seq<Entry>)
    requires DistinctKeys(entries) && forall k :: k in AsMap(entries) && k.Block? ==> !k.list.TermList?
    requires forall l :: l in text ==> l.TermList?
    ensures DistinctKeys(r)
    ensures forall k: EntryKey :: !(k.Block? && k.list.TermList?) ==> (k in AsMap(r) <==> k in AsMap(entries))
    ensures forall k :: k in AsMap(entries) ==> AsMap(r)[k] == AsMap(entries)[k]
    ensures forall l: List, b: nat :: l.TermList? ==>
              && (Block(l, b) in AsMap(r) <==> b < BlockCount(|Got(text, l)|, POSTING_BLOCK))
              && (Block(l, b) in AsMap(r) ==> AsMap(r)[Block(l, b)] == Postings(Chunk(Got(text, l), POSTING_BLOCK, b)))
  {
    r := entries;
    var todo := text.Keys;
    while todo != {}
      invariant todo <= text.Keys && DistinctKeys(r)
      invariant forall k: EntryKey :: !(k.Block? && k.list.TermList?) ==> (k in AsMap(r) <==> k in AsMap(entries))
      invariant forall k :: k in AsMap(entries) ==> AsMap(r)[k] == AsMap(entries)[k]
      invariant forall l: List, b: nat :: l.TermList? ==>
                  && (Block(l, b) in AsMap(r) <==> l !in todo && b < BlockCount(|Got(text, l)|, POSTING_BLOCK))
                  && (Block(l, b) in AsMap(r) ==>
                        AsMap(r)[Block(l, b)] == Postings(Chunk(Got(text, l), POSTING_BLOCK, b)))
      decreases |todo|
    {
      var l :| l in todo;
      todo := todo - {l};
      r := AppendBlocks(r, l, text[l], rows => Postings(rows));
    }
  }

  // ---------------------------------------------------------------------------------------------
  // Filters

  /** The blocks that the scan of a numeric predicate visits. */
  predicate Visited(k: EntryKey, field: string, range: Range) {
    && k.Block? && k.list.NumList? && k.list.field == field
    && InScan(k.list.number + [SLASH] + BlockText(k.block), range.gte, range.lte)
  }

  /** The keys of a scan: a prefix, and bounds for what follows it. */
  predicate InSubrange(text: Bytes, prefix: Bytes, low: Bytes, high: Bytes) {
    StartsWith(text, prefix) && !Below(text[|prefix|..], low) && Below(text[|prefix|..], high)
  }

  /** By the text of keys, the scan of a numeric predicate visits these blocks of its generation and no other key
      of the database. */
  lemma RangeScanVisits(k: Key, ns: Id, generation: Id, field: string, range: Range, h: Digests)
    requires ValidKey(k) && ValidId(ns) && ValidId(generation) && h.Valid()
    ensures InSubrange(Rendered(k, h), FieldPrefix(ns, generation, field, h), LowBound(range.gte), HighBound(range.lte))
            <==> k.GenerationKey? && k.ns == ns && k.generation == generation && Visited(k.entry, field, range)
  {
    FieldScan(k, ns, generation, field, h);
    var text, prefix := Rendered(k, h), FieldPrefix(ns, generation, field, h);
    if StartsWith(text, prefix) {
      assert text[|prefix|..] == k.entry.list.number + [SLASH] + BlockText(k.entry.block);
    }
  }

  /** By the text of keys, the scan of an equality predicate visits the blocks of its list and no other key. */
  lemma EqualScanVisits(k: Key, ns: Id, generation: Id, field: string, value: Json, h: Digests)
    requires ValidKey(k) && ValidId(ns) && ValidId(generation) && h.Valid()
    ensures StartsWith(Rendered(k, h), ListPrefix(ns, generation, EqList(field, Canonical(value)), h))
            <==> k.GenerationKey? && k.ns == ns && k.generation == generation &&
                 k.entry.Block? && k.entry.list == EqList(field, Canonical(value))
  {
    ListScan(k, ns, generation, EqList(field, Canonical(value)), h);
  }

  ghost function RangeIds(m: Entries, field: string, range: Range): set<Id> {
    set k, id | k in m.Keys && Visited(k, field, range) && m[k].Ids? && id in m[k].ids :: id
  }

  /** The IDs that a filter selects, or none when it has no predicate. */
  ghost function Selected(view: View, filter: Filter): Option<set<Id>>
    requires view.Valid()
  {
    if filter.Unconstrained() then None
    else Some(set id | id in view.docs && filter.Matches(view.docs[id]))
  }

  predicate InRange(attributes: Attributes, field: string, range: Range)
    requires WellFormedAttributes(attributes)
  {
    && field in attributes
    && AsDouble(attributes[field]).Some?
    && Within(AsDouble(attributes[field]).value, range.gte, range.lte)
  }

  /** Reading one numeric predicate finds exactly the documents whose number is within the bounds. */
  lemma RangeIdsExact(m: Entries, view: View, field: string, range: Range, id: Id)
    requires view.Valid() && FaithfulLists(m, view)
    requires (range.gte.Some? ==> Finite(range.gte.value)) && (range.lte.Some? ==> Finite(range.lte.value))
    ensures id in RangeIds(m, field, range) <==> id in view.docs && InRange(view.docs[id], field, range)
  {
    if id in RangeIds(m, field, range) {
      var k :| k in m.Keys && Visited(k, field, range) && m[k].Ids? && id in m[k].ids;
      assert id in IdsIn(m, k.list);
      ScanSelectsRange(AsDouble(view.docs[id][field]).value, BlockText(k.block), range.gte, range.lte);
    }
    if id in view.docs && InRange(view.docs[id], field, range) {
      var number := AsDouble(view.docs[id][field]).value;
      var l := NumList(field, NumberKey(number));
      assert id in IdsIn(m, l);
      var k :| k in m.Keys && k.Block? && k.list == l && m[k].Ids? && id in m[k].ids;
      ScanSelectsRange(number, BlockText(k.block), range.gte, range.lte);
      assert Visited(k, field, range);
    }
  }

  /** Reading one equality predicate finds exactly the documents whose value equals the expected one. */
  lemma EqualIdsExact(m: Entries, view: View, field: string, value: Json, id: Id)
    requires view.Valid() && FaithfulLists(m, view)
    ensures id in IdsIn(m, EqList(field, Canonical(value))) <==>
            id in view.docs && field in view.docs[id] && JsonEq(view.docs[id][field], value)
  {
    if id in view.docs && field in view.docs[id] {
      CanonicalDecidesEquality(view.docs[id][field], value);
    }
  }

  /** Read all blocks of a scan into a set. */
  method Collect(m: Entries, keys: set<EntryKey>) returns (ids: set<Id>)
    requires keys <= m.Keys
    ensures forall id :: id in ids <==> exists k :: k in keys && m[k].Ids? && id in m[k].ids
  {
    ids := {};
    var todo := keys;
    while todo != {}
      invariant todo <= keys
      invariant forall id :: id in ids <==> exists k :: k in keys - todo && m[k].Ids? && id in m[k].ids
      decreases |todo|
    {
      var k :| k in todo;
      todo := todo - {k};
      if m[k].Ids? {
        ids := ids + set id | id in m[k].ids;
      }
      assert keys - todo == keys - (todo + {k}) + {k};
    }
    assert keys - todo == keys;
  }

  /** The next set is the intersection of a set with the one before, if there was one. */
  ghost predicate Narrows(next: Option<set<Id>>, result: Option<set<Id>>, ids: set<Id>) {
    next.Some? && forall id :: id in next.value <==> id in ids && (result.Some? ==> id in result.value)
  }

  /** Keep the IDs that every set so far has. */
  method Intersect(result: Option<set<Id>>, ids: set<Id>) returns (r: Option<set<Id>>)
    ensures Narrows(r, result, ids)
  {
    r := Some(if result.Some? then result.value * ids else ids);
  }

  /** What the predicates looked at so far select. */
  ghost predicate MeetsSoFar(attributes: Attributes, filter: Filter, eqs: set<string>, ranges: set<string>)
    requires WellFormedAttributes(attributes) && eqs <= filter.eq.Keys && ranges <= filter.range.Keys
  {
    && (forall f :: f in eqs ==> f in attributes && JsonEq(attributes[f], filter.eq[f]))
    && (forall f :: f in ranges ==> InRange(attributes, f, filter.range[f]))
  }

  ghost predicate SelectsSoFar(
    result: Option<set<Id>>, view: View, filter: Filter, eqs: set<string>, ranges: set<string>)
    requires view.Valid() && eqs <= filter.eq.Keys && ranges <= filter.range.Keys
  {
    && (result.None? <==> eqs == {} && ranges == {})
    && (result.Some? ==> forall id ::
          id in result.value <==> id in view.docs && MeetsSoFar(view.docs[id], filter, eqs, ranges))
  }

  lemma NextEqual(
    next: Option<set<Id>>, result: Option<set<Id>>, ids: set<Id>, view: View, filter: Filter, eqs: set<string>,
    field: string)
    requires view.Valid() && eqs <= filter.eq.Keys && field in filter.eq
    requires SelectsSoFar(result, view, filter, eqs, {}) && Narrows(next, result, ids)
    requires forall id :: id in ids <==>
               id in view.docs && field in view.docs[id] && JsonEq(view.docs[id][field], filter.eq[field])
    ensures SelectsSoFar(next, view, filter, eqs + {field}, {})
  {
    forall id ensures id in next.value <==> id in view.docs && MeetsSoFar(view.docs[id], filter, eqs + {field}, {}) {
      if id in view.docs {
        assert MeetsSoFar(view.docs[id], filter, eqs + {field}, {}) <==>
               MeetsSoFar(view.docs[id], filter, eqs, {}) && id in ids;
      }
    }
  }

  lemma NextRange(
    next: Option<set<Id>>, result: Option<set<Id>>, ids: set<Id>, view: View, filter: Filter, ranges: set<string>,
    field: string)
    requires view.Valid() && ranges <= filter.range.Keys && field in filter.range
    requires SelectsSoFar(result, view, filter, filter.eq.Keys, ranges) && Narrows(next, result, ids)
    requires forall id :: id in ids <==> id in view.docs && InRange(view.docs[id], field, filter.range[field])
    ensures SelectsSoFar(next, view, filter, filter.eq.Keys, ranges + {field})
  {
    forall id
      ensures id in next.value <==>
              id in view.docs && MeetsSoFar(view.docs[id], filter, filter.eq.Keys, ranges + {field})
    {
      if id in view.docs {
        assert MeetsSoFar(view.docs[id], filter, filter.eq.Keys, ranges + {field}) <==>
               MeetsSoFar(view.docs[id], filter, filter.eq.Keys, ranges) && id in ids;
      }
    }
  }

  predicate FiniteBounds(filter: Filter) {
    forall f :: f in filter.range ==>
      && (filter.range[f].gte.Some? ==> Finite(filter.range[f].gte.value))
      && (filter.range[f].lte.Some? ==> Finite(filter.range[f].lte.value))
  }

  method ReadEqual(m: Entries, field: string, value: Json, ghost view: View) returns (ids: set<Id>)
    requires view.Valid() && FaithfulLists(m, view)
    ensures forall id :: id in ids <==>
              id in view.docs && field in view.docs[id] && JsonEq(view.docs[id][field], value)
  {
    var list := EqList(field, Canonical(value));
    ids := Collect(m, set k | k in m.Keys && k.Block? && k.list == list);
    forall id ensures id in ids <==>
        id in view.docs && field in view.docs[id] && JsonEq(view.docs[id][field], value)
    {
      EqualIdsExact(m, view, field, value, id);
      assert id in ids <==> id in IdsIn(m, list);
    }
  }

  method ReadRange(m: Entries, field: string, range: Range, ghost view: View) returns (ids: set<Id>)
    requires view.Valid() && FaithfulLists(m, view)
    requires (range.gte.Some? ==> Finite(range.gte.value)) && (range.lte.Some? ==> Finite(range.lte.value))
    ensures forall id :: id in ids <==> id in view.docs && InRange(view.docs[id], field, range)
  {
    ids := Collect(m, set k | k in m.Keys && Visited(k, field, range));
    forall id ensures id in ids <==> id in view.docs && InRange(view.docs[id], field, range) {
      RangeIdsExact(m, view, field, range, id);
      assert id in ids <==> id in RangeIds(m, field, range);
    }
  }

  method IntersectEqual(
    m: Entries, filter: Filter, field: string, before: Option<set<Id>>, ghost done: set<string>, ghost view: View)
    returns (result: Option<set<Id>>)
    requires view.Valid() && FaithfulLists(m, view)
    requires done <= filter.eq.Keys && field in filter.eq && SelectsSoFar(before, view, filter, done, {})
    ensures SelectsSoFar(result, view, filter, done + {field}, {})
  {
    var ids := ReadEqual(m, field, filter.eq[field], view);
    result := Intersect(before, ids);
    NextEqual(result, before, ids, view, filter, done, field);
  }

  method IntersectRange(
    m: Entries, filter: Filter, field: string, before: Option<set<Id>>, ghost done: set<string>, ghost view: View)
    returns (result: Option<set<Id>>)
    requires view.Valid() && FaithfulLists(m, view) && FiniteBounds(filter)
    requires done <= filter.range.Keys && field in filter.range
    requires SelectsSoFar(before, view, filter, filter.eq.Keys, done)
    ensures SelectsSoFar(result, view, filter, filter.eq.Keys, done + {field})
  {
    var ids := ReadRange(m, field, filter.range[field], view);
    result := Intersect(before, ids);
    NextRange(result, before, ids, view, filter, done, field);
  }

  method FilterEqual(m: Entries, filter: Filter, ghost view: View) returns (result: Option<set<Id>>)
    requires view.Valid() && FaithfulLists(m, view)
    ensures SelectsSoFar(result, view, filter, filter.eq.Keys, {})
  {
    result := None;
    ghost var done: set<string> := {};
    var todo := filter.eq.Keys;
    while todo != {}
      invariant done + todo == filter.eq.Keys
      invariant SelectsSoFar(result, view, filter, done, {})
      decreases |todo|
    {
      var field :| field in todo;
      result := IntersectEqual(m, filter, field, result, done, view);
      todo, done := todo - {field}, done + {field};
    }
    assert done == filter.eq.Keys;
  }

  method FilterRange(m: Entries, filter: Filter, equal: Option<set<Id>>, ghost view: View)
    returns (result: Option<set<Id>>)
    requires view.Valid() && FaithfulLists(m, view) && FiniteBounds(filter)
    requires SelectsSoFar(equal, view, filter, filter.eq.Keys, {})
    ensures SelectsSoFar(result, view, filter, filter.eq.Keys, filter.range.Keys)
  {
    result := equal;
    ghost var done: set<string> := {};
    var todo := filter.range.Keys;
    while todo != {}
      invariant done + todo == filter.range.Keys
      invariant SelectsSoFar(result, view, filter, filter.eq.Keys, done) == true
      decreases |todo|
    {
      var field :| field in todo;
      result := IntersectRange(m, filter, field, result, done, view);
      todo, done := todo - {field}, done + {field};
    }
    assert done == filter.range.Keys;
  }

  /** The posting sets of all predicates, intersected: exactly the documents that match. */
  method FilterIds(m: Entries, filter: Filter, ghost view: View) returns (result: Option<set<Id>>)
    requires view.Valid() && FaithfulLists(m, view) && filter.Valid()
    ensures result == Selected(view, filter)
  {
    var equal := FilterEqual(m, filter, view);
    result := FilterRange(m, filter, equal, view);
    AllPredicates(result, view, filter);
  }

  lemma AllPredicates(result: Option<set<Id>>, view: View, filter: Filter)
    requires view.Valid() && SelectsSoFar(result, view, filter, filter.eq.Keys, filter.range.Keys)
    ensures result == Selected(view, filter)
  {
    assert filter.eq.Keys == {} <==> filter.eq == map[];
    assert filter.range.Keys == {} <==> filter.range == map[];
    forall id | id in view.docs
      ensures filter.Matches(view.docs[id]) <==>
              MeetsSoFar(view.docs[id], filter, filter.eq.Keys, filter.range.Keys)
    {
      assert forall f | f in filter.range ::
        InRange(view.docs[id], f, filter.range[f]) <==>
        f in view.docs[id] && AsDouble(view.docs[id][f]).Some? &&
        Within(AsDouble(view.docs[id][f]).value, filter.range[f].gte, filter.range[f].lte);
    }
    if result.Some? {
      forall id ensures id in result.value <==> id in view.docs && filter.Matches(view.docs[id]) {}
      assert result.value == set id | id in view.docs && filter.Matches(view.docs[id]);
    }
  }
}
