/** Index generations: what a build stores, and what the readers of one generation find. */
module Index {
  import opened Arithmetic
  import opened Order
  import opened Numbers
  import opened Model
  import opened Keys
  import opened Sums

  const POSTING_BLOCK: nat := 256

  datatype Posting = Posting(id: Id, frequency: nat, length: nat)

  datatype Corpus = Corpus(documents: nat, tokens: nat)

  type Row = (Id, Vector)

  datatype Content =
    | Ids(ids: seq<Id>)
    | Postings(postings: seq<Posting>)
    | Rows(rows: seq<Row>)
    | FieldTerms(terms: map<string, Terms>)

  type Entries = map<EntryKey, Content>

  datatype Status = Status(
    generation: Id,
    revision: nat,
    documents: nat,
    vectors: nat,
    centroids: seq<Vector>,
    clusterBlocks: seq<nat>,
    text: map<string, Corpus>)

  /** The primary data of a namespace at one moment. */
  datatype View = View(docs: map<Id, Attributes>, vectors: map<Id, Vector>)
  {
    predicate Valid() {
      && vectors.Keys <= docs.Keys
      && forall id :: id in docs ==> WellFormedAttributes(docs[id])
    }
  }

  // ---------------------------------------------------------------------------------------------
  // Blocks of a list

  function BlockCount(length: nat, size: nat): nat
    requires size > 0
  {
    (length + size - 1) / size
  }

  function Chunk<T>(rows: seq<T>, size: nat, block: nat): seq<T>
    requires size > 0 && block < BlockCount(|rows|, size)
  {
    ChunkBounds(|rows|, size, block);
    rows[block * size..if (block + 1) * size < |rows| then (block + 1) * size else |rows|]
  }

  lemma ChunkBounds(length: nat, size: nat, block: nat)
    requires size > 0 && block < BlockCount(length, size)
    ensures block * size < length
  {
    Quotient(length + size - 1, size);
    Monotone(block + 1, BlockCount(length, size), size);
    Distribute(block, size);
  }

  lemma BlocksReach(length: nat, size: nat)
    requires size > 0
    ensures BlockCount(length, size) * size >= length
  {
    Quotient(length + size - 1, size);
    Distribute(BlockCount(length, size), size);
  }

  lemma BlockOfIndex(length: nat, size: nat, i: nat)
    requires size > 0 && i < length
    ensures i / size < BlockCount(length, size)
    ensures i / size * size <= i < (i / size + 1) * size
  {
    Quotient(i, size);
    BlocksReach(length, size);
    if BlockCount(length, size) <= i / size { Monotone(BlockCount(length, size), i / size, size); }
  }

  /** Every element of the list is in some block, and the blocks hold nothing else. */
  lemma ChunksCover<T>(rows: seq<T>, size: nat, x: T)
    requires size > 0
    ensures x in rows <==> exists b: nat :: b < BlockCount(|rows|, size) && x in Chunk(rows, size, b)
  {
    if x in rows {
      var i :| 0 <= i < |rows| && rows[i] == x;
      ChunkHolds(rows, size, i);
    }
    forall b: nat | b < BlockCount(|rows|, size) && x in Chunk(rows, size, b) ensures x in rows {
      ChunkBounds(|rows|, size, b);
    }
  }

  lemma ChunkHolds<T>(rows: seq<T>, size: nat, i: nat)
    requires size > 0 && i < |rows|
    ensures var b := i / size; b < BlockCount(|rows|, size) && rows[i] in Chunk(rows, size, b)
  {
    BlockOfIndex(|rows|, size, i);
    var b := i / size;
    assert Chunk(rows, size, b)[i - b * size] == rows[i];
  }

  /** The first blocks of a list, one after the other. */
  function Blocks<T>(rows: seq<T>, size: nat, count: nat): seq<T>
    requires size > 0 && count <= BlockCount(|rows|, size)
  {
    if count == 0 then [] else Blocks(rows, size, count - 1) + Chunk(rows, size, count - 1)
  }

  /** The blocks of a list in order are the list: nothing is moved, repeated or lost. */
  lemma ChunksConcatenate<T>(rows: seq<T>, size: nat)
    requires size > 0
    ensures Blocks(rows, size, BlockCount(|rows|, size)) == rows
    ensures forall b: nat :: b + 1 < BlockCount(|rows|, size) ==> |Chunk(rows, size, b)| == size
  {
    FirstChunks(rows, size, BlockCount(|rows|, size));
    BlocksReach(|rows|, size);
    forall b: nat | b + 1 < BlockCount(|rows|, size) ensures |Chunk(rows, size, b)| == size {
      ChunkBounds(|rows|, size, b + 1);
      Distribute(b, size);
    }
  }

  lemma {:induction false} FirstChunks<T>(rows: seq<T>, size: nat, count: nat)
    requires size > 0 && count <= BlockCount(|rows|, size)
    ensures Blocks(rows, size, count) == rows[..if count * size < |rows| then count * size else |rows|]
  {
    if count > 0 {
      FirstChunks(rows, size, count - 1);
      ChunkExtends(rows, size, count - 1);
    }
  }

  // ---------------------------------------------------------------------------------------------
  // What is stored, as functions of the documents

  predicate InList(attributes: Attributes, l: List)
    requires WellFormedAttributes(attributes)
  {
    match l
    case EqList(f, v) => f in attributes && Canonical(attributes[f]) == v
    case NumList(f, k) =>
      f in attributes && AsDouble(attributes[f]).Some? && NumberKey(AsDouble(attributes[f]).value) == k
    case TermList(_, _) => false
  }

  /** IDs of the documents of a list, in ID order. */
  function ListIds(order: seq<Id>, view: View, l: List): seq<Id>
    requires view.Valid() && forall id :: id in order ==> id in view.docs
  {
    if order == [] then [] else
      var id := order[|order| - 1];
      ListIds(order[..|order| - 1], view, l) + if InList(view.docs[id], l) then [id] else []
  }

  function TextOf(u: Unicode, schema: Schema, attributes: Attributes): map<string, Terms> {
    DocumentTerms(u, attributes, schema.textFields)
  }

  /** The tokenized fields of every document. */
  type Texts = map<Id, map<string, Terms>>

  function TextsOf(u: Unicode, schema: Schema, docs: map<Id, Attributes>): Texts {
    map id | id in docs :: TextOf(u, schema, docs[id])
  }

  function PostingOf(terms: map<string, Terms>, id: Id, field: string, term: string): seq<Posting> {
    if field in terms && term in terms[field].frequencies
    then [Posting(id, terms[field].frequencies[term], terms[field].length)]
    else []
  }

  function ListPostings(order: seq<Id>, texts: Texts, field: string, term: string): seq<Posting>
    requires forall id :: id in order ==> id in texts
  {
    if order == [] then [] else
      var id := order[|order| - 1];
      ListPostings(order[..|order| - 1], texts, field, term) + PostingOf(texts[id], id, field, term)
  }

  function Grown(c: Corpus, terms: map<string, Terms>, f: string): Corpus {
    if f in terms then Corpus(c.documents + 1, c.tokens + terms[f].length) else c
  }

  function CorpusOf(order: seq<Id>, texts: Texts, field: string): Corpus
    requires forall id :: id in order ==> id in texts
  {
    if order == [] then Corpus(0, 0) else
      Grown(CorpusOf(order[..|order| - 1], texts, field), texts[order[|order| - 1]], field)
  }

  /** Rows of the vectors in ID order, restricted to one cluster. */
  function ClusterRows(order: seq<Id>, view: View, nearest: map<Id, nat>, cluster: nat): seq<Row>
    requires forall id :: id in order && id in view.vectors ==> id in nearest
  {
    if order == [] then [] else
      var id := order[|order| - 1];
      ClusterRows(order[..|order| - 1], view, nearest, cluster)
      + if id in view.vectors && nearest[id] == cluster then [(id, view.vectors[id])] else []
  }

  /** Rows per vector block: at most 128, and about 256 KiB. */
  function PerBlock(schema: Schema): (n: nat)
    ensures 1 <= n <= 128
  {
    var n := 256 * 1024 / ((if schema.dimensions.Some? then schema.dimensions.value else 1) * 4 + 130);
    if n < 1 then 1 else if n > 128 then 128 else n
  }

  ghost predicate StoresLists(m: Entries, order: seq<Id>, view: View)
    requires view.Valid() && forall id :: id in order ==> id in view.docs
  {
    forall l: List, b: nat :: !l.TermList? ==>
      var ids := ListIds(order, view, l);
      && (Block(l, b) in m <==> b < BlockCount(|ids|, POSTING_BLOCK))
      && (Block(l, b) in m ==> m[Block(l, b)] == Ids(Chunk(ids, POSTING_BLOCK, b)))
  }

  ghost predicate StoresText(m: Entries, order: seq<Id>, texts: Texts)
    requires forall id :: id in order ==> id in texts
  {
    forall f: string, t: string, b: nat ::
      var rows := ListPostings(order, texts, f, t);
      && (Block(TermList(f, t), b) in m <==> b < BlockCount(|rows|, POSTING_BLOCK))
      && (Block(TermList(f, t), b) in m ==>
            m[Block(TermList(f, t), b)] == Postings(Chunk(rows, POSTING_BLOCK, b)))
  }

  ghost predicate StoresTerms(m: Entries, order: seq<Id>, texts: Texts)
    requires forall id :: id in order ==> id in texts
  {
    forall id: Id ::
      && (TermsOf(id) in m <==> id in order && texts[id] != map[])
      && (TermsOf(id) in m ==> m[TermsOf(id)] == FieldTerms(texts[id]))
  }

  ghost predicate StoresVectors(
    m: Entries, order: seq<Id>, view: View, schema: Schema, nearest: map<Id, nat>, count: nat)
    requires forall id :: id in order && id in view.vectors ==> id in nearest
  {
    forall c: nat, b: nat ::
      && (VectorBlock(c, b) in m <==>
            c < count && b < BlockCount(|ClusterRows(order, view, nearest, c)|, PerBlock(schema)))
      && (VectorBlock(c, b) in m ==>
            m[VectorBlock(c, b)] == Rows(Chunk(ClusterRows(order, view, nearest, c), PerBlock(schema), b)))
  }

  ghost predicate CountsCorpora(corpora: map<string, Corpus>, order: seq<Id>, texts: Texts)
    requires forall id :: id in order ==> id in texts
  {
    forall f: string ::
      && (f in corpora <==> CorpusOf(order, texts, f).documents > 0)
      && (f in corpora ==> corpora[f] == CorpusOf(order, texts, f))
  }

  // ---------------------------------------------------------------------------------------------
  // What readers rely on, with no order, blocks or clusters left

  /** The IDs under one equality or numeric list. */
  ghost function IdsIn(m: Entries, l: List): set<Id> {
    set k, id | k in m.Keys && k.Block? && k.list == l && m[k].Ids? && id in m[k].ids :: id
  }

  /** The postings of one term. */
  ghost function PostingsIn(m: Entries, field: string, term: string): set<Posting> {
    set k, p | k in m.Keys && k.Block? && k.list == TermList(field, term) && m[k].Postings? && p in m[k].postings :: p
  }

  /** Rows that list a map: each entry once, nothing else. */
  ghost predicate ListsMap<V>(rows: seq<(Id, V)>, m: map<Id, V>) {
    && (forall i :: 0 <= i < |rows| ==> rows[i].0 in m && m[rows[i].0] == rows[i].1)
    && (forall i, j :: 0 <= i < j < |rows| ==> rows[i].0 != rows[j].0)
    && (forall id :: id in m ==> (id, m[id]) in rows)
  }

  /** The rows of the blocks of a cluster, as the cluster's block count enumerates them. */
  function BlockRows(m: Entries, cluster: nat, blocks: nat): seq<Row> {
    if blocks == 0 then [] else
      BlockRows(m, cluster, blocks - 1)
      + var k := VectorBlock(cluster, blocks - 1); if k in m && m[k].Rows? then m[k].rows else []
  }

  /** Field lengths of the documents in which a field is text. */
  ghost function Lengths(texts: Texts, f: string): map<Id, nat> {
    map id | id in texts && f in texts[id] :: texts[id][f].length
  }

  /** Documents and tokens of one field. */
  ghost function WholeCorpus(texts: Texts, f: string): Corpus {
    Corpus(|Lengths(texts, f)|, Total(Lengths(texts, f)))
  }

  ghost predicate Faithful(status: Status, m: Entries, view: View, u: Unicode, schema: Schema) {
    && view.Valid()
    && FaithfulLists(m, view)
    && FaithfulText(status, m, TextsOf(u, schema, view.docs))
    && FaithfulVectors(status, m, view)
  }

  ghost predicate FaithfulLists(m: Entries, view: View)
    requires view.Valid()
  {
    && (forall l: List, id: Id :: !l.TermList? ==>
          (id in IdsIn(m, l) <==> id in view.docs && InList(view.docs[id], l)))
    && forall k :: k in m && k.Block? && k.list.NumList? ==> m[k].Ids? && m[k].ids != []
  }

  ghost predicate FaithfulText(status: Status, m: Entries, texts: Texts) {
    && (forall f: string, t: string, p: Posting ::
          p in PostingsIn(m, f, t) <==> p.id in texts && PostingOf(texts[p.id], p.id, f, t) == [p])
    && (forall id: Id ::
          && (TermsOf(id) in m <==> id in texts && texts[id] != map[])
          && (TermsOf(id) in m ==> m[TermsOf(id)] == FieldTerms(texts[id])))
    && (forall f: string ::
          && (f in status.text <==> Lengths(texts, f) != map[])
          && (f in status.text ==> status.text[f] == WholeCorpus(texts, f)))
  }

  /** The vectors of one cluster. */
  function InCluster(view: View, nearest: map<Id, nat>, cluster: nat): map<Id, Vector> {
    map id | id in view.vectors && id in nearest && nearest[id] == cluster :: view.vectors[id]
  }

  /** Each cluster's blocks list the vectors assigned to it, each of them once. */
  ghost predicate Partitioned(status: Status, m: Entries, view: View, nearest: map<Id, nat>) {
    && nearest.Keys == view.vectors.Keys
    && (forall id :: id in nearest ==> nearest[id] < |status.clusterBlocks|)
    && forall c :: 0 <= c < |status.clusterBlocks| ==>
         ListsMap(BlockRows(m, c, status.clusterBlocks[c]), InCluster(view, nearest, c))
  }

  ghost predicate FaithfulVectors(status: Status, m: Entries, view: View) {
    && |status.centroids| == |status.clusterBlocks|
    && (forall c: nat, b: nat :: VectorBlock(c, b) in m <==>
          c < |status.clusterBlocks| && b < status.clusterBlocks[c])
    && (forall k :: k in m && k.VectorBlock? ==> m[k].Rows?)
    && exists nearest :: Partitioned(status, m, view, nearest)
  }

  // ---------------------------------------------------------------------------------------------
  // From what is stored to what readers rely on

  lemma {:induction false} ListIdsMember(order: seq<Id>, view: View, l: List, id: Id)
    requires view.Valid() && forall x :: x in order ==> x in view.docs
    ensures id in ListIds(order, view, l) <==> id in order && InList(view.docs[id], l)
  {
    if order != [] {
      ListIdsMember(order[..|order| - 1], view, l, id);
      assert order == order[..|order| - 1] + [order[|order| - 1]];
    }
  }

  lemma {:induction false} ListPostingsMember(order: seq<Id>, texts: Texts, f: string, t: string, p: Posting)
    requires forall x :: x in order ==> x in texts
    ensures p in ListPostings(order, texts, f, t) <==> p.id in order && PostingOf(texts[p.id], p.id, f, t) == [p]
  {
    if order != [] {
      ListPostingsMember(order[..|order| - 1], texts, f, t, p);
      assert order == order[..|order| - 1] + [order[|order| - 1]];
    }
  }

  lemma StoredLists(m: Entries, order: seq<Id>, view: View)
    requires view.Valid() && Enumerates(order, view.docs.Keys) && StoresLists(m, order, view)
    ensures FaithfulLists(m, view)
  {
    forall l: List, id: Id | !l.TermList?
      ensures id in IdsIn(m, l) <==> id in view.docs && InList(view.docs[id], l)
    {
      var ids := ListIds(order, view, l);
      ListIdsMember(order, view, l, id);
      ChunksCover(ids, POSTING_BLOCK, id);
      if id in ids {
        var b: nat :| b < BlockCount(|ids|, POSTING_BLOCK) && id in Chunk(ids, POSTING_BLOCK, b);
        var k := Block(l, b);
        assert k in m.Keys && id in m[k].ids;
      }
      if id in IdsIn(m, l) {
        var k :| k in m.Keys && k.Block? && k.list == l && m[k].Ids? && id in m[k].ids;
        assert Block(l, k.block) == k;
        assert id in Chunk(ids, POSTING_BLOCK, k.block);
      }
    }
    forall k | k in m && k.Block? && k.list.NumList? ensures m[k].Ids? && m[k].ids != [] {
      assert Block(k.list, k.block) == k;
      ChunkBounds(|ListIds(order, view, k.list)|, POSTING_BLOCK, k.block);
    }
  }

  lemma LengthsStep(texts: Texts, id: Id, terms: map<string, Terms>, f: string)
    requires id !in texts
    ensures Lengths(texts[id := terms], f) ==
            if f in terms then Lengths(texts, f)[id := terms[f].length] else Lengths(texts, f)
  {
    var before, after := Lengths(texts, f), Lengths(texts[id := terms], f);
    forall x ensures x in after <==> x in before || (x == id && f in terms) {}
    forall x | x in after ensures after[x] == if x == id then terms[f].length else before[x] {}
  }

  /** Adding an entry to a map adds one to its size and the value to its total. */
  lemma SizeAndTotal(m: map<Id, nat>, id: Id, n: nat)
    requires id !in m
    ensures |m[id := n]| == |m| + 1 && Total(m[id := n]) == Total(m) + n
  {
    TotalUpdate(m, id, n);
    assert m[id := n].Keys == m.Keys + {id};
  }

  lemma WholeCorpusStep(texts: Texts, id: Id, terms: map<string, Terms>, f: string)
    requires id !in texts
    ensures WholeCorpus(texts[id := terms], f) == Grown(WholeCorpus(texts, f), terms, f)
  {
    LengthsStep(texts, id, terms, f);
    if f in terms { SizeAndTotal(Lengths(texts, f), id, terms[f].length); }
  }

  lemma LastApart(order: seq<Id>)
    requires order != [] && Distinct(order)
    ensures var rest, last := order[..|order| - 1], order[|order| - 1];
            Distinct(rest) && last !in rest && forall id :: id in order <==> id in rest || id == last
  {
    assert order == order[..|order| - 1] + [order[|order| - 1]];
  }

  /** Counting documents one after the other gives the corpus of all of them. */
  lemma {:induction false} CorpusIsWhole(order: seq<Id>, texts: Texts, f: string)
    requires Distinct(order)
    requires forall id :: id in order <==> id in texts
    ensures CorpusOf(order, texts, f) == WholeCorpus(texts, f)
  {
    if order == [] {
      assert Lengths(texts, f) == map[];
    } else {
      var rest, last := order[..|order| - 1], order[|order| - 1];
      LastApart(order);
      CorpusIsWhole(rest, texts - {last}, f);
      SameCorpus(rest, texts, texts - {last}, f);
      WholeCorpusLast(texts, last, f);
    }
  }

  lemma WholeCorpusLast(texts: Texts, last: Id, f: string)
    requires last in texts
    ensures WholeCorpus(texts, f) == Grown(WholeCorpus(texts - {last}, f), texts[last], f)
  {
    assert (texts - {last})[last := texts[last]] == texts;
    WholeCorpusStep(texts - {last}, last, texts[last], f);
  }

  lemma {:induction false} SameCorpus(order: seq<Id>, a: Texts, b: Texts, f: string)
    requires forall id :: id in order ==> id in a && id in b && a[id] == b[id]
    ensures CorpusOf(order, a, f) == CorpusOf(order, b, f)
  {
    if order != [] { SameCorpus(order[..|order| - 1], a, b, f); }
  }

  lemma StoredText(status: Status, m: Entries, order: seq<Id>, texts: Texts)
    requires Enumerates(order, texts.Keys)
    requires StoresText(m, order, texts) && StoresTerms(m, order, texts)
    requires CountsCorpora(status.text, order, texts)
    ensures FaithfulText(status, m, texts)
  {
    AscendingDistinct(order);
    forall f: string
      ensures f in status.text <==> Lengths(texts, f) != map[]
      ensures f in status.text ==> status.text[f] == WholeCorpus(texts, f)
    {
      CorpusIsWhole(order, texts, f);
    }
    forall f: string, t: string, p: Posting
      ensures p in PostingsIn(m, f, t) <==> p.id in texts && PostingOf(texts[p.id], p.id, f, t) == [p]
    {
      var rows := ListPostings(order, texts, f, t);
      ListPostingsMember(order, texts, f, t, p);
      ChunksCover(rows, POSTING_BLOCK, p);
      if p in rows {
        var b: nat :| b < BlockCount(|rows|, POSTING_BLOCK) && p in Chunk(rows, POSTING_BLOCK, b);
        var k := Block(TermList(f, t), b);
        assert k in m.Keys && p in m[k].postings;
      }
      if p in PostingsIn(m, f, t) {
        var k :| k in m.Keys && k.Block? && k.list == TermList(f, t) && m[k].Postings? && p in m[k].postings;
        assert Block(TermList(f, t), k.block) == k;
        assert p in Chunk(rows, POSTING_BLOCK, k.block);
      }
    }
  }

  /** Reading the blocks of a cluster in order gives back its rows. */
  lemma {:induction false} BlocksConcatenate(m: Entries, cluster: nat, rows: seq<Row>, size: nat, blocks: nat)
    requires size > 0 && blocks <= BlockCount(|rows|, size)
    requires forall b: nat :: b < BlockCount(|rows|, size) ==>
               var k := VectorBlock(cluster, b); k in m && m[k] == Rows(Chunk(rows, size, b))
    ensures BlockRows(m, cluster, blocks) == rows[..if blocks * size < |rows| then blocks * size else |rows|]
  {
    if blocks > 0 {
      BlocksConcatenate(m, cluster, rows, size, blocks - 1);
      ChunkExtends(rows, size, blocks - 1);
      assert m[VectorBlock(cluster, blocks - 1)].rows == Chunk(rows, size, blocks - 1);
    }
  }

  lemma ChunkExtends<T>(rows: seq<T>, size: nat, block: nat)
    requires size > 0 && block < BlockCount(|rows|, size)
    ensures block * size < |rows|
    ensures rows[..block * size] + Chunk(rows, size, block) ==
            rows[..if (block + 1) * size < |rows| then (block + 1) * size else |rows|]
  {
    ChunkBounds(|rows|, size, block);
    Distribute(block, size);
  }

  lemma {:induction false} ClusterRowsList(order: seq<Id>, view: View, nearest: map<Id, nat>, cluster: nat)
    requires Ascending(order) && forall id :: id in order && id in view.vectors ==> id in nearest
    ensures var rows := ClusterRows(order, view, nearest, cluster);
            && (forall i, j :: 0 <= i < j < |rows| ==> rows[i].0 != rows[j].0)
            && forall r :: r in rows <==>
                 r.0 in order && r.0 in view.vectors && r.1 == view.vectors[r.0] && nearest[r.0] == cluster
  {
    if order != [] {
      var rest, id := order[..|order| - 1], order[|order| - 1];
      assert order == rest + [id];
      AscendingDistinct(order);
      ClusterRowsList(rest, view, nearest, cluster);
      var before := ClusterRows(rest, view, nearest, cluster);
      forall i | 0 <= i < |before| ensures before[i].0 != id { assert before[i] in before; }
    }
  }

  lemma ListsUnion<V>(a: seq<(Id, V)>, m: map<Id, V>, b: seq<(Id, V)>, n: map<Id, V>)
    requires ListsMap(a, m) && ListsMap(b, n) && m.Keys !! n.Keys
    ensures ListsMap(a + b, m + n)
  {
    var ab := a + b;
    forall i | 0 <= i < |ab| ensures ab[i].0 in m + n && (m + n)[ab[i].0] == ab[i].1 {
      if i < |a| { assert ab[i] == a[i]; } else { assert ab[i] == b[i - |a|]; }
    }
    forall i, j | 0 <= i < j < |ab| ensures ab[i].0 != ab[j].0 {
      if j < |a| {
        assert ab[i] == a[i] && ab[j] == a[j];
      } else if i < |a| {
        assert ab[i].0 == a[i].0 && a[i].0 in m.Keys && ab[j].0 == b[j - |a|].0 && b[j - |a|].0 in n.Keys;
      } else {
        assert ab[i] == b[i - |a|] && ab[j] == b[j - |a|];
      }
    }
    forall id | id in m + n ensures (id, (m + n)[id]) in ab {
      if id in n { assert (id, n[id]) in b; } else { assert (id, m[id]) in a; }
    }
  }

  lemma StoredVectors(
    status: Status, m: Entries, order: seq<Id>, view: View, schema: Schema, nearest: map<Id, nat>)
    requires Enumerates(order, view.docs.Keys) && view.Valid() && nearest.Keys == view.vectors.Keys
    requires |status.centroids| == |status.clusterBlocks|
    requires forall id :: id in nearest ==> nearest[id] < |status.clusterBlocks|
    requires StoresVectors(m, order, view, schema, nearest, |status.clusterBlocks|)
    requires forall c :: 0 <= c < |status.clusterBlocks| ==>
               status.clusterBlocks[c] == BlockCount(|ClusterRows(order, view, nearest, c)|, PerBlock(schema))
    ensures FaithfulVectors(status, m, view)
  {
    forall c | 0 <= c < |status.clusterBlocks|
      ensures ListsMap(BlockRows(m, c, status.clusterBlocks[c]), InCluster(view, nearest, c))
    {
      var rows := ClusterRows(order, view, nearest, c);
      BlocksConcatenate(m, c, rows, PerBlock(schema), status.clusterBlocks[c]);
      BlocksReach(|rows|, PerBlock(schema));
      assert BlockRows(m, c, status.clusterBlocks[c]) == rows;
      ClusterRowsList(order, view, nearest, c);
      forall i | 0 <= i < |rows|
        ensures rows[i].0 in InCluster(view, nearest, c) && InCluster(view, nearest, c)[rows[i].0] == rows[i].1
      {
        assert rows[i] in rows;
      }
    }
    assert Partitioned(status, m, view, nearest);
    forall k | k in m && k.VectorBlock? ensures m[k].Rows? { assert VectorBlock(k.cluster, k.block) == k; }
  }
}
