/** Full-text queries: the scan of all documents, and the index with its overlay of pending changes. */
module TextSearch {
  import opened Order
  import opened Wrappers
  import opened Sums
  import opened Model
  import opened Keys
  import opened Index
  import opened Builder
  import opened Ranking
  import opened Store
  import Search

  type TermPostings = map<string, map<Id, Posting>>

  /** The floating-point part of BM25: the contribution of one posting, given the corpus and the
      number of documents with the term, and addition. Nothing is assumed about either. */
  datatype Arithmetic = Arithmetic(
    weight: (Corpus, nat, Posting) -> Score,
    add: (Score, Score) -> Score,
    zero: Score)

  datatype TextQuery = TextQuery(field: string, text: string, topK: nat, filter: Filter)

  /** What is gathered before ranking. */
  datatype Gathered = Gathered(corpus: Corpus, postings: TermPostings, eligible: Option<set<Id>>)

  // ---------------------------------------------------------------------------------------------
  // What should be gathered, as a function of documents

  ghost function PostingsOf(texts: Texts, f: string, t: string): map<Id, Posting> {
    map id | id in texts && PostingOf(texts[id], id, f, t) != [] :: PostingOf(texts[id], id, f, t)[0]
  }

  ghost function EligibleOf(docs: map<Id, Attributes>, filter: Filter): Option<set<Id>>
    requires forall id :: id in docs ==> WellFormedAttributes(docs[id])
  {
    if filter.Unconstrained() then None else Some(set id | id in docs && filter.Matches(docs[id]))
  }

  /** The reference: the corpus, the postings of the query terms and the eligible documents, taken
      from all documents and their tokenized fields. */
  ghost function ScanOf(docs: map<Id, Attributes>, texts: Texts, q: TextQuery, terms: set<string>): Gathered
    requires forall id :: id in docs ==> WellFormedAttributes(docs[id])
  {
    Gathered(
      WholeCorpus(texts, q.field),
      map t | t in terms :: PostingsOf(texts, q.field, t),
      EligibleOf(docs, q.filter))
  }

  // ---------------------------------------------------------------------------------------------
  // Adding and removing documents

  function GrownBy(c: Corpus, attributes: Attributes, u: Unicode, f: string): Corpus {
    if f in attributes && attributes[f].Str?
    then Corpus(c.documents + 1, c.tokens + Tokens(u, attributes[f].s).length) else c
  }

  /** Add one document's field to the corpus, its postings of the query terms, and its eligibility. */
  method AddTextDocument(
    id: Id, attributes: Attributes, q: TextQuery, u: Unicode, g: Gathered) returns (r: Gathered)
    requires WellFormedAttributes(attributes)
    ensures r.corpus == GrownBy(g.corpus, attributes, u, q.field)
    ensures r.postings.Keys == g.postings.Keys
    ensures forall t :: t in g.postings ==>
              r.postings[t] ==
              if q.field in attributes && attributes[q.field].Str? && t in Tokens(u, attributes[q.field].s).frequencies
              then var terms := Tokens(u, attributes[q.field].s);
                   g.postings[t][id := Posting(id, terms.frequencies[t], terms.length)]
              else g.postings[t]
    ensures r.eligible ==
            if g.eligible.Some? && q.filter.Matches(attributes) then Some(g.eligible.value + {id}) else g.eligible
  {
    r := g;
    if q.field in attributes && attributes[q.field].Str? {
      var terms := Tokenize(u, attributes[q.field].s);
      r := r.(corpus := Corpus(g.corpus.documents + 1, g.corpus.tokens + terms.length));
      var todo := g.postings.Keys;
      while todo != {}
        invariant todo <= g.postings.Keys == r.postings.Keys
        invariant r.corpus == GrownBy(g.corpus, attributes, u, q.field) && r.eligible == g.eligible
        invariant forall t :: t in g.postings ==>
                    r.postings[t] ==
                    if t !in todo && t in terms.frequencies
                    then g.postings[t][id := Posting(id, terms.frequencies[t], terms.length)]
                    else g.postings[t]
        decreases |todo|
      {
        var t :| t in todo;
        todo := todo - {t};
        if t in terms.frequencies {
          r := r.(postings := r.postings[t := r.postings[t][id := Posting(id, terms.frequencies[t], terms.length)]]);
        }
      }
    }
    if g.eligible.Some? && q.filter.Matches(attributes) {
      r := r.(eligible := Some(g.eligible.value + {id}));
    }
  }


  lemma TextOfField(u: Unicode, schema: Schema, attributes: Attributes, f: string)
    requires f in schema.textFields
    ensures f in TextOf(u, schema, attributes) <==> f in attributes && attributes[f].Str?
    ensures f in TextOf(u, schema, attributes) ==> TextOf(u, schema, attributes)[f] == Tokens(u, attributes[f].s)
  {}

  // ---------------------------------------------------------------------------------------------
  // Between the indexed documents and the current ones

  /** The field texts that the corpus counts while some changed documents still await the overlay:
      theirs as indexed, those of all others as they are now. */
  ghost function Mixed(now: Texts, indexed: Texts, waiting: set<Id>): Texts {
    map id | id in now.Keys + indexed.Keys && (if id in waiting then id in indexed else id in now)
      :: if id in waiting then indexed[id] else now[id]
  }

  /** The documents whose postings are present meanwhile. */
  ghost function Present<T>(now: map<Id, T>, waiting: set<Id>): map<Id, T> {
    map id | id in now && id !in waiting :: now[id]
  }

  ghost predicate AgreeOutside<T>(now: map<Id, T>, indexed: map<Id, T>, waiting: set<Id>) {
    forall id :: id !in waiting ==> (id in now <==> id in indexed) && (id in now ==> now[id] == indexed[id])
  }

  /** What has been gathered while some changed documents wait. */
  ghost predicate Overlaid(
    g: Gathered, now: Texts, indexed: Texts, docs: map<Id, Attributes>, q: TextQuery, terms: set<string>,
    waiting: set<Id>)
    requires forall id :: id in docs ==> WellFormedAttributes(docs[id])
  {
    && g.corpus == WholeCorpus(Mixed(now, indexed, waiting), q.field)
    && g.postings.Keys == terms
    && (forall t :: t in terms ==> g.postings[t] == PostingsOf(Present(now, waiting), q.field, t))
    && g.eligible == EligibleOf(Present(docs, waiting), q.filter)
  }

  lemma WholeCorpusWithout(texts: Texts, id: Id, f: string)
    requires id in texts
    ensures WholeCorpus(texts, f) == Grown(WholeCorpus(texts - {id}, f), texts[id], f)
  {
    WholeCorpusStep(texts - {id}, id, texts[id], f);
    assert (texts - {id})[id := texts[id]] == texts;
  }

  lemma PostingsStep(texts: Texts, id: Id, terms: map<string, Terms>, f: string, t: string)
    requires id !in texts
    ensures PostingsOf(texts[id := terms], f, t) == WithPosting(PostingsOf(texts, f, t), id, terms, f, t)
  {
    var a, b := PostingsOf(texts[id := terms], f, t), WithPosting(PostingsOf(texts, f, t), id, terms, f, t);
    forall x ensures x in a <==> x in b ensures x in a ==> a[x] == b[x] { PostingsStepAt(texts, id, terms, f, t, x); }
  }

  lemma PostingsStepAt(texts: Texts, id: Id, terms: map<string, Terms>, f: string, t: string, x: Id)
    requires id !in texts
    ensures var a, b := PostingsOf(texts[id := terms], f, t), WithPosting(PostingsOf(texts, f, t), id, terms, f, t);
            (x in a <==> x in b) && (x in a ==> a[x] == b[x])
  {}

  lemma EligibleStep(docs: map<Id, Attributes>, id: Id, attributes: Attributes, filter: Filter)
    requires (forall x :: x in docs ==> WellFormedAttributes(docs[x])) && WellFormedAttributes(attributes)
    ensures EligibleOf(docs[id := attributes], filter).Some? <==> EligibleOf(docs, filter).Some?
    ensures id !in docs && EligibleOf(docs, filter).Some? ==>
              EligibleOf(docs[id := attributes], filter).value ==
              EligibleOf(docs, filter).value + if filter.Matches(attributes) then {id} else {}
  {
    if !filter.Unconstrained() && id !in docs { MatchingStep(docs, id, attributes, filter); }
  }

  lemma MatchingStep(docs: map<Id, Attributes>, id: Id, attributes: Attributes, filter: Filter)
    requires (forall x :: x in docs ==> WellFormedAttributes(docs[x])) && WellFormedAttributes(attributes)
    requires id !in docs
    ensures var more := docs[id := attributes];
            (set x | x in more && filter.Matches(more[x])) ==
            (set x | x in docs && filter.Matches(docs[x])) + if filter.Matches(attributes) then {id} else {}
  {
    var more := docs[id := attributes];
    var before, after := set x | x in docs && filter.Matches(docs[x]), set x | x in more && filter.Matches(more[x]);
    forall x ensures x in after <==> x in before || (x == id && filter.Matches(attributes)) {}
  }

  /** Take the indexed text of a changed document out of the corpus. Nothing underflows. */
  method Subtract(m: Entries, id: Id, f: string, corpus: Corpus, ghost indexed: Texts, ghost mixed: Texts)
    returns (r: Corpus)
    requires corpus == WholeCorpus(mixed, f)
    requires (TermsOf(id) in m <==> id in indexed && indexed[id] != map[])
    requires TermsOf(id) in m ==> m[TermsOf(id)] == FieldTerms(indexed[id])
    requires (id in mixed <==> id in indexed) && (id in indexed ==> mixed[id] == indexed[id])
    ensures r == WholeCorpus(mixed - {id}, f)
  {
    r := corpus;
    if id in mixed { WholeCorpusWithout(mixed, id, f); } else { assert mixed - {id} == mixed; }
    if TermsOf(id) in m && f in m[TermsOf(id)].terms {
      var terms := m[TermsOf(id)].terms[f];
      r := Corpus(corpus.documents - 1, corpus.tokens - terms.length);
    }
  }

  /** Overlay one changed document: its indexed contribution out, its current one in. */
  method OverlayOne(
    m: Entries, id: Id, space: Space, q: TextQuery, u: Unicode, g: Gathered,
    ghost schema: Schema, ghost docs: map<Id, Attributes>, ghost now: Texts, ghost indexed: Texts,
    ghost terms: set<string>, ghost waiting: set<Id>)
    returns (r: Gathered)
    requires space.View().Valid() && q.field in schema.textFields && id in waiting
    requires docs == space.View().docs && now == TextsOf(u, schema, docs)
    requires StoresFields(m, indexed)
    requires Overlaid(g, now, indexed, docs, q, terms, waiting)
    ensures Overlaid(r, now, indexed, docs, q, terms, waiting - {id})
  {
    ghost var before := Mixed(now, indexed, waiting);
    var corpus := Subtract(m, id, q.field, g.corpus, indexed, before);
    r := g.(corpus := corpus);
    if id in space.docs {
      assert docs[id] == space.docs[id].attributes && now[id] == TextOf(u, schema, docs[id]);
      r := AddFields(id, space.docs[id].attributes, q, u, r, schema, now[id]);
      OverlayCorpus(now, indexed, waiting, id, q.field);
      OverlayPostings(now, waiting, id, q.field);
      OverlayEligible(docs, q.filter, waiting, id);
    } else {
      OverlayAbsent(now, indexed, docs, waiting, id);
    }
  }

  /** The stored field lengths are those of the indexed documents. */
  ghost predicate StoresFields(m: Entries, indexed: Texts) {
    forall x: Id ::
      && (TermsOf(x) in m <==> x in indexed && indexed[x] != map[])
      && (TermsOf(x) in m ==> m[TermsOf(x)] == FieldTerms(indexed[x]))
  }

  /** AddTextDocument, seen from the tokenized fields of the document. */
  method AddFields(
    id: Id, attributes: Attributes, q: TextQuery, u: Unicode, g: Gathered, ghost schema: Schema,
    ghost fields: map<string, Terms>)
    returns (r: Gathered)
    requires WellFormedAttributes(attributes) && q.field in schema.textFields
    requires fields == TextOf(u, schema, attributes)
    ensures r.corpus == Grown(g.corpus, fields, q.field)
    ensures r.postings.Keys == g.postings.Keys
    ensures forall t :: t in g.postings ==> r.postings[t] == WithPosting(g.postings[t], id, fields, q.field, t)
    ensures r.eligible ==
            if g.eligible.Some? && q.filter.Matches(attributes) then Some(g.eligible.value + {id}) else g.eligible
  {
    TextOfField(u, schema, attributes, q.field);
    r := AddTextDocument(id, attributes, q, u, g);
  }

  function WithPosting(rows: map<Id, Posting>, id: Id, fields: map<string, Terms>, f: string, t: string)
    : map<Id, Posting>
  {
    if f in fields && t in fields[f].frequencies
    then rows[id := Posting(id, fields[f].frequencies[t], fields[f].length)] else rows
  }

  lemma OverlayAbsent(now: Texts, indexed: Texts, docs: map<Id, Attributes>, waiting: set<Id>, id: Id)
    requires id in waiting && id !in now && id !in docs
    ensures Mixed(now, indexed, waiting - {id}) == Mixed(now, indexed, waiting) - {id}
    ensures Present(now, waiting - {id}) == Present(now, waiting)
    ensures Present(docs, waiting - {id}) == Present(docs, waiting)
  {}

  lemma OverlayCorpus(now: Texts, indexed: Texts, waiting: set<Id>, id: Id, f: string)
    requires id in waiting && id in now
    ensures WholeCorpus(Mixed(now, indexed, waiting - {id}), f) ==
            Grown(WholeCorpus(Mixed(now, indexed, waiting) - {id}, f), now[id], f)
  {
    var mixed := Mixed(now, indexed, waiting) - {id};
    assert Mixed(now, indexed, waiting - {id}) == mixed[id := now[id]];
    WholeCorpusStep(mixed, id, now[id], f);
  }

  lemma OverlayPostings(now: Texts, waiting: set<Id>, id: Id, f: string)
    requires id in waiting && id in now
    ensures forall t :: PostingsOf(Present(now, waiting - {id}), f, t) ==
                        WithPosting(PostingsOf(Present(now, waiting), f, t), id, now[id], f, t)
  {
    var present := Present(now, waiting);
    assert Present(now, waiting - {id}) == present[id := now[id]];
    forall t ensures PostingsOf(Present(now, waiting - {id}), f, t) ==
                     WithPosting(PostingsOf(present, f, t), id, now[id], f, t)
    {
      PostingsStep(present, id, now[id], f, t);
    }
  }

  lemma OverlayEligible(docs: map<Id, Attributes>, filter: Filter, waiting: set<Id>, id: Id)
    requires id in waiting && id in docs
    requires forall x :: x in docs ==> WellFormedAttributes(docs[x])
    ensures var e := EligibleOf(Present(docs, waiting), filter);
            EligibleOf(Present(docs, waiting - {id}), filter) ==
            if e.Some? && filter.Matches(docs[id]) then Some(e.value + {id}) else e
  {
    assert Present(docs, waiting - {id}) == Present(docs, waiting)[id := docs[id]];
    EligibleStep(Present(docs, waiting), id, docs[id], filter);
    var e := EligibleOf(Present(docs, waiting), filter);
    if e.Some? { assert e.value + {} == e.value; }
  }

  // ---------------------------------------------------------------------------------------------
  // The two plans

  /** All postings of one term that are not superseded, by document. */
  method ReadPostings(m: Entries, f: string, t: string, dirty: set<Id>, ghost indexed: Texts)
    returns (rows: map<Id, Posting>)
    requires forall p: Posting ::
               p in PostingsIn(m, f, t) <==> p.id in indexed && PostingOf(indexed[p.id], p.id, f, t) == [p]
    ensures rows == PostingsOf(Present(indexed, dirty), f, t)
  {
    rows := map[];
    var list := TermList(f, t);
    var keys := set k | k in m.Keys && k.Block? && k.list == list && m[k].Postings?;
    var todo := keys;
    while todo != {}
      invariant todo <= keys
      invariant forall id :: id in rows ==> id !in dirty && rows[id].id == id && rows[id] in PostingsIn(m, f, t)
      invariant forall k, p :: k in keys - todo && p in m[k].postings && p.id !in dirty ==>
                  p.id in rows && rows[p.id] == p
      decreases |todo|
    {
      var k :| k in todo;
      todo := todo - {k};
      rows := AddBlock(m, k, f, t, dirty, rows, indexed);
    }
    ReadAll(m, f, t, dirty, rows, indexed, keys);
  }

  method AddBlock(
    m: Entries, k: EntryKey, f: string, t: string, dirty: set<Id>, before: map<Id, Posting>, ghost indexed: Texts)
    returns (rows: map<Id, Posting>)
    requires forall p: Posting ::
               p in PostingsIn(m, f, t) <==> p.id in indexed && PostingOf(indexed[p.id], p.id, f, t) == [p]
    requires k in m && k.Block? && k.list == TermList(f, t) && m[k].Postings?
    requires forall id :: id in before ==> id !in dirty && before[id].id == id && before[id] in PostingsIn(m, f, t)
    ensures forall id :: id in rows ==> id !in dirty && rows[id].id == id && rows[id] in PostingsIn(m, f, t)
    ensures forall id :: id in before ==> id in rows && rows[id] == before[id]
    ensures forall p :: p in m[k].postings && p.id !in dirty ==> p.id in rows && rows[p.id] == p
  {
    rows := before;
    var items := m[k].postings;
    for i := 0 to |items|
      invariant forall id :: id in rows ==> id !in dirty && rows[id].id == id && rows[id] in PostingsIn(m, f, t)
      invariant forall id :: id in before ==> id in rows && rows[id] == before[id]
      invariant forall j :: 0 <= j < i && items[j].id !in dirty ==> items[j].id in rows && rows[items[j].id] == items[j]
    {
      assert items[i] in items && items[i] in PostingsIn(m, f, t);
      if items[i].id !in dirty {
        rows := rows[items[i].id := items[i]];
      }
    }
  }

  lemma ReadAll(
    m: Entries, f: string, t: string, dirty: set<Id>, rows: map<Id, Posting>, indexed: Texts, keys: set<EntryKey>)
    requires forall p: Posting ::
               p in PostingsIn(m, f, t) <==> p.id in indexed && PostingOf(indexed[p.id], p.id, f, t) == [p]
    requires keys == set k | k in m.Keys && k.Block? && k.list == TermList(f, t) && m[k].Postings?
    requires forall id :: id in rows ==> id !in dirty && rows[id].id == id && rows[id] in PostingsIn(m, f, t)
    requires forall k, p :: k in keys && p in m[k].postings && p.id !in dirty ==> p.id in rows && rows[p.id] == p
    ensures rows == PostingsOf(Present(indexed, dirty), f, t)
  {
    var expected := PostingsOf(Present(indexed, dirty), f, t);
    forall id ensures id in rows <==> id in expected {
      if id in expected {
        var p := expected[id];
        assert PostingOf(indexed[id], id, f, t) == [p] && p.id == id;
        assert p in PostingsIn(m, f, t);
        var k :| k in m.Keys && k.Block? && k.list == TermList(f, t) && m[k].Postings? && p in m[k].postings;
        assert k in keys;
      }
    }
    forall id | id in rows ensures rows[id] == expected[id] {
      assert rows[id] in PostingsIn(m, f, t);
    }
  }

  /** Once nothing waits, what has been gathered is what a scan gathers. */
  lemma NothingWaits(
    g: Gathered, now: Texts, indexed: Texts, docs: map<Id, Attributes>, q: TextQuery, terms: set<string>)
    requires forall id :: id in docs ==> WellFormedAttributes(docs[id])
    requires Overlaid(g, now, indexed, docs, q, terms, {})
    ensures g == ScanOf(docs, now, q, terms)
  {
    MixedNone(now, indexed);
    PresentNone(now);
    PresentNone(docs);
    assert g.postings == map t | t in terms :: PostingsOf(now, q.field, t);
  }

  lemma MixedNone(now: Texts, indexed: Texts)
    ensures Mixed(now, indexed, {}) == now
  {}

  lemma PresentNone<T>(now: map<Id, T>)
    ensures Present(now, {}) == now
  {}

  /** Overlay all waiting documents in ID order. */
  method OverlayAll(
    m: Entries, waiting: set<Id>, space: Space, q: TextQuery, u: Unicode, start: Gathered,
    ghost schema: Schema, ghost docs: map<Id, Attributes>, ghost now: Texts, ghost indexed: Texts,
    ghost terms: set<string>)
    returns (g: Gathered)
    requires space.View().Valid() && q.field in schema.textFields
    requires docs == space.View().docs && now == TextsOf(u, schema, docs)
    requires StoresFields(m, indexed)
    requires Overlaid(start, now, indexed, docs, q, terms, waiting)
    ensures g == ScanOf(docs, now, q, terms)
  {
    g := start;
    var ids := Ordered(waiting);
    OrderedEnumerates(waiting);
    AscendingDistinct(ids);
    assert SetOf(ids[0..]) == waiting by { assert ids[0..] == ids; }
    for i := 0 to |ids|
      invariant Overlaid(g, now, indexed, docs, q, terms, SetOf(ids[i..]))
    {
      g := OverlayNext(m, ids, i, space, q, u, g, schema, docs, now, indexed, terms);
    }
    assert SetOf(ids[|ids|..]) == {};
    NothingWaits(g, now, indexed, docs, q, terms);
  }

  method OverlayNext(
    m: Entries, ids: seq<Id>, i: nat, space: Space, q: TextQuery, u: Unicode, g: Gathered,
    ghost schema: Schema, ghost docs: map<Id, Attributes>, ghost now: Texts, ghost indexed: Texts,
    ghost terms: set<string>)
    returns (r: Gathered)
    requires space.View().Valid() && q.field in schema.textFields && i < |ids| && Distinct(ids)
    requires docs == space.View().docs && now == TextsOf(u, schema, docs)
    requires StoresFields(m, indexed)
    requires Overlaid(g, now, indexed, docs, q, terms, SetOf(ids[i..]))
    ensures Overlaid(r, now, indexed, docs, q, terms, SetOf(ids[i + 1..]))
  {
    WaitingStep(ids, i);
    r := OverlayOne(m, ids[i], space, q, u, g, schema, docs, now, indexed, terms, SetOf(ids[i..]));
  }

  lemma WaitingStep(ids: seq<Id>, i: nat)
    requires i < |ids| && Distinct(ids)
    ensures ids[i] in SetOf(ids[i..]) && SetOf(ids[i + 1..]) == SetOf(ids[i..]) - {ids[i]}
  {
    SuffixStep(ids, i);
  }

  /** Before the first index: one pass over the documents in ID order, from nothing. */
  method GatherScan(space: Space, q: TextQuery, terms: set<string>, u: Unicode) returns (g: Gathered)
    requires space.View().Valid() && space.schema.Some? && q.field in space.schema.value.textFields
    ensures g == ScanOf(space.View().docs, TextsOf(u, space.schema.value, space.View().docs), q, terms)
  {
    var start := Gathered(
      Corpus(0, 0), map t | t in terms :: map[], if q.filter.Unconstrained() then None else Some({}));
    ghost var docs := space.View().docs;
    ghost var now := TextsOf(u, space.schema.value, docs);
    EverythingWaits(start, now, docs, q, terms, space.docs.Keys);
    g := OverlayAll(map[], space.docs.Keys, space, q, u, start, space.schema.value, docs, now, map[], terms);
  }

  lemma EverythingWaits(
    g: Gathered, now: Texts, docs: map<Id, Attributes>, q: TextQuery, terms: set<string>, waiting: set<Id>)
    requires now.Keys == docs.Keys == waiting && forall id :: id in docs ==> WellFormedAttributes(docs[id])
    requires g.corpus == Corpus(0, 0) && g.postings == map t | t in terms :: map[]
    requires g.eligible == if q.filter.Unconstrained() then None else Some({})
    ensures Overlaid(g, now, map[], docs, q, terms, waiting)
  {
    assert Mixed(now, map[], waiting) == map[];
    assert Lengths(map[], q.field) == map[];
    assert Present(now, waiting) == map[] && Present(docs, waiting) == map[];
    forall t ensures PostingsOf(map[], q.field, t) == map[] {}
    NothingEligible(q.filter);
  }

  lemma NothingEligible(filter: Filter)
    ensures EligibleOf(map[], filter) == if filter.Unconstrained() then None else Some({})
  {
    var e := EligibleOf(map[], filter);
    if e.Some? { assert e.value == {}; }
  }

  /** From the index: stored corpus and postings without the changed documents, then the overlay. */
  method GatherIndexed(space: Space, q: TextQuery, terms: set<string>, u: Unicode, ghost view: View)
    returns (g: Gathered)
    requires space.View().Valid() && space.schema.Some? && space.index.Some?
    requires Published(space, view, u) && q.field in space.schema.value.textFields && q.filter.Valid()
    ensures g == ScanOf(space.View().docs, TextsOf(u, space.schema.value, space.View().docs), q, terms)
  {
    var status := space.index.value;
    var m := space.EntriesOf(status.generation);
    ghost var indexed := TextsOf(u, space.schema.value, view.docs);
    ghost var docs := space.View().docs;
    ghost var now := TextsOf(u, space.schema.value, docs);
    var dirty := Search.Dirty(space, status.revision);
    var start := StartFromIndex(m, status, q, terms, dirty, view, indexed);
    Outside(space, view, status.revision, u, space.schema.value);
    StartOverlay(start, now, indexed, docs, view, q, terms, dirty, status);
    g := OverlayAll(m, dirty, space, q, u, start, space.schema.value, docs, now, indexed, terms);
  }

  method StartFromIndex(
    m: Entries, status: Status, q: TextQuery, terms: set<string>, dirty: set<Id>, ghost view: View,
    ghost indexed: Texts)
    returns (g: Gathered)
    requires view.Valid() && FaithfulLists(m, view) && FaithfulText(status, m, indexed) && q.filter.Valid()
    ensures g.corpus == if q.field in status.text then status.text[q.field] else Corpus(0, 0)
    ensures g.postings.Keys == terms
    ensures forall t :: t in terms ==> g.postings[t] == PostingsOf(Present(indexed, dirty), q.field, t)
    ensures g.eligible == var s := Selected(view, q.filter); if s.Some? then Some(s.value - dirty) else None
  {
    var corpus := if q.field in status.text then status.text[q.field] else Corpus(0, 0);
    var eligible := CleanEligible(m, q.filter, dirty, view);
    var postings := ReadTerms(m, q.field, terms, dirty, status, indexed);
    g := Gathered(corpus, postings, eligible);
  }

  method CleanEligible(m: Entries, filter: Filter, dirty: set<Id>, ghost view: View)
    returns (eligible: Option<set<Id>>)
    requires view.Valid() && FaithfulLists(m, view) && filter.Valid()
    ensures eligible == var s := Selected(view, filter); if s.Some? then Some(s.value - dirty) else None
  {
    var selected := FilterIds(m, filter, view);
    eligible := if selected.Some? then Some(selected.value - dirty) else None;
  }

  method ReadTerms(
    m: Entries, f: string, terms: set<string>, dirty: set<Id>, ghost status: Status, ghost indexed: Texts)
    returns (postings: TermPostings)
    requires FaithfulText(status, m, indexed)
    ensures postings.Keys == terms
    ensures forall t :: t in terms ==> postings[t] == PostingsOf(Present(indexed, dirty), f, t)
  {
    postings := map[];
    var todo := terms;
    while todo != {}
      invariant todo <= terms && postings.Keys == terms - todo
      invariant forall t :: t in postings ==> postings[t] == PostingsOf(Present(indexed, dirty), f, t)
      decreases |todo|
    {
      var t :| t in todo;
      var rows := ReadPostings(m, f, t, dirty, indexed);
      postings := postings[t := rows];
      todo := todo - {t};
    }
  }

  lemma Outside(space: Space, view: View, revision: nat, u: Unicode, schema: Schema)
    requires Covered(space, view, revision)
    ensures AgreeOutside(space.View().docs, view.docs, Search.Dirty(space, revision))
    ensures AgreeOutside(
              TextsOf(u, schema, space.View().docs), TextsOf(u, schema, view.docs), Search.Dirty(space, revision))
  {
    forall id | id !in Search.Dirty(space, revision) ensures SameAt(space.View(), view, id) {
      assert !ChangedAfter(space, id, revision);
    }
  }

  lemma StartOverlay(
    g: Gathered, now: Texts, indexed: Texts, docs: map<Id, Attributes>, view: View, q: TextQuery,
    terms: set<string>, dirty: set<Id>, status: Status)
    requires (forall id :: id in docs ==> WellFormedAttributes(docs[id])) && view.Valid()
    requires AgreeOutside(now, indexed, dirty) && AgreeOutside(docs, view.docs, dirty)
    requires q.field in status.text <==> Lengths(indexed, q.field) != map[]
    requires q.field in status.text ==> status.text[q.field] == WholeCorpus(indexed, q.field)
    requires g.corpus == if q.field in status.text then status.text[q.field] else Corpus(0, 0)
    requires g.postings.Keys == terms
    requires forall t :: t in terms ==> g.postings[t] == PostingsOf(Present(indexed, dirty), q.field, t)
    requires g.eligible == var s := Selected(view, q.filter); if s.Some? then Some(s.value - dirty) else None
    ensures Overlaid(g, now, indexed, docs, q, terms, dirty)
  {
    StartCorpus(g.corpus, now, indexed, q.field, dirty, status);
    StartPostings(now, indexed, dirty);
    StartEligible(g.eligible, docs, view, q.filter, dirty);
  }

  lemma StartCorpus(corpus: Corpus, now: Texts, indexed: Texts, f: string, dirty: set<Id>, status: Status)
    requires AgreeOutside(now, indexed, dirty)
    requires f in status.text <==> Lengths(indexed, f) != map[]
    requires f in status.text ==> status.text[f] == WholeCorpus(indexed, f)
    requires corpus == if f in status.text then status.text[f] else Corpus(0, 0)
    ensures corpus == WholeCorpus(Mixed(now, indexed, dirty), f)
  {
    assert Mixed(now, indexed, dirty) == indexed;
  }

  lemma StartPostings(now: Texts, indexed: Texts, dirty: set<Id>)
    requires AgreeOutside(now, indexed, dirty)
    ensures Present(now, dirty) == Present(indexed, dirty)
  {}

  lemma StartEligible(
    eligible: Option<set<Id>>, docs: map<Id, Attributes>, view: View, filter: Filter, dirty: set<Id>)
    requires (forall id :: id in docs ==> WellFormedAttributes(docs[id])) && view.Valid()
    requires AgreeOutside(docs, view.docs, dirty)
    requires eligible == var s := Selected(view, filter); if s.Some? then Some(s.value - dirty) else None
    ensures eligible == EligibleOf(Present(docs, dirty), filter)
  {
    if eligible.Some? {
      var present := Present(docs, dirty);
      forall id ensures id in eligible.value <==> id in present && filter.Matches(present[id]) {}
      assert eligible.value == set id | id in present && filter.Matches(present[id]);
    }
  }

  // ---------------------------------------------------------------------------------------------
  // Ranking

  predicate Counted(g: Gathered, id: Id) {
    (g.eligible.Some? ==> id in g.eligible.value) && g.corpus.tokens > 0
  }

  /** The scores after adding the contributions of some postings of a term, in ID order. */
  function WithRows(
    a: Arithmetic, g: Gathered, rows: map<Id, Posting>, ids: seq<Id>, scores: map<Id, Score>): map<Id, Score>
    requires forall id :: id in ids ==> id in rows
  {
    if ids == [] then scores else
      var id := ids[|ids| - 1];
      assert id in ids;
      var before := WithRows(a, g, rows, ids[..|ids| - 1], scores);
      if Counted(g, id)
      then before[id := a.add(if id in before then before[id] else a.zero, a.weight(g.corpus, |rows|, rows[id]))]
      else before
  }

  function WithTerm(a: Arithmetic, g: Gathered, t: string, scores: map<Id, Score>): map<Id, Score>
    requires t in g.postings
  {
    WithRows(a, g, g.postings[t], Ordered(g.postings[t].Keys), scores)
  }

  function ScoresOf(a: Arithmetic, g: Gathered, terms: seq<string>): map<Id, Score>
    requires forall t :: t in terms ==> t in g.postings
  {
    if terms == [] then map[] else
      assert terms[|terms| - 1] in terms;
      WithTerm(a, g, terms[|terms| - 1], ScoresOf(a, g, terms[..|terms| - 1]))
  }

  function ScoredHits(scores: map<Id, Score>): seq<Hit> {
    var ids := Ordered(scores.Keys);
    seq(|ids|, i requires 0 <= i < |ids| => assert ids[i] in ids; Hit(ids[i], scores[ids[i]]))
  }

  method AddTerm(a: Arithmetic, g: Gathered, t: string, before: map<Id, Score>) returns (scores: map<Id, Score>)
    requires t in g.postings
    ensures scores == WithTerm(a, g, t, before)
  {
    scores := before;
    var rows := g.postings[t];
    var ids := Ordered(rows.Keys);
    for i := 0 to |ids|
      invariant scores == WithRows(a, g, rows, ids[..i], before)
    {
      var id := ids[i];
      assert id in ids && ids[..i + 1][..i] == ids[..i];
      if Counted(g, id) {
        scores := scores[id :=
          a.add(if id in scores then scores[id] else a.zero, a.weight(g.corpus, |rows|, rows[id]))];
      }
    }
    assert ids[..|ids|] == ids;
  }

  method KeepBest(hits: seq<Hit>, k: nat) returns (best: seq<Hit>)
    ensures best == Top(hits, k)
  {
    var heap := new BestHits(k);
    for i := 0 to |hits|
      invariant heap.Valid() && heap.k == k && heap.offered == hits[..i]
    {
      heap.Retain(hits[i].id, hits[i].score);
    }
    assert hits[..|hits|] == hits;
    best := heap.best;
  }

  method Rank(a: Arithmetic, g: Gathered, terms: seq<string>, k: nat) returns (best: seq<Hit>)
    requires forall t :: t in terms ==> t in g.postings
    ensures best == Top(ScoredHits(ScoresOf(a, g, terms)), k)
  {
    var scores: map<Id, Score> := map[];
    for i := 0 to |terms|
      invariant scores == ScoresOf(a, g, terms[..i])
    {
      assert terms[..i + 1][..i] == terms[..i];
      scores := AddTerm(a, g, terms[i], scores);
    }
    assert terms[..|terms|] == terms;
    best := KeepBest(ScoredHits(scores), k);
  }

  /** The answer to a text query: a function of the current documents and their tokenized fields. */
  ghost function TextAnswer(
    a: Arithmetic, docs: map<Id, Attributes>, texts: Texts, q: TextQuery, terms: seq<string>): seq<Hit>
    requires forall id :: id in docs ==> WellFormedAttributes(docs[id])
  {
    Top(ScoredHits(ScoresOf(a, ScanOf(docs, texts, q, (set t | t in terms)), terms)), q.topK)
  }

  lemma {:induction false} RowsAreDocuments(
    a: Arithmetic, docs: map<Id, Attributes>, g: Gathered, rows: map<Id, Posting>, ids: seq<Id>, scores: map<Id, Score>)
    requires (forall id :: id in ids ==> id in rows) && rows.Keys <= docs.Keys && scores.Keys <= docs.Keys
    ensures WithRows(a, g, rows, ids, scores).Keys <= docs.Keys
  {
    if ids != [] {
      assert ids[|ids| - 1] in ids;
      RowsAreDocuments(a, docs, g, rows, ids[..|ids| - 1], scores);
    }
  }

  lemma {:induction false} ScoredAreDocuments(
    a: Arithmetic, docs: map<Id, Attributes>, g: Gathered, terms: seq<string>)
    requires forall t :: t in terms ==> t in g.postings && g.postings[t].Keys <= docs.Keys
    ensures ScoresOf(a, g, terms).Keys <= docs.Keys
  {
    if terms != [] {
      var t, rest := terms[|terms| - 1], terms[..|terms| - 1];
      assert t in terms;
      ScoredAreDocuments(a, docs, g, rest);
      RowsAreDocuments(a, docs, g, g.postings[t], Ordered(g.postings[t].Keys), ScoresOf(a, g, rest));
    }
  }

  lemma AnswerNamesDocuments(
    a: Arithmetic, docs: map<Id, Attributes>, texts: Texts, q: TextQuery, terms: seq<string>)
    requires (forall id :: id in docs ==> WellFormedAttributes(docs[id])) && texts.Keys <= docs.Keys
    ensures forall i :: 0 <= i < |TextAnswer(a, docs, texts, q, terms)| ==>
              TextAnswer(a, docs, texts, q, terms)[i].id in docs
  {
    var g := ScanOf(docs, texts, q, (set t | t in terms));
    ScoredAreDocuments(a, docs, g, terms);
    var scores := ScoresOf(a, g, terms);
    var hits := ScoredHits(scores);
    TopIsBest(hits, q.topK);
    var top := Top(hits, q.topK);
    forall i | 0 <= i < |top| ensures top[i].id in docs {
      assert top[i] in multiset(top);
      assert top[i] in multiset(hits);
      var j :| 0 <= j < |hits| && hits[j] == top[i];
      assert hits[j].id in Ordered(scores.Keys);
    }
  }

  /** The whole query. With or without an index, however far behind, the answer is the one that the
      current documents determine. The order of the query's distinct terms is given. */
  method SearchText(space: Space, q: TextQuery, terms: seq<string>, u: Unicode, a: Arithmetic)
    returns (r: Result<seq<Search.SearchHit>, Search.Error>)
    requires Queryable(space, u) && q.filter.Valid() && q.field in space.schema.value.textFields
    requires (set t | t in terms) == Tokens(u, q.text).frequencies.Keys
    requires forall i, j :: 0 <= i < j < |terms| ==> terms[i] != terms[j]
    ensures r == Err(Search.Invalid) <==> |terms| == 0 || |terms| > 32
    ensures r != Err(Search.Corrupt)
    ensures r.Ok? ==>
              Search.Hydrated(
                space,
                TextAnswer(
                  a, space.View().docs, TextsOf(u, space.schema.value, space.View().docs), q, terms),
                r)
  {
    if |terms| == 0 || |terms| > 32 {
      return Err(Search.Invalid);
    }
    r := Answered(space, q, terms, u, a, space.View().docs, TextsOf(u, space.schema.value, space.View().docs));
  }

  method Answered(
    space: Space, q: TextQuery, terms: seq<string>, u: Unicode, a: Arithmetic,
    ghost docs: map<Id, Attributes>, ghost texts: Texts)
    returns (r: Result<seq<Search.SearchHit>, Search.Error>)
    requires Queryable(space, u) && q.filter.Valid() && q.field in space.schema.value.textFields
    requires docs == space.View().docs && texts == TextsOf(u, space.schema.value, docs)
    ensures Search.Hydrated(space, TextAnswer(a, docs, texts, q, terms), r)
  {
    var wanted := set t | t in terms;
    var g := Gather(space, q, wanted, u);
    var best := Rank(a, g, terms, q.topK);
    AnswerNamesDocuments(a, docs, texts, q, terms);
    r := Search.Hydrate(space, best);
  }

  method Gather(space: Space, q: TextQuery, terms: set<string>, u: Unicode) returns (g: Gathered)
    requires Queryable(space, u) && q.filter.Valid() && q.field in space.schema.value.textFields
    ensures g == ScanOf(space.View().docs, TextsOf(u, space.schema.value, space.View().docs), q, terms)
  {
    if space.index.Some? {
      ghost var view :| Published(space, view, u);
      g := GatherIndexed(space, q, terms, u, view);
    } else {
      g := GatherScan(space, q, terms, u);
    }
  }

  /** Every document with a term counts towards the corpus, so the argument of the logarithm in the
      inverse document frequency exceeds 1. */
  lemma FrequencyBelowCorpus(texts: Texts, f: string, t: string)
    ensures var df, n := |PostingsOf(texts, f, t)|, WholeCorpus(texts, f).documents;
            && df <= n
            && 1.0 + (n as real - df as real + 0.5) / (df as real + 0.5) > 1.0
  {
    var rows, lengths := PostingsOf(texts, f, t), Lengths(texts, f);
    assert rows.Keys <= lengths.Keys;
    SubsetSize(rows.Keys, lengths.Keys);
    var df, n := |rows| as real, |lengths| as real;
    assert n - df + 0.5 > 0.0 && df + 0.5 > 0.0;
    Quotient(n - df + 0.5, df + 0.5);
  }

  lemma Quotient(x: real, y: real)
    requires x > 0.0 && y > 0.0
    ensures x / y > 0.0
  {}

  /** Every posting that a query sees has a frequency between one and the length of its field, and
      lengths count towards the corpus. */
  lemma PostingsAreSound(
    docs: map<Id, Attributes>, u: Unicode, schema: Schema, f: string, t: string, id: Id)
    requires f in schema.textFields && id in PostingsOf(TextsOf(u, schema, docs), f, t)
    ensures var p := PostingsOf(TextsOf(u, schema, docs), f, t)[id];
            p.id == id && 1 <= p.frequency <= p.length <= WholeCorpus(TextsOf(u, schema, docs), f).tokens
  {
    var texts := TextsOf(u, schema, docs);
    TallyAddsUp(u, Words(u, [], docs[id][f].s));
    TotalAtLeast(Lengths(texts, f), id);
  }
}
