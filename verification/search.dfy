/** Vector queries: the exact scan, and the indexed plans that must agree with it. */
module Search {
  import opened Order
  import opened Wrappers
  import opened Model
  import opened Keys
  import opened Index
  import opened Builder
  import opened Ranking
  import opened Store

  const BATCH: nat := 128

  datatype Error = Corrupt | Invalid

  datatype SearchHit = SearchHit(id: Id, score: Score, attributes: Attributes)

  /** distance_score for the namespace's metric: a function of the two vectors, nothing else. */
  type Scoring = (Vector, Vector) -> Score

  datatype Query = Query(vector: Vector, topK: nat, filter: Filter, exact: bool, probes: nat)

  function HitOf(q: Query, score: Scoring, row: Row): Hit {
    Hit(row.0, score(q.vector, row.1))
  }

  function HitsOf(q: Query, score: Scoring, rows: seq<Row>): (r: seq<Hit>)
    ensures |r| == |rows|
  {
    seq(|rows|, i requires 0 <= i < |rows| => HitOf(q, score, rows[i]))
  }

  /** What a query is about: the vectors of the current documents that match its filter. */
  ghost function Candidates(space: Space, filter: Filter): map<Id, Vector>
    requires space.View().Valid()
  {
    map id | id in space.vectors && filter.Matches(space.docs[id].attributes) :: space.vectors[id]
  }

  ghost function RowsOf(m: map<Id, Vector>): seq<Row> {
    var ids := Ordered(m.Keys);
    seq(|ids|, i requires 0 <= i < |ids| => assert ids[i] in ids; (ids[i], m[ids[i]]))
  }

  /** The answer to a query over a set of candidates: the best k, ties broken by ID. */
  ghost function Answer(q: Query, score: Scoring, m: map<Id, Vector>): seq<Hit> {
    Top(HitsOf(q, score, RowsOf(m)), q.topK)
  }

  lemma RowsOfLists(m: map<Id, Vector>)
    ensures ListsMap(RowsOf(m), m)
  {
    var ids := Ordered(m.Keys);
    OrderedEnumerates(m.Keys);
    AscendingDistinct(ids);
    forall i | 0 <= i < |ids| ensures ids[i] in m { assert ids[i] in ids; }
    forall id | id in m ensures (id, m[id]) in RowsOf(m) {
      assert id in ids;
      var i :| 0 <= i < |ids| && ids[i] == id;
      assert RowsOf(m)[i] == (id, m[id]);
    }
  }

  lemma {:induction false} DistinctCount(hits: seq<Hit>, h: Hit)
    requires forall i, j :: 0 <= i < j < |hits| ==> hits[i] != hits[j]
    ensures multiset(hits)[h] == if h in hits then 1 else 0
  {
    if hits != [] {
      var rest, last := hits[..|hits| - 1], hits[|hits| - 1];
      assert hits == rest + [last];
      DistinctCount(rest, h);
      assert last !in rest;
    }
  }

  lemma HitOfListedRow(q: Query, score: Scoring, rows: seq<Row>, m: map<Id, Vector>, h: Hit)
    requires ListsMap(rows, m)
    ensures h in HitsOf(q, score, rows) <==> h.id in m && h.score == score(q.vector, m[h.id])
  {
    var hits := HitsOf(q, score, rows);
    if h in hits {
      var i :| 0 <= i < |hits| && hits[i] == h;
      assert h == HitOf(q, score, rows[i]);
    }
    if h.id in m && h.score == score(q.vector, m[h.id]) {
      var i :| 0 <= i < |rows| && rows[i] == (h.id, m[h.id]);
      assert hits[i] == h;
    }
  }

  /** However the candidates are listed, the answer is the same. */
  lemma AnswerOfListing(q: Query, score: Scoring, rows: seq<Row>, m: map<Id, Vector>)
    requires ListsMap(rows, m)
    ensures Top(HitsOf(q, score, rows), q.topK) == Answer(q, score, m)
  {
    RowsOfLists(m);
    var a, b := HitsOf(q, score, rows), HitsOf(q, score, RowsOf(m));
    forall h: Hit ensures multiset(a)[h] == multiset(b)[h] {
      HitOfListedRow(q, score, rows, m, h);
      HitOfListedRow(q, score, RowsOf(m), m, h);
      DistinctCount(a, h);
      DistinctCount(b, h);
    }
    assert multiset(a) == multiset(b);
    TopOfSameBag(a, b, q.topK);
  }

  // ---------------------------------------------------------------------------------------------
  // Running a query

  method ScoreRows(heap: BestHits, rows: seq<Row>, q: Query, score: Scoring)
    requires heap.Valid()
    modifies heap
    ensures heap.Valid() && heap.offered == old(heap.offered) + HitsOf(q, score, rows)
  {
    for i := 0 to |rows|
      invariant heap.Valid() && heap.offered == old(heap.offered) + HitsOf(q, score, rows[..i])
    {
      heap.Retain(rows[i].0, score(q.vector, rows[i].1));
      assert HitsOf(q, score, rows[..i + 1]) == HitsOf(q, score, rows[..i]) + [HitOf(q, score, rows[i])];
    }
    assert rows[..|rows|] == rows;
  }

  /** The rows given to the heap so far, and those still waiting in the buffer. */
  ghost predicate Pending(heap: BestHits, rows: seq<Row>, seen: seq<Row>, q: Query, score: Scoring)
    reads heap
  {
    heap.Valid() && heap.k == q.topK && heap.offered + HitsOf(q, score, rows) == HitsOf(q, score, seen)
  }

  lemma OneMore(q: Query, score: Scoring, offered: seq<Hit>, rows: seq<Row>, seen: seq<Row>, row: Row)
    requires offered + HitsOf(q, score, rows) == HitsOf(q, score, seen)
    ensures offered + HitsOf(q, score, rows + [row]) == HitsOf(q, score, seen + [row])
  {
    assert HitsOf(q, score, rows + [row]) == HitsOf(q, score, rows) + [HitOf(q, score, row)];
    assert HitsOf(q, score, seen + [row]) == HitsOf(q, score, seen) + [HitOf(q, score, row)];
  }

  method FlushFull(heap: BestHits, rows: seq<Row>, ghost seen: seq<Row>, q: Query, score: Scoring)
    returns (rest: seq<Row>)
    requires Pending(heap, rows, seen, q, score)
    modifies heap
    ensures Pending(heap, rest, seen, q, score)
  {
    rest := rows;
    if |rows| == BATCH {
      ScoreRows(heap, rows, q, score);
      rest := [];
    }
  }

  /** The part of the candidates among the given IDs. */
  ghost function Among(m: map<Id, Vector>, ids: seq<Id>): map<Id, Vector> {
    map id | id in m && id in ids :: m[id]
  }

  lemma ListsOneMore(rows: seq<Row>, m: map<Id, Vector>, ids: seq<Id>, id: Id)
    requires ListsMap(rows, Among(m, ids)) && id !in ids
    ensures id in m ==> ListsMap(rows + [(id, m[id])], Among(m, ids + [id]))
    ensures id !in m ==> Among(m, ids + [id]) == Among(m, ids)
  {
    if id in m {
      ListsUnion(rows, Among(m, ids), [(id, m[id])], map[id := m[id]]);
      assert Among(m, ids) + map[id := m[id]] == Among(m, ids + [id]);
    }
  }

  lemma NextListed(rows: seq<Row>, m: map<Id, Vector>, ids: seq<Id>, i: nat)
    requires i < |ids| && Distinct(ids) && ListsMap(rows, Among(m, ids[..i]))
    ensures ids[i] in m ==> ListsMap(rows + [(ids[i], m[ids[i]])], Among(m, ids[..i + 1]))
    ensures ids[i] !in m ==> ListsMap(rows, Among(m, ids[..i + 1]))
  {
    PrefixStep(ids, i);
    assert ids[i] !in ids[..i];
    ListsOneMore(rows, m, ids[..i], ids[i]);
  }

  /** Score the current documents with the given IDs that match the filter, in ID order. */
  method ScoreCurrent(
    heap: BestHits, rows: seq<Row>, ghost seen: seq<Row>, ids: seq<Id>, space: Space, q: Query, score: Scoring)
    returns (rest: seq<Row>, ghost all: seq<Row>)
    requires space.View().Valid() && Ascending(ids)
    requires Pending(heap, rows, seen, q, score)
    modifies heap
    ensures Pending(heap, rest, all, q, score)
    ensures exists more :: all == seen + more && ListsMap(more, Among(Candidates(space, q.filter), ids))
  {
    rest := rows;
    ghost var more: seq<Row> := [];
    ghost var m := Candidates(space, q.filter);
    AscendingDistinct(ids);
    for i := 0 to |ids|
      invariant Pending(heap, rest, seen + more, q, score)
      invariant ListsMap(more, Among(m, ids[..i]))
    {
      var id := ids[i];
      NextListed(more, m, ids, i);
      assert id in space.docs ==> space.View().docs[id] == space.docs[id].attributes;
      if id in space.docs && q.filter.Matches(space.docs[id].attributes) && id in space.vectors {
        var row := (id, space.vectors[id]);
        OneMore(q, score, heap.offered, rest, seen + more, row);
        assert seen + (more + [row]) == seen + more + [row];
        rest, more := rest + [row], more + [row];
      }
      rest := FlushFull(heap, rest, seen + more, q, score);
    }
    assert ids[..|ids|] == ids;
    all := seen + more;
  }

  /** Look up every hit's document; an index that names a missing document is corrupt. */
  method Hydrate(space: Space, hits: seq<Hit>) returns (r: Result<seq<SearchHit>, Error>)
    ensures r.Ok? <==> forall i :: 0 <= i < |hits| ==> hits[i].id in space.docs
    ensures r.Ok? ==> |r.value| == |hits| && forall i :: 0 <= i < |hits| ==>
              r.value[i] == SearchHit(hits[i].id, hits[i].score, space.docs[hits[i].id].attributes)
  {
    var result: seq<SearchHit> := [];
    for i := 0 to |hits|
      invariant |result| == i
      invariant forall j :: 0 <= j < i ==> hits[j].id in space.docs
      invariant forall j :: 0 <= j < i ==>
                  result[j] == SearchHit(hits[j].id, hits[j].score, space.docs[hits[j].id].attributes)
    {
      if hits[i].id !in space.docs {
        return Err(Corrupt);
      }
      result := result + [SearchHit(hits[i].id, hits[i].score, space.docs[hits[i].id].attributes)];
    }
    return Ok(result);
  }

  /** IDs with a change record newer than the watermark. */
  function Dirty(space: Space, watermark: nat): set<Id> {
    set id | id in space.changes && space.changes[id] > watermark
  }

  /** Hits with the attributes of the current documents. */
  ghost predicate Hydrated(space: Space, hits: seq<Hit>, r: Result<seq<SearchHit>, Error>) {
    && r.Ok?
    && |r.value| == |hits|
    && forall i :: 0 <= i < |hits| ==>
         && hits[i].id in space.docs
         && r.value[i] == SearchHit(hits[i].id, hits[i].score, space.docs[hits[i].id].attributes)
  }

  /** Drain the buffer and the heap, and look the hits up. */
  method Finish(
    heap: BestHits, rows: seq<Row>, ghost seen: seq<Row>, ghost m: map<Id, Vector>, space: Space,
    q: Query, score: Scoring)
    returns (r: Result<seq<SearchHit>, Error>)
    requires Pending(heap, rows, seen, q, score)
    requires ListsMap(seen, m) && m.Keys <= space.docs.Keys
    modifies heap
    ensures Hydrated(space, Answer(q, score, m), r)
  {
    ScoreRows(heap, rows, q, score);
    AnswerOfListing(q, score, seen, m);
    assert heap.best == Answer(q, score, m);
    AnswerMembers(q, score, m);
    r := Hydrate(space, heap.best);
  }

  lemma AnswerMembers(q: Query, score: Scoring, m: map<Id, Vector>)
    ensures forall i :: 0 <= i < |Answer(q, score, m)| ==>
              && Answer(q, score, m)[i].id in m
              && Answer(q, score, m)[i].score == score(q.vector, m[Answer(q, score, m)[i].id])
  {
    var hits := HitsOf(q, score, RowsOf(m));
    RowsOfLists(m);
    TopIsBest(hits, q.topK);
    forall i | 0 <= i < |Answer(q, score, m)|
      ensures Answer(q, score, m)[i].id in m
      ensures Answer(q, score, m)[i].score == score(q.vector, m[Answer(q, score, m)[i].id])
    {
      var h := Answer(q, score, m)[i];
      assert h in multiset(Answer(q, score, m));
      assert h in multiset(hits);
      HitOfListedRow(q, score, RowsOf(m), m, h);
    }
  }

  lemma AmongAll(space: Space, filter: Filter, ids: seq<Id>)
    requires space.View().Valid() && forall id :: id in space.docs ==> id in ids
    ensures Among(Candidates(space, filter), ids) == Candidates(space, filter)
  {
    assert space.vectors.Keys <= space.View().docs.Keys;
  }

  method ExactScan(space: Space, q: Query, score: Scoring) returns (r: Result<seq<SearchHit>, Error>)
    requires space.View().Valid()
    ensures Hydrated(space, Answer(q, score, Candidates(space, q.filter)), r)
  {
    var heap := new BestHits(q.topK);
    var ids := Ordered(space.docs.Keys);
    OrderedEnumerates(space.docs.Keys);
    var rows, seen := ScoreCurrent(heap, [], [], ids, space, q, score);
    ghost var more :| seen == [] + more && ListsMap(more, Among(Candidates(space, q.filter), ids));
    assert seen == more;
    AmongAll(space, q.filter, ids);
    r := Finish(heap, rows, seen, Candidates(space, q.filter), space, q, score);
  }

  // ---------------------------------------------------------------------------------------------
  // Indexed plans

  function InsertCluster(order: seq<nat>, c: nat, scores: seq<Score>): (r: seq<nat>)
    requires c < |scores| && forall i :: 0 <= i < |order| ==> order[i] < |scores|
    ensures |r| == |order| + 1 && forall i :: 0 <= i < |r| ==> r[i] < |scores|
  {
    if order == [] || scores[order[0]] < scores[c] then [c] + order
    else [order[0]] + InsertCluster(order[1..], c, scores)
  }

  lemma {:induction false} InsertClusterMembers(order: seq<nat>, c: nat, scores: seq<Score>)
    requires c < |scores| && forall i :: 0 <= i < |order| ==> order[i] < |scores|
    ensures forall x: nat :: x in InsertCluster(order, c, scores) <==> x in order || x == c
    ensures Distinct(order) && c !in order ==> Distinct(InsertCluster(order, c, scores))
  {
    if order != [] && scores[order[0]] >= scores[c] {
      InsertClusterMembers(order[1..], c, scores);
      var rest := InsertCluster(order[1..], c, scores);
      assert order == [order[0]] + order[1..];
      if Distinct(order) && c !in order {
        assert forall j :: 0 <= j < |rest| ==> rest[j] in rest;
        assert order[0] !in order[1..];
      }
    }
  }

  /** Clusters by score descending, then by number. */
  function RankClusters(scores: seq<Score>, n: nat): (r: seq<nat>)
    requires n <= |scores|
    ensures |r| == n && forall i :: 0 <= i < |r| ==> r[i] < |scores|
  {
    if n == 0 then [] else InsertCluster(RankClusters(scores, n - 1), n - 1, scores)
  }

  /** Every cluster is ranked, and none twice. */
  lemma {:induction false} RankClustersPermutes(scores: seq<Score>, n: nat)
    requires n <= |scores|
    ensures Distinct(RankClusters(scores, n))
    ensures forall c: nat :: c in RankClusters(scores, n) <==> c < n
  {
    if n > 0 {
      RankClustersPermutes(scores, n - 1);
      InsertClusterMembers(RankClusters(scores, n - 1), n - 1, scores);
      assert RankClusters(scores, n) == InsertCluster(RankClusters(scores, n - 1), n - 1, scores);
    }
  }

  /** Cluster a is probed before cluster b. */
  ghost predicate ProbedFirst(scores: seq<Score>, a: nat, b: nat)
    requires a < |scores| && b < |scores|
  {
    scores[a] > scores[b] || (scores[a] == scores[b] && a < b)
  }

  ghost predicate ProbeOrder(scores: seq<Score>, order: seq<nat>)
    requires forall i :: 0 <= i < |order| ==> order[i] < |scores|
  {
    forall i, j :: 0 <= i < j < |order| ==> ProbedFirst(scores, order[i], order[j])
  }

  lemma {:induction false} InsertClusterOrders(order: seq<nat>, c: nat, scores: seq<Score>)
    requires c < |scores| && forall i :: 0 <= i < |order| ==> order[i] < c
    requires ProbeOrder(scores, order)
    ensures ProbeOrder(scores, InsertCluster(order, c, scores))
  {
    if order != [] && scores[order[0]] >= scores[c] {
      InsertClusterOrders(order[1..], c, scores);
      InsertClusterMembers(order[1..], c, scores);
      var rest := InsertCluster(order[1..], c, scores);
      forall j | 0 <= j < |rest| ensures ProbedFirst(scores, order[0], rest[j]) {
        assert rest[j] in rest;
        if rest[j] != c { var i :| 0 <= i < |order[1..]| && order[1..][i] == rest[j]; assert order[i + 1] == rest[j]; }
      }
    }
  }

  /** The clusters that a query probes are the best ones: by score, and by number among equals. */
  lemma {:induction false} RankClustersOrdered(scores: seq<Score>, n: nat)
    requires n <= |scores|
    ensures ProbeOrder(scores, RankClusters(scores, n))
  {
    if n > 0 {
      RankClustersOrdered(scores, n - 1);
      RankClustersPermutes(scores, n - 1);
      var before := RankClusters(scores, n - 1);
      assert forall i :: 0 <= i < |before| ==> before[i] in before;
      InsertClusterOrders(before, n - 1, scores);
    }
  }

  predicate Kept(id: Id, dirty: set<Id>, selected: Option<set<Id>>) {
    id !in dirty && (selected.Some? ==> id in selected.value)
  }

  function Keep(rows: seq<Row>, dirty: set<Id>, selected: Option<set<Id>>): seq<Row> {
    if rows == [] then [] else
      var last := rows[|rows| - 1];
      Keep(rows[..|rows| - 1], dirty, selected) + if Kept(last.0, dirty, selected) then [last] else []
  }

  ghost function KeptOf(m: map<Id, Vector>, dirty: set<Id>, selected: Option<set<Id>>): map<Id, Vector> {
    map id | id in m && Kept(id, dirty, selected) :: m[id]
  }

  lemma {:induction false} KeepMembers(rows: seq<Row>, dirty: set<Id>, selected: Option<set<Id>>)
    requires forall i, j :: 0 <= i < j < |rows| ==> rows[i].0 != rows[j].0
    ensures var k := Keep(rows, dirty, selected);
            && (forall r :: r in k <==> r in rows && Kept(r.0, dirty, selected))
            && forall i, j :: 0 <= i < j < |k| ==> k[i].0 != k[j].0
  {
    if rows != [] {
      var rest, last := rows[..|rows| - 1], rows[|rows| - 1];
      assert rows == rest + [last];
      KeepMembers(rest, dirty, selected);
      var k := Keep(rest, dirty, selected);
      forall i | 0 <= i < |k| ensures k[i].0 != last.0 {
        assert k[i] in rest;
        var j :| 0 <= j < |rest| && rest[j] == k[i];
        assert rows[j] == k[i];
      }
    }
  }

  lemma KeepLists(rows: seq<Row>, m: map<Id, Vector>, dirty: set<Id>, selected: Option<set<Id>>)
    requires ListsMap(rows, m)
    ensures ListsMap(Keep(rows, dirty, selected), KeptOf(m, dirty, selected))
  {
    KeepMembers(rows, dirty, selected);
    var k, n := Keep(rows, dirty, selected), KeptOf(m, dirty, selected);
    forall i | 0 <= i < |k| ensures k[i].0 in n && n[k[i].0] == k[i].1 {
      assert k[i] in rows;
      var j :| 0 <= j < |rows| && rows[j] == k[i];
    }
    forall id | id in n ensures (id, n[id]) in k { assert (id, m[id]) in rows; }
  }

  lemma {:induction false} KeepAppend(a: seq<Row>, b: seq<Row>, dirty: set<Id>, selected: Option<set<Id>>)
    ensures Keep(a + b, dirty, selected) == Keep(a, dirty, selected) + Keep(b, dirty, selected)
  {
    if b == [] {
      assert a + b == a;
    } else {
      assert (a + b)[..|a + b| - 1] == a + b[..|b| - 1];
      KeepAppend(a, b[..|b| - 1], dirty, selected);
    }
  }

  /** Score the rows of one block that are neither superseded nor filtered out. */
  method ScoreBlock(
    heap: BestHits, block: seq<Row>, dirty: set<Id>, selected: Option<set<Id>>, ghost seen: seq<Row>,
    q: Query, score: Scoring)
    requires Pending(heap, [], seen, q, score)
    modifies heap
    ensures Pending(heap, [], seen + Keep(block, dirty, selected), q, score)
  {
    var rows: seq<Row> := [];
    for i := 0 to |block|
      invariant rows == Keep(block[..i], dirty, selected)
    {
      assert block[..i + 1][..i] == block[..i];
      if Kept(block[i].0, dirty, selected) {
        rows := rows + [block[i]];
      }
    }
    assert block[..|block|] == block;
    ScoreRows(heap, rows, q, score);
    assert HitsOf(q, score, seen + rows) == HitsOf(q, score, seen) + HitsOf(q, score, rows);
  }

  /** The indexed vectors of the given clusters that are neither superseded nor filtered out. */
  ghost function Probed(
    view: View, nearest: map<Id, nat>, clusters: seq<nat>, dirty: set<Id>, selected: Option<set<Id>>)
    : map<Id, Vector>
  {
    map id | id in view.vectors && id in nearest && nearest[id] in clusters && Kept(id, dirty, selected)
      :: view.vectors[id]
  }

  /** Read the blocks of one cluster. None of them is missing. */
  method ScoreCluster(
    heap: BestHits, m: Entries, status: Status, cluster: nat, dirty: set<Id>, selected: Option<set<Id>>,
    ghost seen: seq<Row>, q: Query, score: Scoring, ghost view: View)
    returns (ok: bool)
    requires FaithfulVectors(status, m, view) && cluster < |status.clusterBlocks|
    requires Pending(heap, [], seen, q, score)
    modifies heap
    ensures ok
    ensures Pending(
              heap, [], seen + Keep(BlockRows(m, cluster, status.clusterBlocks[cluster]), dirty, selected), q, score)
  {
    assert seen + Keep(BlockRows(m, cluster, 0), dirty, selected) == seen;
    for block := 0 to status.clusterBlocks[cluster]
      invariant Pending(heap, [], seen + Keep(BlockRows(m, cluster, block), dirty, selected), q, score)
    {
      var key := VectorBlock(cluster, block);
      if key !in m || !m[key].Rows? {
        return false;
      }
      KeepNextBlock(m, cluster, block, seen, dirty, selected);
      ScoreBlock(
        heap, m[key].rows, dirty, selected, seen + Keep(BlockRows(m, cluster, block), dirty, selected), q, score);
    }
    return true;
  }

  lemma KeepNextBlock(
    m: Entries, cluster: nat, block: nat, seen: seq<Row>, dirty: set<Id>, selected: Option<set<Id>>)
    requires VectorBlock(cluster, block) in m && m[VectorBlock(cluster, block)].Rows?
    ensures seen + Keep(BlockRows(m, cluster, block), dirty, selected)
            + Keep(m[VectorBlock(cluster, block)].rows, dirty, selected) ==
            seen + Keep(BlockRows(m, cluster, block + 1), dirty, selected)
  {
    KeepAppend(BlockRows(m, cluster, block), m[VectorBlock(cluster, block)].rows, dirty, selected);
  }

  lemma ProbeOneMore(
    status: Status, m: Entries, view: View, nearest: map<Id, nat>, before: seq<nat>, c: nat,
    dirty: set<Id>, selected: Option<set<Id>>, seen: seq<Row>)
    requires Partitioned(status, m, view, nearest) && c < |status.clusterBlocks| && c !in before
    requires ListsMap(seen, Probed(view, nearest, before, dirty, selected))
    ensures ListsMap(
              seen + Keep(BlockRows(m, c, status.clusterBlocks[c]), dirty, selected),
              Probed(view, nearest, before + [c], dirty, selected))
  {
    var rows := BlockRows(m, c, status.clusterBlocks[c]);
    KeepLists(rows, InCluster(view, nearest, c), dirty, selected);
    var was := Probed(view, nearest, before, dirty, selected);
    var more := KeptOf(InCluster(view, nearest, c), dirty, selected);
    ListsUnion(seen, was, Keep(rows, dirty, selected), more);
    assert was + more == Probed(view, nearest, before + [c], dirty, selected);
  }

  method ScoreClusters(
    heap: BestHits, m: Entries, status: Status, clusters: seq<nat>, dirty: set<Id>, selected: Option<set<Id>>,
    q: Query, score: Scoring, ghost view: View, ghost nearest: map<Id, nat>)
    returns (ok: bool, ghost seen: seq<Row>)
    requires FaithfulVectors(status, m, view) && Partitioned(status, m, view, nearest)
    requires forall i :: 0 <= i < |clusters| ==> clusters[i] < |status.clusterBlocks|
    requires Distinct(clusters)
    requires Pending(heap, [], [], q, score)
    modifies heap
    ensures ok
    ensures Pending(heap, [], seen, q, score)
    ensures ListsMap(seen, Probed(view, nearest, clusters, dirty, selected))
  {
    seen := [];
    for i := 0 to |clusters|
      invariant Pending(heap, [], seen, q, score)
      invariant ListsMap(seen, Probed(view, nearest, clusters[..i], dirty, selected))
    {
      var c := clusters[i];
      ok := ScoreCluster(heap, m, status, c, dirty, selected, seen, q, score, view);
      if !ok {
        return;
      }
      assert clusters[..i + 1] == clusters[..i] + [c] && c !in clusters[..i];
      ProbeOneMore(status, m, view, nearest, clusters[..i], c, dirty, selected, seen);
      seen := seen + Keep(BlockRows(m, c, status.clusterBlocks[c]), dirty, selected);
    }
    assert clusters[..|clusters|] == clusters;
    ok := true;
  }

  /** Score selected IDs by their current vectors, without looking at their documents. */
  method ScoreSelected(heap: BestHits, ids: seq<Id>, space: Space, q: Query, score: Scoring)
    returns (rest: seq<Row>, ghost seen: seq<Row>)
    requires space.View().Valid() && Ascending(ids) && Pending(heap, [], [], q, score)
    requires forall id :: id in ids && id in space.vectors ==> id in Candidates(space, q.filter)
    modifies heap
    ensures Pending(heap, rest, seen, q, score)
    ensures ListsMap(seen, Among(Candidates(space, q.filter), ids))
  {
    rest, seen := [], [];
    ghost var m := Candidates(space, q.filter);
    AscendingDistinct(ids);
    for i := 0 to |ids|
      invariant Pending(heap, rest, seen, q, score)
      invariant ListsMap(seen, Among(m, ids[..i]))
    {
      var id := ids[i];
      assert ids[..i + 1] == ids[..i] + [id] && id !in ids[..i] && id in ids;
      ListsOneMore(seen, m, ids[..i], id);
      if id in space.vectors {
        var row := (id, space.vectors[id]);
        OneMore(q, score, heap.offered, rest, seen, row);
        rest, seen := rest + [row], seen + [row];
      }
      rest := FlushFull(heap, rest, seen, q, score);
    }
    assert ids[..|ids|] == ids;
  }

  datatype Plan = ExactPlan | FilteredExactPlan | CentroidAnnPlan

  /** Where a document is not superseded, the indexed view is the current one. */
  lemma CleanIsCurrent(space: Space, view: View, revision: nat, filter: Filter, id: Id)
    requires space.View().Valid() && view.Valid() && Covered(space, view, revision)
    requires id !in Dirty(space, revision)
    ensures id in Candidates(space, filter) <==> id in view.vectors && filter.Matches(view.docs[id])
    ensures id in view.vectors ==> id in space.vectors && view.vectors[id] == space.vectors[id]
    ensures id in view.docs <==> id in space.docs
    ensures id in view.docs ==> view.docs[id] == space.docs[id].attributes
  {
    assert !ChangedAfter(space, id, revision);
    assert SameAt(space.View(), view, id);
    assert id in space.docs ==> space.View().docs[id] == space.docs[id].attributes;
  }

  lemma SelectedAreCandidates(space: Space, view: View, revision: nat, filter: Filter, selected: set<Id>, id: Id)
    requires space.View().Valid() && view.Valid() && Covered(space, view, revision)
    requires Some(selected) == Selected(view, filter) && id !in Dirty(space, revision)
    ensures id in Candidates(space, filter) <==> id in selected && id in space.vectors
  {
    CleanIsCurrent(space, view, revision, filter, id);
    assert SameAt(space.View(), view, id);
  }

  lemma CleanCandidates(space: Space, view: View, filter: Filter, selected: set<Id>)
    requires space.View().Valid() && space.index.Some? && view.Valid()
    requires Covered(space, view, space.index.value.revision) && Some(selected) == Selected(view, filter)
    ensures forall id :: id !in Dirty(space, space.index.value.revision) ==>
              (id in Candidates(space, filter) <==> id in selected && id in space.vectors)
  {
    forall id | id !in Dirty(space, space.index.value.revision)
      ensures id in Candidates(space, filter) <==> id in selected && id in space.vectors
    {
      SelectedAreCandidates(space, view, space.index.value.revision, filter, selected, id);
    }
  }

  /** The candidates among two groups of IDs that together hold all of them. */
  lemma AmongBoth(m: map<Id, Vector>, a: seq<Id>, b: seq<Id>, r: seq<Row>, s: seq<Row>)
    requires ListsMap(r, Among(m, a)) && ListsMap(s, Among(m, b))
    requires (forall id :: id in m ==> id in a || id in b) && forall id :: id in a ==> id !in b
    ensures ListsMap(r + s, m)
  {
    ListsUnion(r, Among(m, a), s, Among(m, b));
    assert Among(m, a) + Among(m, b) == m;
  }

  method FilteredExact(
    space: Space, q: Query, score: Scoring, selected: set<Id>, ghost view: View)
    returns (r: Result<seq<SearchHit>, Error>)
    requires space.View().Valid() && space.index.Some? && view.Valid()
    requires Covered(space, view, space.index.value.revision)
    requires Some(selected) == Selected(view, q.filter)
    ensures Hydrated(space, Answer(q, score, Candidates(space, q.filter)), r)
  {
    var dirty := Dirty(space, space.index.value.revision);
    ghost var m := Candidates(space, q.filter);
    var heap := new BestHits(q.topK);
    var ids, changed := Ordered(selected - dirty), Ordered(dirty);
    OrderedEnumerates(selected - dirty);
    OrderedEnumerates(dirty);
    CleanCandidates(space, view, q.filter, selected);
    var rows, seen := ScoreSelected(heap, ids, space, q, score);
    var rest, all := ScoreCurrent(heap, rows, seen, changed, space, q, score);
    ghost var more :| all == seen + more && ListsMap(more, Among(m, changed));
    AmongBoth(m, ids, changed, seen, more);
    r := Finish(heap, rest, all, m, space, q, score);
  }

  function CentroidScores(q: Query, score: Scoring, centroids: seq<Vector>): (r: seq<Score>)
    ensures |r| == |centroids|
  {
    seq(|centroids|, i requires 0 <= i < |centroids| => score(q.vector, centroids[i]))
  }

  ghost predicate Submap<V(!new)>(m: map<Id, V>, n: map<Id, V>) {
    m.Keys <= n.Keys && forall id :: id in m ==> m[id] == n[id]
  }

  /** The clusters to probe: the best ones by centroid score. */
  method ChooseClusters(q: Query, score: Scoring, centroids: seq<Vector>) returns (clusters: seq<nat>)
    ensures forall i :: 0 <= i < |clusters| ==> clusters[i] < |centroids|
    ensures Distinct(clusters)
    ensures q.probes >= |centroids| ==> forall c: nat :: c < |centroids| ==> c in clusters
  {
    var scores := CentroidScores(q, score, centroids);
    var ranked := RankClusters(scores, |scores|);
    RankClustersPermutes(scores, |scores|);
    clusters := if q.probes < |ranked| then ranked[..q.probes] else ranked;
  }

  /** Probe the best clusters. What is found is always current and matching, and probing every
      cluster finds everything. */
  method CentroidAnn(
    space: Space, q: Query, score: Scoring, selected: Option<set<Id>>, ghost view: View)
    returns (r: Result<seq<SearchHit>, Error>, ghost found: map<Id, Vector>)
    requires space.View().Valid() && space.index.Some? && view.Valid()
    requires FaithfulVectors(space.index.value, space.EntriesOf(space.index.value.generation), view)
    requires Covered(space, view, space.index.value.revision)
    requires selected == Selected(view, q.filter)
    ensures Hydrated(space, Answer(q, score, found), r)
    ensures Submap(found, Candidates(space, q.filter))
    ensures q.probes >= |space.index.value.centroids| ==> found == Candidates(space, q.filter)
  {
    var status := space.index.value;
    ghost var nearest :| Partitioned(status, space.EntriesOf(status.generation), view, nearest);
    var clusters := ChooseClusters(q, score, status.centroids);
    r, found := ProbeClusters(space, q, score, selected, clusters, view, nearest);
  }

  method ProbeClusters(
    space: Space, q: Query, score: Scoring, selected: Option<set<Id>>, clusters: seq<nat>, ghost view: View,
    ghost nearest: map<Id, nat>)
    returns (r: Result<seq<SearchHit>, Error>, ghost found: map<Id, Vector>)
    requires space.View().Valid() && space.index.Some? && view.Valid()
    requires FaithfulVectors(space.index.value, space.EntriesOf(space.index.value.generation), view)
    requires Partitioned(space.index.value, space.EntriesOf(space.index.value.generation), view, nearest)
    requires Covered(space, view, space.index.value.revision)
    requires selected == Selected(view, q.filter)
    requires Distinct(clusters) && forall i :: 0 <= i < |clusters| ==> clusters[i] < |space.index.value.clusterBlocks|
    ensures Hydrated(space, Answer(q, score, found), r)
    ensures Submap(found, Candidates(space, q.filter))
    ensures (forall c: nat :: c < |space.index.value.clusterBlocks| ==> c in clusters) ==>
              found == Candidates(space, q.filter)
  {
    var status := space.index.value;
    var m := space.EntriesOf(status.generation);
    var dirty := Dirty(space, status.revision);
    var heap := new BestHits(q.topK);
    var ok, seen := ScoreClusters(heap, m, status, clusters, dirty, selected, q, score, view, nearest);
    if !ok {
      r := Err(Corrupt);
      return;
    }
    ProbedFacts(space, view, nearest, clusters, selected, q, |status.clusterBlocks|);
    ghost var clean := Probed(view, nearest, clusters, dirty, selected);
    r, found := AddChanged(heap, dirty, seen, clean, space, q, score);
  }

  /** Score the changed documents after the clean ones, and finish. */
  method AddChanged(
    heap: BestHits, dirty: set<Id>, ghost seen: seq<Row>, ghost clean: map<Id, Vector>, space: Space,
    q: Query, score: Scoring)
    returns (r: Result<seq<SearchHit>, Error>, ghost found: map<Id, Vector>)
    requires space.View().Valid() && Pending(heap, [], seen, q, score) && ListsMap(seen, clean)
    requires Submap(clean, Candidates(space, q.filter)) && forall id :: id in clean ==> id !in dirty
    modifies heap
    ensures Hydrated(space, Answer(q, score, found), r)
    ensures Submap(found, Candidates(space, q.filter))
    ensures (forall id :: id in Candidates(space, q.filter) && id !in dirty ==> id in clean) ==>
              found == Candidates(space, q.filter)
  {
    var changed := Ordered(dirty);
    OrderedEnumerates(dirty);
    var rest, all := ScoreCurrent(heap, [], seen, changed, space, q, score);
    ghost var more :| all == seen + more && ListsMap(more, Among(Candidates(space, q.filter), changed));
    found := CleanAndChanged(clean, Candidates(space, q.filter), changed, dirty, seen, more);
    r := Finish(heap, rest, all, found, space, q, score);
  }

  lemma CleanAndChanged(
    clean: map<Id, Vector>, c: map<Id, Vector>, changed: seq<Id>, dirty: set<Id>, seen: seq<Row>, more: seq<Row>)
    returns (found: map<Id, Vector>)
    requires ListsMap(seen, clean) && ListsMap(more, Among(c, changed)) && Submap(clean, c)
    requires (forall id :: id in clean ==> id !in dirty) && forall id :: id in changed <==> id in dirty
    ensures ListsMap(seen + more, found) && Submap(found, c)
    ensures (forall id :: id in c && id !in dirty ==> id in clean) ==> found == c
  {
    found := clean + Among(c, changed);
    ListsUnion(seen, clean, more, Among(c, changed));
  }

  lemma ProbedAt(
    space: Space, view: View, nearest: map<Id, nat>, clusters: seq<nat>, selected: Option<set<Id>>, q: Query, id: Id)
    requires space.View().Valid() && space.index.Some? && view.Valid()
    requires Covered(space, view, space.index.value.revision)
    requires selected == Selected(view, q.filter) && nearest.Keys == view.vectors.Keys
    requires id !in Dirty(space, space.index.value.revision)
    ensures var p := Probed(view, nearest, clusters, Dirty(space, space.index.value.revision), selected);
            var c := Candidates(space, q.filter);
            && (id in p ==> id in c && p[id] == c[id])
            && (id in c ==> id in nearest)
            && (id in c && nearest[id] in clusters ==> id in p)
  {
    CleanIsCurrent(space, view, space.index.value.revision, q.filter, id);
    if selected.None? { UnconstrainedMatches(q.filter, view, id); }
  }

  lemma UnconstrainedMatches(filter: Filter, view: View, id: Id)
    requires view.Valid() && filter.Unconstrained()
    ensures id in view.docs ==> filter.Matches(view.docs[id])
  {}

  lemma ProbedAreCandidates(
    space: Space, view: View, nearest: map<Id, nat>, clusters: seq<nat>, selected: Option<set<Id>>, q: Query)
    requires space.View().Valid() && space.index.Some? && view.Valid()
    requires Covered(space, view, space.index.value.revision)
    requires selected == Selected(view, q.filter) && nearest.Keys == view.vectors.Keys
    ensures Submap(
              Probed(view, nearest, clusters, Dirty(space, space.index.value.revision), selected),
              Candidates(space, q.filter))
    ensures forall id ::
              id in Candidates(space, q.filter) && id !in Dirty(space, space.index.value.revision) ==>
                && id in nearest
                && (nearest[id] in clusters ==>
                      id in Probed(view, nearest, clusters, Dirty(space, space.index.value.revision), selected))
  {
    var dirty := Dirty(space, space.index.value.revision);
    var p, c := Probed(view, nearest, clusters, dirty, selected), Candidates(space, q.filter);
    forall id | id !in dirty
      ensures id in p ==> id in c && p[id] == c[id]
      ensures id in c ==> id in nearest && (nearest[id] in clusters ==> id in p)
    {
      ProbedAt(space, view, nearest, clusters, selected, q, id);
    }
  }

  /** What the probed clusters give is current and matching, and all of it when every cluster is probed. */
  lemma ProbedFacts(
    space: Space, view: View, nearest: map<Id, nat>, clusters: seq<nat>, selected: Option<set<Id>>, q: Query,
    count: nat)
    requires space.View().Valid() && space.index.Some? && view.Valid()
    requires Covered(space, view, space.index.value.revision)
    requires selected == Selected(view, q.filter) && nearest.Keys == view.vectors.Keys
    requires forall id :: id in nearest ==> nearest[id] < count
    ensures var dirty, c := Dirty(space, space.index.value.revision), Candidates(space, q.filter);
            var clean := Probed(view, nearest, clusters, dirty, selected);
            && Submap(clean, c) && (forall id :: id in clean ==> id !in dirty)
            && ((forall k: nat :: k < count ==> k in clusters) ==>
                  forall id :: id in c && id !in dirty ==> id in clean)
  {
    ProbedAreCandidates(space, view, nearest, clusters, selected, q);
  }

  /** The planner. */
  method VectorQuery(space: Space, q: Query, threshold: nat, score: Scoring, ghost u: Unicode)
    returns (r: Result<seq<SearchHit>, Error>, plan: Plan, ghost found: map<Id, Vector>)
    requires Queryable(space, u) && q.filter.Valid()
    ensures Hydrated(space, Answer(q, score, found), r)
    ensures Submap(found, Candidates(space, q.filter))
    ensures plan.CentroidAnnPlan? ==> space.index.Some? && !q.exact
    ensures !plan.CentroidAnnPlan? || q.probes >= |space.index.value.centroids| ==>
              found == Candidates(space, q.filter)
  {
    if q.exact || space.index.None? {
      plan, found := ExactPlan, Candidates(space, q.filter);
      r := ExactScan(space, q, score);
    } else {
      var status := space.index.value;
      ghost var view :| Published(space, view, u);
      var selected := FilterIds(space.EntriesOf(status.generation), q.filter, view);
      if selected.Some? && |selected.value| <= threshold {
        plan, found := FilteredExactPlan, Candidates(space, q.filter);
        r := FilteredExact(space, q, score, selected.value, view);
      } else {
        plan := CentroidAnnPlan;
        r, found := CentroidAnn(space, q, score, selected, view);
      }
    }
  }
}
