/** The bounded heap of best hits, and the declarative meaning of "the best k". */
module Ranking {
  import opened Order
  import opened Model

  /** A score by its rank in the total order of doubles; larger is better. */
  type Score = int

  datatype Hit = Hit(id: Id, score: Score)

  /** Score descending, then ID ascending. */
  predicate Better(a: Hit, b: Hit) {
    a.score > b.score || (a.score == b.score && Below(a.id, b.id))
  }

  lemma BetterTotal(a: Hit, b: Hit)
    ensures a == b || Better(a, b) || Better(b, a)
    ensures !(Better(a, b) && Better(b, a))
    ensures !Better(a, a)
  {
    BelowTotal(a.id, b.id);
    BelowIrreflexive(a.id);
    if Below(a.id, b.id) { BelowAsymmetric(a.id, b.id); }
  }

  lemma BetterTransitive(a: Hit, b: Hit, c: Hit)
    requires !Better(b, a) && !Better(c, b)
    ensures !Better(c, a)
  {
    BelowTotal(a.id, b.id);
    BelowTotal(b.id, c.id);
    if Below(a.id, b.id) && Below(b.id, c.id) { BelowTransitive(a.id, b.id, c.id); }
    if Better(c, a) && a.score == b.score == c.score { BelowAsymmetric(c.id, a.id); }
  }

  ghost predicate Ranked(hits: seq<Hit>) {
    forall i, j :: 0 <= i < j < |hits| ==> !Better(hits[j], hits[i])
  }

  /** The hit put in its place in a ranked sequence. */
  function Insert(hits: seq<Hit>, h: Hit): (r: seq<Hit>)
    ensures |r| == |hits| + 1
  {
    if hits == [] || Better(h, hits[0]) then [h] + hits else [hits[0]] + Insert(hits[1..], h)
  }

  lemma {:induction false} InsertBag(hits: seq<Hit>, h: Hit)
    ensures multiset(Insert(hits, h)) == multiset(hits) + multiset{h}
  {
    if hits != [] && !Better(h, hits[0]) {
      InsertBag(hits[1..], h);
      assert hits == [hits[0]] + hits[1..];
    }
  }

  lemma {:induction false} InsertRanked(hits: seq<Hit>, h: Hit)
    requires Ranked(hits)
    ensures Ranked(Insert(hits, h))
  {
    var r := Insert(hits, h);
    if hits != [] {
      BetterTotal(h, hits[0]);
      if Better(h, hits[0]) {
        forall j | 0 < j < |r| ensures !Better(r[j], h) {
          if j > 1 { BetterTransitive(h, hits[0], hits[j - 1]); }
        }
      } else {
        InsertRanked(hits[1..], h);
        forall j | 0 < j < |r| ensures !Better(r[j], hits[0]) {
          InsertBag(hits[1..], h);
          assert r[j] in multiset(Insert(hits[1..], h));
          assert r[j] in multiset(hits[1..]) || r[j] == h;
          if r[j] in multiset(hits[1..]) { var i :| 0 <= i < |hits[1..]| && hits[1..][i] == r[j]; }
        }
      }
    }
  }

  /** All hits, best first. */
  function SortHits(hits: seq<Hit>): (r: seq<Hit>)
    ensures |r| == |hits|
  {
    if hits == [] then [] else Insert(SortHits(hits[..|hits| - 1]), hits[|hits| - 1])
  }

  lemma {:induction false} SortHitsBag(hits: seq<Hit>)
    ensures multiset(SortHits(hits)) == multiset(hits)
  {
    if hits != [] {
      SortHitsBag(hits[..|hits| - 1]);
      InsertBag(SortHits(hits[..|hits| - 1]), hits[|hits| - 1]);
      assert hits == hits[..|hits| - 1] + [hits[|hits| - 1]];
    }
  }

  lemma {:induction false} SortHitsRanked(hits: seq<Hit>)
    ensures Ranked(SortHits(hits))
  {
    if hits != [] {
      SortHitsRanked(hits[..|hits| - 1]);
      InsertRanked(SortHits(hits[..|hits| - 1]), hits[|hits| - 1]);
    }
  }

  lemma HeadOfRanking(a: seq<Hit>, h: Hit)
    requires Ranked(a) && h in multiset(a)
    ensures h == a[0] || Better(a[0], h)
  {
    var j :| 0 <= j < |a| && a[j] == h;
    BetterTotal(a[0], h);
  }

  lemma TailBag(a: seq<Hit>)
    requires a != []
    ensures a == [a[0]] + a[1..] && multiset(a[1..]) == multiset(a) - multiset{a[0]} && a[0] in multiset(a)
  {
    assert a == [a[0]] + a[1..];
  }

  /** A bag of hits has only one ranking. */
  lemma {:induction false} RankingUnique(a: seq<Hit>, b: seq<Hit>)
    requires Ranked(a) && Ranked(b) && multiset(a) == multiset(b)
    ensures a == b
  {
    assert |a| == |multiset(a)| == |multiset(b)| == |b|;
    if a != [] {
      TailBag(a);
      TailBag(b);
      assert a[0] == b[0] by {
        HeadOfRanking(a, b[0]);
        HeadOfRanking(b, a[0]);
        BetterTotal(a[0], b[0]);
      }
      RankingUnique(a[1..], b[1..]);
    }
  }

  function First(hits: seq<Hit>, k: nat): seq<Hit> {
    if |hits| <= k then hits else hits[..k]
  }

  /** The best k of a sequence of hits, best first. */
  function Top(hits: seq<Hit>, k: nat): seq<Hit> {
    First(SortHits(hits), k)
  }

  /** The order in which hits arrive does not matter. */
  lemma TopOfSameBag(a: seq<Hit>, b: seq<Hit>, k: nat)
    requires multiset(a) == multiset(b)
    ensures Top(a, k) == Top(b, k)
  {
    SortHitsRanked(a);
    SortHitsRanked(b);
    SortHitsBag(a);
    SortHitsBag(b);
    RankingUnique(SortHits(a), SortHits(b));
  }

  lemma RankedSplit(t: seq<Hit>, rest: seq<Hit>, kept: Hit, other: Hit)
    requires Ranked(t + rest) && kept in multiset(t) && other in multiset(rest)
    ensures !Better(other, kept)
  {
    var i :| 0 <= i < |t| && t[i] == kept;
    var j :| 0 <= j < |rest| && rest[j] == other;
    assert (t + rest)[i] == kept && (t + rest)[|t| + j] == other;
  }

  /** What "best" means: nothing left out is better than anything kept, in rank order. */
  lemma TopIsBest(hits: seq<Hit>, k: nat)
    ensures |Top(hits, k)| == (if |hits| <= k then |hits| else k)
    ensures Ranked(Top(hits, k))
    ensures multiset(Top(hits, k)) <= multiset(hits)
    ensures forall kept, other ::
              kept in multiset(Top(hits, k)) && other in multiset(hits) - multiset(Top(hits, k)) ==>
                !Better(other, kept)
  {
    var sorted, t := SortHits(hits), Top(hits, k);
    SortHitsRanked(hits);
    SortHitsBag(hits);
    var rest := sorted[|t|..];
    assert sorted == t + rest;
    assert multiset(hits) == multiset(t) + multiset(rest);
    forall kept, other | kept in multiset(t) && other in multiset(hits) - multiset(t)
      ensures !Better(other, kept)
    {
      RankedSplit(t, rest, kept, other);
    }
  }

  /** One step of the heap: keep at most k, dropping the worst for a better one. */
  function Retained(best: seq<Hit>, h: Hit, k: nat): seq<Hit> {
    if |best| < k then Insert(best, h)
    else if best != [] && Better(h, best[|best| - 1]) then Insert(best[..|best| - 1], h)
    else best
  }

  /** A hit better than the element at j lands among the first j + 1. */
  lemma {:induction false} InsertBefore(sorted: seq<Hit>, h: Hit, j: nat)
    requires Ranked(sorted) && j < |sorted| && Better(h, sorted[j])
    ensures Insert(sorted, h)[..j + 1] == Insert(sorted[..j], h)
  {
    if Better(h, sorted[0]) {
      assert ([h] + sorted)[..j + 1] == [h] + sorted[..j];
    } else {
      assert j > 0;
      InsertBefore(sorted[1..], h, j - 1);
      assert sorted[..j][1..] == sorted[1..][..j - 1];
      assert Insert(sorted, h)[..j + 1] == [sorted[0]] + Insert(sorted[1..], h)[..j];
    }
  }

  /** A hit not better than the element at j leaves the first j + 1 alone. */
  lemma {:induction false} InsertAfter(sorted: seq<Hit>, h: Hit, j: nat)
    requires Ranked(sorted) && j < |sorted| && !Better(h, sorted[j])
    ensures Insert(sorted, h)[..j + 1] == sorted[..j + 1]
  {
    if j > 0 {
      assert !Better(sorted[j], sorted[0]);
      BetterTransitive(sorted[0], sorted[j], h);
      InsertAfter(sorted[1..], h, j - 1);
      assert Insert(sorted, h)[..j + 1] == [sorted[0]] + Insert(sorted[1..], h)[..j];
      assert sorted[..j + 1] == [sorted[0]] + sorted[1..][..j];
    } else {
      assert Insert(sorted, h) == [sorted[0]] + Insert(sorted[1..], h);
    }
  }

  lemma InsertThenTrim(sorted: seq<Hit>, h: Hit, k: nat)
    requires Ranked(sorted)
    ensures First(Insert(sorted, h), k) == Retained(First(sorted, k), h, k)
  {
    InsertLength(sorted, h);
    if k == 0 {
      assert First(Insert(sorted, h), 0) == [] && First(sorted, 0) == [];
    } else if k <= |sorted| {
      InsertThenTrimFull(sorted, h, k);
      assert First(sorted, k) == sorted[..k];
    }
  }

  lemma {:induction false} InsertLength(sorted: seq<Hit>, h: Hit)
    ensures |Insert(sorted, h)| == |sorted| + 1
  {
    if sorted != [] { InsertLength(sorted[1..], h); }
  }

  lemma InsertThenTrimFull(sorted: seq<Hit>, h: Hit, k: nat)
    requires Ranked(sorted) && 0 < k <= |sorted|
    ensures First(Insert(sorted, h), k) == Retained(sorted[..k], h, k)
  {
    if Better(h, sorted[k - 1]) {
      InsertBefore(sorted, h, k - 1);
      assert sorted[..k][..k - 1] == sorted[..k - 1];
    } else {
      InsertAfter(sorted, h, k - 1);
    }
  }

  /** The heap after one more row is the best k of one more row. */
  lemma RetainedIsTop(hits: seq<Hit>, h: Hit, k: nat)
    ensures Retained(Top(hits, k), h, k) == Top(hits + [h], k)
  {
    assert (hits + [h])[..|hits|] == hits;
    SortHitsRanked(hits);
    InsertThenTrim(SortHits(hits), h, k);
  }

  /** The bounded heap. Its contents are kept in the order that draining and sorting it gives, so
      the worst element, the one a max-heap shows first, is the last. */
  class BestHits {
    var best: seq<Hit>
    const k: nat
    ghost var offered: seq<Hit>

    ghost predicate Valid()
      reads this
    {
      best == Top(offered, k)
    }

    constructor (k: nat)
      ensures Valid() && offered == [] && this.k == k
    {
      best := [];
      this.k := k;
      offered := [];
    }

    method Retain(id: Id, score: Score)
      requires Valid()
      modifies this
      ensures Valid() && offered == old(offered) + [Hit(id, score)]
    {
      var hit := Hit(id, score);
      RetainedIsTop(offered, hit, k);
      if |best| < k {
        best := Insert(best, hit);
      } else if best != [] && Better(hit, best[|best| - 1]) {
        best := Insert(best[..|best| - 1], hit);
      }
      offered := offered + [hit];
    }
  }
}
