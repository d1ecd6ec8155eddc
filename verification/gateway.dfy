/** A gateway over shards: one merged page of namespaces, and the placement of a namespace. */
module Gateway {
  import opened Order
  import opened Wrappers
  import opened Model
  import opened Listing

  // ---------------------------------------------------------------------------------------------
  // Sorting names

  function Inserted(x: Id, s: seq<Id>): seq<Id> {
    if s == [] || Below(x, s[0]) then [x] + s else [s[0]] + Inserted(x, s[1..])
  }

  function Sorted(s: seq<Id>): seq<Id> {
    if s == [] then [] else Inserted(s[|s| - 1], Sorted(s[..|s| - 1]))
  }

  lemma {:induction false} InsertedAscends(x: Id, s: seq<Id>)
    requires Ascending(s) && x !in s
    ensures Ascending(Inserted(x, s)) && forall y :: y in Inserted(x, s) <==> y == x || y in s
  {
    if s == [] {
    } else if Below(x, s[0]) {
      forall i, j | 0 <= i < j < |s| + 1 ensures Below(([x] + s)[i], ([x] + s)[j]) {
        if i == 0 && j > 1 { BelowTransitive(x, s[0], s[j - 1]); }
      }
    } else {
      BelowTotal(x, s[0]);
      InsertedAscends(x, s[1..]);
      var r := Inserted(x, s[1..]);
      forall j | 0 <= j < |r| ensures Below(s[0], r[j]) {
        assert r[j] in r;
        if r[j] != x { var i :| 0 <= i < |s[1..]| && s[1..][i] == r[j]; assert s[i + 1] == r[j]; }
      }
      assert s == [s[0]] + s[1..];
    }
  }

  lemma {:induction false} SortedEnumerates(s: seq<Id>)
    requires Distinct(s)
    ensures Ascending(Sorted(s)) && forall y :: y in Sorted(s) <==> y in s
  {
    if s != [] {
      var rest := s[..|s| - 1];
      SortedEnumerates(rest);
      assert s == rest + [s[|s| - 1]];
      assert s[|s| - 1] !in rest;
      InsertedAscends(s[|s| - 1], Sorted(rest));
    }
  }

  /** Sorting distinct names enumerates their set. */
  lemma SortedIsOrdered(s: seq<Id>, of: set<Id>)
    requires Distinct(s)
    requires forall x :: x in s <==> x in of
    ensures Sorted(s) == Ordered(of)
  {
    SortedEnumerates(s);
    OrderedEnumerates(of);
    EnumerationUnique(Sorted(s), Ordered(of), of);
  }

  // ---------------------------------------------------------------------------------------------
  // Merging pages

  function Union(shards: seq<set<Id>>): set<Id> {
    set i, n | 0 <= i < |shards| && n in shards[i] :: n
  }

  function AllItems(pages: seq<Page>): seq<Id> {
    if pages == [] then [] else AllItems(pages[..|pages| - 1]) + pages[|pages| - 1].items
  }

  /** No namespace is on two shards. */
  ghost predicate Disjoint(shards: seq<set<Id>>) {
    forall i, j, n :: 0 <= i < j < |shards| && n in shards[i] ==> n !in shards[j]
  }

  ghost predicate PagesOf(pages: seq<Page>, shards: seq<set<Id>>, after: Option<Id>, limit: nat)
    requires limit >= 1
  {
    |pages| == |shards| && forall i :: 0 <= i < |pages| ==> pages[i] == Listed(shards[i], after, limit)
  }

  lemma ItemsOfPage(names: set<Id>, after: Option<Id>, limit: nat)
    requires limit >= 1
    ensures var page, s := Listed(names, after, limit), After(names, after);
            && (forall n :: n in page.items ==> n in s)
            && Distinct(page.items)
            && (page.cursor.None? ==> forall n :: n in s ==> n in page.items)
            && (page.cursor.Some? <==> |s| > limit)
            && |page.items| == if |s| > limit then limit else |s|
  {
    var s := After(names, after);
    var all, items := Ordered(s), Listed(names, after, limit).items;
    OrderedEnumerates(s);
    AscendingDistinct(all);
    forall n | n in items ensures n in s { var i :| 0 <= i < |items| && items[i] == n; assert all[i] in all; }
  }

  /** A name that a page left out is behind all the names of the page. */
  lemma LeftOutBehind(names: set<Id>, after: Option<Id>, limit: nat, x: Id)
    requires limit >= 1 && x in After(names, after) && x !in Listed(names, after, limit).items
    ensures |Listed(names, after, limit).items| == limit
    ensures forall n :: n in Listed(names, after, limit).items ==> Below(n, x)
  {
    var s := After(names, after);
    var all, items := Ordered(s), Listed(names, after, limit).items;
    OrderedEnumerates(s);
    var k :| 0 <= k < |all| && all[k] == x;
    assert forall i :: 0 <= i < |items| ==> items[i] in items && items[i] == all[i];
    forall n | n in items ensures Below(n, x) { var i :| 0 <= i < |items| && items[i] == n; assert all[i] == n; }
  }

  lemma {:induction false} AllItemsMember(pages: seq<Page>, n: Id)
    ensures n in AllItems(pages) <==> exists i :: 0 <= i < |pages| && n in pages[i].items
  {
    if pages != [] {
      AllItemsMember(pages[..|pages| - 1], n);
      assert pages == pages[..|pages| - 1] + [pages[|pages| - 1]];
    }
  }

  lemma FewerPages(pages: seq<Page>, shards: seq<set<Id>>, after: Option<Id>, limit: nat)
    requires limit >= 1 && PagesOf(pages, shards, after, limit) && Disjoint(shards) && pages != []
    ensures PagesOf(pages[..|pages| - 1], shards[..|pages| - 1], after, limit)
    ensures Disjoint(shards[..|pages| - 1])
  {}

  lemma {:induction false} AllItemsDistinct(pages: seq<Page>, shards: seq<set<Id>>, after: Option<Id>, limit: nat)
    requires limit >= 1 && PagesOf(pages, shards, after, limit) && Disjoint(shards)
    ensures Distinct(AllItems(pages))
  {
    if pages != [] {
      var k := |pages| - 1;
      var before, last := AllItems(pages[..k]), pages[k].items;
      FewerPages(pages, shards, after, limit);
      AllItemsDistinct(pages[..k], shards[..k], after, limit);
      ItemsOfPage(shards[k], after, limit);
      forall n | n in before ensures n !in last { LaterShardLacks(pages, shards, after, limit, n); }
      DistinctConcat(before, last);
    }
  }

  lemma LaterShardLacks(pages: seq<Page>, shards: seq<set<Id>>, after: Option<Id>, limit: nat, n: Id)
    requires limit >= 1 && PagesOf(pages, shards, after, limit) && Disjoint(shards) && pages != []
    requires n in AllItems(pages[..|pages| - 1])
    ensures n !in pages[|pages| - 1].items
  {
    var k := |pages| - 1;
    AllItemsMember(pages[..k], n);
    var i :| 0 <= i < k && n in pages[i].items;
    ItemsOfPage(shards[i], after, limit);
    ItemsOfPage(shards[k], after, limit);
  }

  lemma DistinctConcat(a: seq<Id>, b: seq<Id>)
    requires Distinct(a) && Distinct(b) && forall n :: n in a ==> n !in b
    ensures Distinct(a + b)
  {
    var c := a + b;
    forall i, j | 0 <= i < j < |c| ensures c[i] != c[j] {
      if i < |a| && j >= |a| { assert a[i] in a && b[j - |a|] in b; }
    }
  }

  /** The items of the pages, as a set, and what they lack. */
  lemma ItemsCover(pages: seq<Page>, shards: seq<set<Id>>, after: Option<Id>, limit: nat, s: set<Id>)
    requires limit >= 1 && PagesOf(pages, shards, after, limit)
    requires forall n :: n in s <==> n in AllItems(pages)
    ensures s <= After(Union(shards), after)
    ensures forall x :: x in After(Union(shards), after) && x !in s ==> Behind(s, x, limit)
    ensures (forall i :: 0 <= i < |pages| ==> pages[i].cursor.None?) ==> s == After(Union(shards), after)
    ensures (exists i :: 0 <= i < |pages| && pages[i].cursor.Some?) ==> |After(Union(shards), after)| > limit
  {
    var u := After(Union(shards), after);
    forall n | n in s ensures n in u {
      AllItemsMember(pages, n);
      var i :| 0 <= i < |pages| && n in pages[i].items;
      ItemsOfPage(shards[i], after, limit);
    }
    forall x | x in u && x !in s ensures Behind(s, x, limit) && exists i :: 0 <= i < |pages| && pages[i].cursor.Some? {
      var i :| 0 <= i < |shards| && x in shards[i];
      assert x !in pages[i].items by { AllItemsMember(pages, x); }
      LeftOut(pages, shards, after, limit, s, x, i);
    }
    if i :| 0 <= i < |pages| && pages[i].cursor.Some? {
      ItemsOfPage(shards[i], after, limit);
      SubsetSize(After(shards[i], after), u);
    }
  }

  lemma LeftOut(
    pages: seq<Page>, shards: seq<set<Id>>, after: Option<Id>, limit: nat, s: set<Id>, x: Id, i: nat)
    requires limit >= 1 && PagesOf(pages, shards, after, limit) && i < |shards|
    requires forall n :: n in s <==> n in AllItems(pages)
    requires x in After(shards[i], after) && x !in pages[i].items
    ensures Behind(s, x, limit) && pages[i].cursor.Some?
  {
    LeftOutBehind(shards[i], after, limit, x);
    ItemsOfPage(shards[i], after, limit);
    var items := pages[i].items;
    var t := set n | n in items;
    forall n | n in t ensures n in s { AllItemsMember(pages, n); }
    DistinctCount(items);
    assert Ahead(t, s, x, limit);
  }

  lemma {:induction false} DistinctCount(s: seq<Id>)
    requires Distinct(s)
    ensures |(set n | n in s)| == |s|
  {
    if s != [] {
      var rest := s[..|s| - 1];
      DistinctCount(rest);
      assert s == rest + [s[|s| - 1]] && s[|s| - 1] !in rest;
      assert (set n | n in s) == (set n | n in rest) + {s[|s| - 1]};
    }
  }

  /** Merge the pages of all shards. */
  method Merge(pages: seq<Page>, limit: nat, ghost shards: seq<set<Id>>, ghost after: Option<Id>) returns (page: Page)
    requires 1 <= limit <= MAX_PAGE_SIZE && PagesOf(pages, shards, after, limit) && Disjoint(shards)
    ensures page == Listed(Union(shards), after, limit)
  {
    var more, items := Gather(pages);
    MergedItems(pages, shards, after, limit, more);
    items := Sorted(items);
    more := more || |items| > limit;
    items := Take(items, limit);
    page := Page(items, if more && items != [] then Some(items[|items| - 1]) else None);
  }

  lemma MergedItems(pages: seq<Page>, shards: seq<set<Id>>, after: Option<Id>, limit: nat, more: bool)
    requires limit >= 1 && PagesOf(pages, shards, after, limit) && Disjoint(shards)
    requires more == exists i :: 0 <= i < |pages| && pages[i].cursor.Some?
    ensures var sorted := Sorted(AllItems(pages));
            var items := Take(sorted, limit);
            Listed(Union(shards), after, limit) ==
            Page(items, if (more || |sorted| > limit) && items != [] then Some(items[|items| - 1]) else None)
  {
    var items := AllItems(pages);
    var s := set n | n in items;
    AllItemsDistinct(pages, shards, after, limit);
    ItemsCover(pages, shards, after, limit, s);
    SortedIsOrdered(items, s);
    MergedPage(s, After(Union(shards), after), limit, more);
  }

  method Gather(pages: seq<Page>) returns (more: bool, items: seq<Id>)
    ensures more == exists i :: 0 <= i < |pages| && pages[i].cursor.Some?
    ensures items == AllItems(pages)
  {
    more, items := false, [];
    for i := 0 to |pages|
      invariant more == exists j :: 0 <= j < i && pages[j].cursor.Some?
      invariant items == AllItems(pages[..i])
    {
      PrefixStep(pages, i);
      more, items := more || pages[i].cursor.Some?, items + pages[i].items;
    }
    assert pages[..|pages|] == pages;
  }

  lemma MergedPage(s: set<Id>, u: set<Id>, limit: nat, more: bool)
    requires limit >= 1 && s <= u && forall x :: x in u && x !in s ==> Behind(s, x, limit)
    requires if more then |u| > limit else s == u
    ensures var items := Take(Ordered(s), limit);
            PageOf(Ordered(u), limit) ==
            Page(items, if (more || |s| > limit) && items != [] then Some(items[|items| - 1]) else None)
  {
    FirstSame(s, u, limit);
    SubsetSize(s, u);
    var items := Take(Ordered(s), limit);
    assert items == Take(Ordered(u), limit);
  }

  // ---------------------------------------------------------------------------------------------
  // Placement

  /** The shard whose digest with the name is largest; the last of several. None without shards. */
  function ShardFor(name: Id, shards: seq<Id>, digest: (Id, Id) -> nat): (r: Option<nat>)
    ensures r.None? <==> shards == []
    ensures r.Some? ==> r.value < |shards|
  {
    if shards == [] then None else
      var k := |shards| - 1;
      match ShardFor(name, shards[..k], digest)
      case None => Some(k)
      case Some(best) => if digest(name, shards[k]) >= digest(name, shards[best]) then Some(k) else Some(best)
  }

  /** Every name has exactly one shard: the one that no other beats. */
  lemma {:induction false} ShardForWins(name: Id, shards: seq<Id>, digest: (Id, Id) -> nat, i: nat)
    requires i < |shards|
    ensures ShardFor(name, shards, digest) == Some(i) <==>
            && (forall j :: 0 <= j < |shards| ==> digest(name, shards[j]) <= digest(name, shards[i]))
            && (forall j :: i < j < |shards| ==> digest(name, shards[j]) < digest(name, shards[i]))
    ensures ShardFor(name, shards, digest).Some? && ShardFor(name, shards, digest).value < |shards|
  {
    var k := |shards| - 1;
    if k > 0 {
      var best := ShardFor(name, shards[..k], digest);
      ShardForWins(name, shards[..k], digest, if i < k then i else 0);
      ShardForWins(name, shards[..k], digest, best.value);
    }
  }

  /** A new shard takes names from the others but moves none between them. */
  lemma NewShardOnlyTakes(name: Id, shards: seq<Id>, added: Id, digest: (Id, Id) -> nat)
    requires shards != []
    ensures ShardFor(name, shards + [added], digest) in {ShardFor(name, shards, digest), Some(|shards|)}
  {
    assert (shards + [added])[..|shards|] == shards;
  }

  /** The namespaces that end up on each shard. */
  ghost function Placed(names: set<Id>, shards: seq<Id>, digest: (Id, Id) -> nat): seq<set<Id>> {
    seq(|shards|, i => set n | n in names && ShardFor(n, shards, digest) == Some(i))
  }

  /** Placement makes shards disjoint and loses no namespace, so merged pages are pages of all of them. */
  lemma PlacementPartitions(names: set<Id>, shards: seq<Id>, digest: (Id, Id) -> nat)
    requires shards != []
    ensures Disjoint(Placed(names, shards, digest)) && Union(Placed(names, shards, digest)) == names
  {
    var placed := Placed(names, shards, digest);
    forall n ensures n in Union(placed) <==> n in names {
      if n in names {
        ShardForWins(n, shards, digest, 0);
        assert n in placed[ShardFor(n, shards, digest).value];
      }
    }
  }
}
