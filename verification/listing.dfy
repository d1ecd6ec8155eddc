/** Paging through namespaces, on one engine and through a gateway over several shards. */
module Listing {
  import opened Order
  import opened Wrappers
  import opened Model

  datatype Page = Page(items: seq<Id>, cursor: Option<Id>)

  /** Names after the cursor. */
  function After(names: set<Id>, after: Option<Id>): set<Id> {
    set n | n in names && (after.None? || Below(after.value, n))
  }

  function Take<T>(s: seq<T>, limit: nat): seq<T> {
    if |s| <= limit then s else s[..limit]
  }

  /** The page that a scan of ordered names should give: as many as fit, and a cursor exactly when more follow. */
  function PageOf(rest: seq<Id>, limit: nat): Page
    requires limit >= 1
  {
    Page(Take(rest, limit), if |rest| > limit then Some(rest[limit - 1]) else None)
  }

  function Listed(names: set<Id>, after: Option<Id>, limit: nat): Page
    requires limit >= 1
  {
    PageOf(Ordered(After(names, after)), limit)
  }

  /** Collect a page from an ordered scan that starts after the cursor. */
  method CollectPage(rows: seq<Id>, limit: nat) returns (page: Page)
    requires limit >= 1
    ensures page == PageOf(rows, limit)
  {
    var items: seq<Id> := [];
    for i := 0 to |rows|
      invariant items == rows[..i] && i <= limit
    {
      if |items| == limit {
        return Page(items, Some(items[|items| - 1]));
      }
      items := items + [rows[i]];
    }
    return Page(items, None);
  }

  // ---------------------------------------------------------------------------------------------
  // Following the cursor

  function Above(s: set<Id>, m: Id): set<Id> {
    set n | n in s && Below(m, n)
  }

  lemma AboveLeast(s: set<Id>)
    requires s != {}
    ensures Above(s, Least(s)) == s - {Least(s)}
  {
    BelowIrreflexive(Least(s));
  }

  lemma AboveWithoutLeast(s: set<Id>, y: Id)
    requires y in s && y != Least(s)
    ensures Above(s - {Least(s)}, y) == Above(s, y)
  {
    BelowAsymmetric(Least(s), y);
  }

  /** What follows a position in the enumeration are the names above the one before it. */
  lemma {:induction false} AfterLast(s: set<Id>, k: nat)
    requires 0 < k <= |s|
    ensures Ordered(s)[k..] == Ordered(Above(s, Ordered(s)[k - 1]))
    decreases k
  {
    var rest := s - {Least(s)};
    OrderedStep(s);
    if k == 1 {
      AboveLeast(s);
    } else {
      AfterLast(rest, k - 1);
      var y := Ordered(rest)[k - 2];
      assert y in Ordered(rest);
      AboveWithoutLeast(s, y);
    }
  }

  lemma OrderedStep(s: set<Id>)
    requires s != {}
    ensures var rest := Ordered(s - {Least(s)});
            && |Ordered(s)| == |rest| + 1 && Ordered(s)[0] == Least(s)
            && forall k :: 0 < k <= |s| ==>
                 Ordered(s)[k..] == rest[k - 1..] && (k > 1 ==> Ordered(s)[k - 1] == rest[k - 2])
  {
    assert Ordered(s) == [Least(s)] + Ordered(s - {Least(s)});
  }

  lemma AfterCursor(names: set<Id>, after: Option<Id>, x: Id)
    requires x in After(names, after)
    ensures After(names, Some(x)) == Above(After(names, after), x)
  {
    forall n | n in names && Below(x, n) ensures n in After(names, after) {
      if after.Some? { BelowTransitive(after.value, x, n); }
    }
  }

  lemma CursorRest(names: set<Id>, after: Option<Id>, limit: nat)
    requires 1 <= limit < |After(names, after)|
    ensures Ordered(After(names, Some(Ordered(After(names, after))[limit - 1]))) ==
            Ordered(After(names, after))[limit..]
  {
    var s := After(names, after);
    var x := Ordered(s)[limit - 1];
    assert x in Ordered(s);
    AfterLast(s, limit);
    AfterCursor(names, after, x);
  }

  lemma PageSplit(rest: seq<Id>, limit: nat)
    requires 1 <= limit < |rest|
    ensures PageOf(rest, limit) == Page(rest[..limit], Some(rest[limit - 1])) && rest == rest[..limit] + rest[limit..]
  {}

  /** What the cursor of a page leaves is what the page left out. */
  lemma CursorContinues(names: set<Id>, after: Option<Id>, limit: nat)
    requires limit >= 1 && Listed(names, after, limit).cursor.Some?
    ensures var page := Listed(names, after, limit);
            && Ordered(After(names, after)) == page.items + Ordered(After(names, page.cursor))
            && |page.items| == limit
            && |After(names, page.cursor)| < |After(names, after)|
  {
    CursorRest(names, after, limit);
    PageSplit(Ordered(After(names, after)), limit);
  }

  /** Asking for page after page, until there is no cursor, lists every name once and in order. */
  method ListAll(names: set<Id>, limit: nat) returns (all: seq<Id>, requests: nat)
    requires 1 <= limit <= MAX_PAGE_SIZE
    ensures all == Ordered(names) && Enumerates(all, names)
    ensures requests >= 1 && (requests - 1) * limit <= |names|
  {
    ProgressStart(names, limit);
    all, requests := ListPages(names, limit, Ordered(names));
    ProgressEnd(names, Ordered(names), limit, all, requests);
    OrderedEnumerates(names);
  }

  method ListPages(names: set<Id>, limit: nat, ghost goal: seq<Id>) returns (all: seq<Id>, requests: nat)
    requires limit >= 1 && Progress(names, goal, None, limit, [], goal, 0, true)
    ensures Progress(names, goal, None, limit, all, [], requests, false)
  {
    var after: Option<Id> := None;
    all, requests := [], 0;
    var more := true;
    ghost var rest := goal;
    while more
      invariant Progress(names, goal, after, limit, all, rest, requests, more)
      decreases more, |rest|
    {
      after, all, rest := NextPage(names, goal, after, limit, all, rest, requests);
      requests, more := requests + 1, after.Some?;
    }
  }

  /** One request, and its names behind those that were listed. */
  method NextPage(
    names: set<Id>, ghost goal: seq<Id>, after: Option<Id>, limit: nat, all: seq<Id>, ghost rest: seq<Id>,
    ghost requests: nat)
    returns (cursor: Option<Id>, listed: seq<Id>, ghost left: seq<Id>)
    requires limit >= 1 && Progress(names, goal, after, limit, all, rest, requests, true)
    ensures Progress(names, goal, cursor, limit, listed, left, requests + 1, cursor.Some?)
    ensures cursor.Some? ==> |left| < |rest|
  {
    var page := CollectPage(Ordered(After(names, after)), limit);
    cursor, listed := page.cursor, all + page.items;
    left := if cursor.Some? then Ordered(After(names, cursor)) else [];
    ProgressStep(names, goal, after, limit, all, rest, requests);
  }

  /** What a number of full pages hold. */
  function PageItems(requests: nat, limit: nat): nat {
    if requests == 0 then 0 else PageItems(requests - 1, limit) + limit
  }

  lemma {:induction false} PageItemsProduct(requests: nat, limit: nat)
    ensures PageItems(requests, limit) == requests * limit
  {
    if requests > 0 {
      PageItemsProduct(requests - 1, limit);
      assert requests * limit == (requests - 1) * limit + limit;
    }
  }

  /** As many full pages as requests, or all names with the last page. */
  ghost predicate PagesCounted(names: set<Id>, limit: nat, all: seq<Id>, requests: nat, more: bool) {
    if more then |all| == PageItems(requests, limit) else requests >= 1 && PageItems(requests - 1, limit) <= |names|
  }

  /** What has been listed, and the rest that the cursor leads to. */
  ghost predicate Progress(
    names: set<Id>, goal: seq<Id>, after: Option<Id>, limit: nat, all: seq<Id>, rest: seq<Id>, requests: nat,
    more: bool)
  {
    && PagesCounted(names, limit, all, requests, more)
    && all + rest == goal && |goal| == |names|
    && if more then Enumerates(rest, After(names, after)) else rest == []
  }

  lemma ProgressStart(names: set<Id>, limit: nat)
    ensures Progress(names, Ordered(names), None, limit, [], Ordered(names), 0, true)
  {
    assert After(names, None) == names && [] + Ordered(names) == Ordered(names);
    OrderedEnumerates(names);
  }

  lemma ProgressEnd(names: set<Id>, goal: seq<Id>, limit: nat, all: seq<Id>, requests: nat)
    requires Progress(names, goal, None, limit, all, [], requests, false)
    ensures all == goal && requests >= 1 && (requests - 1) * limit <= |names|
  {
    assert all + [] == all;
    PageItemsProduct(requests - 1, limit);
  }

  lemma ProgressStep(
    names: set<Id>, goal: seq<Id>, after: Option<Id>, limit: nat, all: seq<Id>, rest: seq<Id>, requests: nat)
    requires limit >= 1 && Progress(names, goal, after, limit, all, rest, requests, true)
    ensures var page := Listed(names, after, limit);
            var left := if page.cursor.Some? then Ordered(After(names, page.cursor)) else [];
            && Progress(names, goal, page.cursor, limit, all + page.items, left, requests + 1, page.cursor.Some?)
            && (page.cursor.Some? ==> |left| < |rest|)
  {
    var page := Listed(names, after, limit);
    OrderedEnumerates(After(names, after));
    EnumerationUnique(rest, Ordered(After(names, after)), After(names, after));
    if page.cursor.Some? {
      CursorContinues(names, after, limit);
      OrderedEnumerates(After(names, page.cursor));
      Regroup(all, page.items, Ordered(After(names, page.cursor)));
    } else {
      assert page.items == rest && all + page.items + [] == all + rest;
      assert |all + rest| == |names|;
    }
  }

  lemma Regroup<T>(a: seq<T>, b: seq<T>, c: seq<T>)
    ensures a + (b + c) == (a + b) + c
  {}

  // ---------------------------------------------------------------------------------------------
  // Merging the pages of shards

  ghost predicate Ahead(t: set<Id>, s: set<Id>, x: Id, k: nat) {
    t <= s && |t| >= k && forall y :: y in t ==> Below(y, x)
  }

  /** There are many names of the set below this one. */
  ghost predicate Behind(s: set<Id>, x: Id, k: nat) {
    exists t :: Ahead(t, s, x, k)
  }

  lemma LeastNotBehind(s: set<Id>, u: set<Id>, k: nat)
    requires s <= u && u != {} && k > 0 && forall x :: x in u && x !in s ==> Behind(s, x, k)
    ensures Least(u) in s && s != {} && Least(s) == Least(u)
  {
    var m := Least(u);
    if m !in s {
      var t :| Ahead(t, s, m, k);
      NotEmpty(t);
      var y :| y in t;
      BelowAsymmetric(y, m);
      assert false;
    }
    LeastUnique(m, Least(s), s);
  }

  lemma NotEmpty<T>(t: set<T>)
    requires |t| > 0
    ensures exists y :: y in t
  {
    assert t != {};
    var y :| y in t;
  }

  lemma BehindWithout(s: set<Id>, m: Id, x: Id, k: nat)
    requires k > 0 && Behind(s, x, k)
    ensures Behind(s - {m}, x, k - 1)
  {
    var t :| Ahead(t, s, x, k);
    if m in t { assert |t - {m}| == |t| - 1; } else { assert t - {m} == t; }
    assert Ahead(t - {m}, s - {m}, x, k - 1);
  }

  lemma TakeOne(s: set<Id>, k: nat)
    requires s != {} && k > 0
    ensures Take(Ordered(s), k) == [Least(s)] + Take(Ordered(s - {Least(s)}), k - 1)
  {
    TakeCons(Least(s), Ordered(s - {Least(s)}), k);
  }

  lemma TakeCons<T>(x: T, rest: seq<T>, k: nat)
    requires k > 0
    ensures Take([x] + rest, k) == [x] + Take(rest, k - 1)
  {}

  /** Names behind the first k do not matter for the first k. */
  lemma {:induction false} FirstSame(s: set<Id>, u: set<Id>, k: nat)
    requires s <= u && forall x :: x in u && x !in s ==> Behind(s, x, k)
    ensures Take(Ordered(s), k) == Take(Ordered(u), k)
    ensures s != u ==> |s| >= k
    decreases k
  {
    if k > 0 && u != {} {
      LeastNotBehind(s, u, k);
      var m := Least(u);
      forall x | x in u - {m} && x !in s - {m} ensures Behind(s - {m}, x, k - 1) { BehindWithout(s, m, x, k); }
      FirstSame(s - {m}, u - {m}, k - 1);
      TakeOne(s, k);
      TakeOne(u, k);
      assert s == s - {m} + {m} && u == u - {m} + {m};
    }
  }
}
