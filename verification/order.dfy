/** Byte strings in the order in which the database keeps its keys, and the
    ascending enumeration of a finite set of them. */
module Order {
  newtype byte = b: int | 0 <= b < 256

  type Bytes = seq<byte>

  /** Strict lexicographic order: what `<` means on byte slices and on key scans. */
  predicate Below(a: Bytes, b: Bytes) {
    b != [] && (a == [] || a[0] < b[0] || (a[0] == b[0] && Below(a[1..], b[1..])))
  }

  lemma {:induction false} BelowIrreflexive(a: Bytes)
    ensures !Below(a, a)
  {
    if a != [] { BelowIrreflexive(a[1..]); }
  }

  lemma {:induction false} BelowTotal(a: Bytes, b: Bytes)
    ensures a == b || Below(a, b) || Below(b, a)
  {
    if a != [] && b != [] && a[0] == b[0] {
      BelowTotal(a[1..], b[1..]);
      assert a[1..] == b[1..] ==> a == [a[0]] + a[1..] == [b[0]] + b[1..] == b;
    }
  }

  lemma {:induction false} BelowTransitive(a: Bytes, b: Bytes, c: Bytes)
    requires Below(a, b) && Below(b, c)
    ensures Below(a, c)
  {
    if a != [] && a[0] == b[0] && b[0] == c[0] { BelowTransitive(a[1..], b[1..], c[1..]); }
  }

  lemma BelowAsymmetric(a: Bytes, b: Bytes)
    requires Below(a, b)
    ensures !Below(b, a) && a != b
  {
    BelowIrreflexive(a);
    if Below(b, a) { BelowTransitive(a, b, a); }
  }

  /** A shared prefix does not influence the order. */
  lemma {:induction false} BelowAfterPrefix(p: Bytes, a: Bytes, b: Bytes)
    ensures Below(p + a, p + b) <==> Below(a, b)
  {
    if p == [] {
      assert p + a == a && p + b == b;
    } else {
      assert (p + a)[1..] == p[1..] + a && (p + b)[1..] == p[1..] + b;
      BelowAfterPrefix(p[1..], a, b);
    }
  }

  /** Between strings whose first parts have equal length, those parts decide unless they agree. */
  lemma {:induction false} BelowOfEqualLengths(a: Bytes, s: Bytes, b: Bytes, t: Bytes)
    requires |a| == |b|
    ensures a != b ==> (Below(a + s, b + t) <==> Below(a, b))
    ensures a == b ==> (Below(a + s, b + t) <==> Below(s, t))
  {
    if a == [] {
      assert a + s == s && b + t == t;
    } else {
      assert (a + s)[1..] == a[1..] + s && (b + t)[1..] == b[1..] + t;
      assert a == [a[0]] + a[1..] && b == [b[0]] + b[1..];
      BelowOfEqualLengths(a[1..], s, b[1..], t);
      if a[0] == b[0] { assert a == b <==> a[1..] == b[1..]; }
    }
  }

  predicate StartsWith(s: Bytes, prefix: Bytes) {
    |prefix| <= |s| && s[..|prefix|] == prefix
  }

  ghost predicate Ascending(s: seq<Bytes>) {
    forall i, j :: 0 <= i < j < |s| ==> Below(s[i], s[j])
  }

  ghost predicate Enumerates(s: seq<Bytes>, of: set<Bytes>) {
    Ascending(s) && (forall x :: x in s <==> x in of)
  }

  predicate IsLeast(m: Bytes, s: set<Bytes>) {
    m in s && forall x :: x in s && x != m ==> Below(m, x)
  }

  lemma {:induction false} LeastExists(s: set<Bytes>)
    requires s != {}
    ensures exists m :: IsLeast(m, s)
    decreases |s|
  {
    var x :| x in s;
    if s - {x} == {} {
      assert forall y :: y in s && y != x ==> y in s - {x};
      assert IsLeast(x, s);
    } else {
      LeastExists(s - {x});
      var m :| IsLeast(m, s - {x});
      BelowTotal(m, x);
      if Below(m, x) {
        assert IsLeast(m, s);
      } else {
        forall y | y in s && y != x ensures Below(x, y) {
          if y != m { BelowTransitive(x, m, y); }
        }
        assert IsLeast(x, s);
      }
    }
  }

  lemma LeastUnique(a: Bytes, b: Bytes, s: set<Bytes>)
    requires IsLeast(a, s) && IsLeast(b, s)
    ensures a == b
  {
    if a != b { BelowAsymmetric(a, b); }
  }

  function Least(s: set<Bytes>): (m: Bytes)
    requires s != {}
    ensures IsLeast(m, s)
  {
    LeastExists(s);
    assert forall a, b | a in s && b in s && a != b :: !IsLeast(a, s) || !IsLeast(b, s) by {
      forall a, b | IsLeast(a, s) && IsLeast(b, s) ensures a == b { LeastUnique(a, b, s); }
    }
    var m :| m in s && IsLeast(m, s);
    m
  }

  /** The order in which a scan or a BTreeSet yields its elements. */
  function Ordered(s: set<Bytes>): (r: seq<Bytes>)
    ensures |r| == |s|
    ensures forall x :: x in r <==> x in s
    decreases |s|
  {
    if s == {} then []
    else
      [Least(s)] + Ordered(s - {Least(s)})
  }

  lemma {:induction false} OrderedEnumerates(s: set<Bytes>)
    ensures Enumerates(Ordered(s), s)
    decreases |s|
  {
    if s != {} {
      var m := Least(s);
      var rest := Ordered(s - {m});
      OrderedEnumerates(s - {m});
      forall i, j | 0 <= i < j < |Ordered(s)| ensures Below(Ordered(s)[i], Ordered(s)[j]) {
        assert Ordered(s)[j] == rest[j - 1] && rest[j - 1] in rest;
        if i != 0 { assert Ordered(s)[i] == rest[i - 1]; }
      }
    }
  }

  lemma AscendingDistinct(s: seq<Bytes>)
    requires Ascending(s)
    ensures forall i, j :: 0 <= i < j < |s| ==> s[i] != s[j]
  {
    forall i, j | 0 <= i < j < |s| ensures s[i] != s[j] { BelowAsymmetric(s[i], s[j]); }
  }

  /** A set has only one ascending enumeration. */
  lemma {:induction false} EnumerationUnique(a: seq<Bytes>, b: seq<Bytes>, s: set<Bytes>)
    requires Enumerates(a, s) && Enumerates(b, s)
    ensures a == b
    decreases |a|
  {
    if a == [] {
      assert forall i :: 0 <= i < |b| ==> b[i] in b;
    } else {
      assert a[0] in b;
      assert b[0] in a;
      if a[0] != b[0] {
        assert Below(b[0], a[0]);
        assert Below(a[0], b[0]);
        BelowAsymmetric(a[0], b[0]);
      }
      var rest := s - {a[0]};
      AscendingDistinct(a);
      AscendingDistinct(b);
      forall x ensures x in a[1..] <==> x in rest { assert a == [a[0]] + a[1..]; }
      forall x ensures x in b[1..] <==> x in rest { assert b == [b[0]] + b[1..]; }
      EnumerationUnique(a[1..], b[1..], rest);
      assert a == [a[0]] + a[1..] && b == [b[0]] + b[1..];
    }
  }

  ghost predicate Distinct<T>(s: seq<T>) {
    forall i, j :: 0 <= i < j < |s| ==> s[i] != s[j]
  }

  function SetOf<T>(s: seq<T>): set<T> {
    set x | x in s
  }

  lemma SubsetSize<T>(a: set<T>, b: set<T>)
    requires a <= b
    ensures |a| <= |b|
  {
    assert b == a + (b - a);
  }

  /** Suffixes of a sequence without repetition, one element at a time. */
  lemma SuffixStep<T>(s: seq<T>, i: nat)
    requires i < |s| && Distinct(s)
    ensures s[i..] == [s[i]] + s[i + 1..] && s[i] !in s[i + 1..]
  {}

  /** Prefixes of a sequence, one element at a time. */
  lemma PrefixStep<T>(s: seq<T>, i: nat)
    requires i < |s|
    ensures s[..i + 1] == s[..i] + [s[i]] && s[..i + 1][..i] == s[..i]
  {}
}
