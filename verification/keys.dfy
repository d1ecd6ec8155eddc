/** The keyspace: the keys as text, and why a prefix scan sees one family of keys of one namespace. */
module Keys {
  import opened Order
  import opened Numbers
  import opened Model

  /** Posting lists of one index generation. Field names, terms and canonical values stand for
      the digests that appear in the text of the key. */
  datatype List =
    | EqList(field: string, value: Json)
    | NumList(field: string, number: Bytes)
    | TermList(field: string, term: string)

  /** Keys below g/<namespace>/<generation>/. */
  datatype EntryKey =
    | Block(list: List, block: nat)
    | VectorBlock(cluster: nat, block: nat)
    | TermsOf(id: Id)

  datatype Key =
    | FormatKey
    | NamespaceKey(ns: Id)
    | StatsKey(ns: Id)
    | DocumentKey(ns: Id, id: Id)
    | VectorKey(ns: Id, id: Id)
    | ChangeKey(ns: Id, id: Id)
    | IndexKey(ns: Id)
    | GenerationKey(ns: Id, generation: Id, entry: EntryKey)
    | CleanupKey(ns: Id)
    | DeletionKey(ns: Id)

  function DecimalDigits(n: nat): (r: Bytes)
    ensures r != []
  {
    (if n < 10 then [] else DecimalDigits(n / 10)) + [(48 + n % 10) as byte]
  }

  function Zeros(n: nat): (r: Bytes)
    ensures |r| == n
  {
    if n == 0 then [] else [48] + Zeros(n - 1)
  }

  /** Decimal, padded with zeros to at least the given width. */
  function Padded(n: nat, width: nat): Bytes {
    var d := DecimalDigits(n);
    if |d| < width then Zeros(width - |d|) + d else d
  }

  /** What reading the digits back gives. */
  function Number(digits: Bytes): int {
    if digits == [] then 0
    else 10 * Number(digits[..|digits| - 1]) + (digits[|digits| - 1] as int - 48)
  }

  lemma {:induction false} NumberOfDigits(n: nat)
    ensures Number(DecimalDigits(n)) == n
  {
    var d := DecimalDigits(n);
    assert d[..|d| - 1] == if n < 10 then [] else DecimalDigits(n / 10);
    if n >= 10 { NumberOfDigits(n / 10); }
  }

  lemma {:induction false} NumberOfZeros(k: nat, d: Bytes)
    ensures Number(Zeros(k) + d) == Number(d)
    decreases |d|, k
  {
    if d == [] {
      assert Zeros(k) + d == Zeros(k);
      if k > 0 {
        ZerosEnd(k);
        NumberOfZeros(k - 1, []);
        assert Zeros(k - 1) + [] == Zeros(k - 1);
      }
    } else {
      assert (Zeros(k) + d)[..|Zeros(k) + d| - 1] == Zeros(k) + d[..|d| - 1];
      NumberOfZeros(k, d[..|d| - 1]);
    }
  }

  lemma {:induction false} ZerosEnd(k: nat)
    requires k > 0
    ensures Zeros(k) == Zeros(k - 1) + [48]
  {
    if k > 1 { ZerosEnd(k - 1); }
  }

  lemma NumberOfPadded(n: nat, width: nat)
    ensures Number(Padded(n, width)) == n
  {
    NumberOfDigits(n);
    var d := DecimalDigits(n);
    if |d| < width { NumberOfZeros(width - |d|, d); }
  }

  /** Different numbers have different texts, at any width. */
  lemma PaddedInjective(m: nat, n: nat, width: nat)
    requires Padded(m, width) == Padded(n, width)
    ensures m == n
  {
    NumberOfPadded(m, width);
    NumberOfPadded(n, width);
  }

  function BlockText(block: nat): Bytes {
    Padded(block, 8)
  }

  // ---------------------------------------------------------------------------------------------
  // Keys as text

  predicate SlashFree(b: Bytes) {
    SLASH !in b
  }

  /** Texts separated by slashes. */
  function Join(parts: seq<Bytes>): Bytes
    requires parts != []
  {
    if |parts| == 1 then parts[0] else parts[0] + [SLASH] + Join(parts[1..])
  }

  /** The digests that stand for field names, terms and values in keys. */
  datatype Digests = Digests(text: string -> Bytes, value: Json -> Bytes)
  {
    /** No collisions, and no slash in a digest. */
    ghost predicate Valid() {
      && (forall a, b :: text(a) == text(b) ==> a == b)
      && (forall a, b :: value(a) == value(b) ==> a == b)
      && (forall a :: SlashFree(text(a))) && (forall a :: SlashFree(value(a)))
    }
  }

  function EntryParts(k: EntryKey, h: Digests): seq<Bytes> {
    match k
    case Block(EqList(f, v), b) => [[101], h.text(f), h.value(v), BlockText(b)]
    case Block(NumList(f, n), b) => [[114], h.text(f), n, BlockText(b)]
    case Block(TermList(f, t), b) => [[116], h.text(f), h.text(t), BlockText(b)]
    case VectorBlock(c, b) => [[118], Padded(c, 4), BlockText(b)]
    case TermsOf(id) => [[108], id]
  }

  function Parts(k: Key, h: Digests): (r: seq<Bytes>)
    ensures r != []
  {
    match k
    case FormatKey => [[109, 101, 116, 97], [102, 111, 114, 109, 97, 116]]
    case NamespaceKey(ns) => [[110], ns]
    case StatsKey(ns) => [[115], ns]
    case DocumentKey(ns, id) => [[100], ns, id]
    case VectorKey(ns, id) => [[118], ns, id]
    case ChangeKey(ns, id) => [[99], ns, id]
    case IndexKey(ns) => [[105], ns]
    case GenerationKey(ns, g, e) => [[103], ns, g] + EntryParts(e, h)
    case CleanupKey(ns) => [[106], ns]
    case DeletionKey(ns) => [[122], ns]
  }

  function Rendered(k: Key, h: Digests): Bytes {
    Join(Parts(k, h))
  }

  predicate ValidEntry(k: EntryKey) {
    match k
    case Block(NumList(_, n), _) => SlashFree(n)
    case TermsOf(id) => ValidId(id)
    case _ => true
  }

  /** Keys that the engine forms: from validated names, IDs and generations. */
  predicate ValidKey(k: Key) {
    match k
    case FormatKey => true
    case GenerationKey(ns, g, e) => ValidId(ns) && ValidId(g) && ValidEntry(e)
    case DocumentKey(ns, id) => ValidId(ns) && ValidId(id)
    case VectorKey(ns, id) => ValidId(ns) && ValidId(id)
    case ChangeKey(ns, id) => ValidId(ns) && ValidId(id)
    case _ => ValidId(k.ns)
  }

  lemma IdSlashFree(id: Id)
    requires ValidId(id)
    ensures SlashFree(id)
  {}

  lemma {:induction false} DigitsSlashFree(n: nat)
    ensures SlashFree(DecimalDigits(n))
  {
    if n >= 10 { DigitsSlashFree(n / 10); }
  }

  lemma {:induction false} ZerosSlashFree(n: nat)
    ensures SlashFree(Zeros(n))
  {
    if n > 0 { ZerosSlashFree(n - 1); }
  }

  lemma PaddedSlashFree(n: nat, width: nat)
    ensures SlashFree(Padded(n, width))
  {
    DigitsSlashFree(n);
    if |DecimalDigits(n)| < width { ZerosSlashFree(width - |DecimalDigits(n)|); }
  }

  ghost predicate AllSlashFree(parts: seq<Bytes>) {
    forall i :: 0 <= i < |parts| ==> SlashFree(parts[i])
  }

  lemma PartsSlashFree(k: Key, h: Digests)
    requires ValidKey(k) && h.Valid()
    ensures AllSlashFree(Parts(k, h))
  {
    match k
    case FormatKey =>
    case GenerationKey(ns, g, e) =>
      IdSlashFree(ns);
      IdSlashFree(g);
      EntrySlashFree(e, h);
    case DocumentKey(ns, id) => IdSlashFree(ns); IdSlashFree(id);
    case VectorKey(ns, id) => IdSlashFree(ns); IdSlashFree(id);
    case ChangeKey(ns, id) => IdSlashFree(ns); IdSlashFree(id);
    case _ => IdSlashFree(k.ns);
  }

  lemma EntrySlashFree(e: EntryKey, h: Digests)
    requires ValidEntry(e) && h.Valid()
    ensures AllSlashFree(EntryParts(e, h))
  {
    match e
    case Block(_, b) => PaddedSlashFree(b, 8);
    case VectorBlock(c, b) => PaddedSlashFree(c, 4); PaddedSlashFree(b, 8);
    case TermsOf(id) => IdSlashFree(id);
  }

  lemma SlashPosition(a: Bytes, s: Bytes)
    requires SlashFree(a)
    ensures var x := a + [SLASH] + s; x[|a|] == SLASH && forall i :: 0 <= i < |a| ==> x[i] != SLASH
  {}

  lemma NoSlashPrefix(text: Bytes, p: Bytes)
    requires SlashFree(text)
    ensures !StartsWith(text, p + [SLASH])
  {
    assert SLASH in p + [SLASH];
    assert forall n :: 0 <= n <= |text| ==> SLASH !in text[..n];
  }

  /** The first slash ends the first part. */
  lemma FirstSlash(a: Bytes, s: Bytes, b: Bytes, t: Bytes)
    requires SlashFree(a) && SlashFree(b) && a + [SLASH] + s == b + [SLASH] + t
    ensures a == b && s == t
  {
    var x, y := a + [SLASH] + s, b + [SLASH] + t;
    SlashPosition(a, s);
    SlashPosition(b, t);
    assert a == x[..|a|] && b == y[..|b|];
    assert s == x[|a| + 1..] && t == y[|b| + 1..];
  }

  /** A text starts with some parts and a slash exactly when they are its first parts, and not its only ones. */
  lemma {:induction false} JoinPrefix(parts: seq<Bytes>, p: seq<Bytes>)
    requires parts != [] && p != [] && AllSlashFree(parts) && AllSlashFree(p)
    ensures StartsWith(Join(parts), Join(p) + [SLASH]) <==> |p| < |parts| && parts[..|p|] == p
    decreases |p|
  {
    var text, prefix := Join(parts), Join(p) + [SLASH];
    if |parts| == 1 {
      NoSlashPrefix(text, Join(p));
    } else {
      var rest := Join(parts[1..]);
      if |p| == 1 {
        if StartsWith(text, prefix) {
          assert text == prefix + text[|prefix|..];
          FirstSlash(parts[0], rest, p[0], text[|prefix|..]);
        }
        if parts[0] == p[0] { assert text[..|prefix|] == prefix; }
        assert parts[..1] == p <==> parts[0] == p[0];
      } else {
        var tail := Join(p[1..]) + [SLASH];
        assert prefix == p[0] + [SLASH] + tail;
        JoinPrefix(parts[1..], p[1..]);
        PrefixOfPair(parts[0], rest, p[0], tail);
        HeadAndTail(parts, p);
      }
    }
  }

  lemma PrefixOfPair(a: Bytes, s: Bytes, b: Bytes, t: Bytes)
    requires SlashFree(a) && SlashFree(b)
    ensures StartsWith(a + [SLASH] + s, b + [SLASH] + t) <==> a == b && StartsWith(s, t)
  {
    var x, y := a + [SLASH] + s, b + [SLASH] + t;
    if StartsWith(x, y) {
      assert x == b + [SLASH] + (t + x[|y|..]);
      FirstSlash(a, s, b, t + x[|y|..]);
    }
    if a == b && StartsWith(s, t) { assert x[..|y|] == y; }
  }

  lemma HeadAndTail(parts: seq<Bytes>, p: seq<Bytes>)
    requires |parts| > 1 && |p| > 1
    ensures |p| < |parts| && parts[..|p|] == p <==>
            parts[0] == p[0] && |p[1..]| < |parts[1..]| && parts[1..][..|p[1..]|] == p[1..]
  {
    if |p| < |parts| {
      assert parts[..|p|] == [parts[0]] + parts[1..][..|p| - 1];
      assert p == [p[0]] + p[1..];
    }
  }

  lemma {:induction false} JoinInjective(a: seq<Bytes>, b: seq<Bytes>)
    requires a != [] && b != [] && AllSlashFree(a) && AllSlashFree(b) && Join(a) == Join(b)
    ensures a == b
  {
    if |a| == 1 {
      if |b| > 1 { JoinHasSlash(b); }
    } else if |b| == 1 {
      JoinHasSlash(a);
    } else {
      FirstSlash(a[0], Join(a[1..]), b[0], Join(b[1..]));
      JoinInjective(a[1..], b[1..]);
      assert a == [a[0]] + a[1..] && b == [b[0]] + b[1..];
    }
  }

  lemma JoinHasSlash(parts: seq<Bytes>)
    requires |parts| > 1
    ensures !SlashFree(Join(parts))
  {
    assert Join(parts)[|parts[0]|] == SLASH;
  }

  lemma JoinTwo(a: Bytes, b: Bytes)
    ensures Join([a, b]) == a + [SLASH] + b
  {
    assert [a, b][1..] == [b];
  }

  lemma JoinThree(a: Bytes, b: Bytes, c: Bytes)
    ensures Join([a, b, c]) == a + [SLASH] + (b + [SLASH] + c)
  {
    assert [a, b, c][1..] == [b, c];
    JoinTwo(b, c);
  }

  lemma EntryInjective(a: EntryKey, b: EntryKey, h: Digests)
    requires h.Valid() && EntryParts(a, h) == EntryParts(b, h)
    ensures a == b
  {
    assert EntryParts(a, h)[0] == EntryParts(b, h)[0];
    assert EntryParts(a, h)[1] == EntryParts(b, h)[1];
    if !a.TermsOf? {
      assert EntryParts(a, h)[2] == EntryParts(b, h)[2];
      PaddedSame(a.block, b.block, 8);
      if a.VectorBlock? { PaddedSame(a.cluster, b.cluster, 4); } else {
        assert EntryParts(a, h)[3] == EntryParts(b, h)[3];
      }
    }
  }

  lemma PaddedSame(m: nat, n: nat, width: nat)
    ensures Padded(m, width) == Padded(n, width) <==> m == n
  {
    if Padded(m, width) == Padded(n, width) { PaddedInjective(m, n, width); }
  }

  lemma PartsInjective(a: Key, b: Key, h: Digests)
    requires h.Valid() && Parts(a, h) == Parts(b, h)
    ensures a == b
  {
    assert Parts(a, h)[0] == Parts(b, h)[0];
    assert Parts(a, h)[1] == Parts(b, h)[1];
    match a
    case GenerationKey(ns, g, e) =>
      assert Parts(a, h)[2] == Parts(b, h)[2];
      assert EntryParts(e, h) == Parts(a, h)[3..] == Parts(b, h)[3..] == EntryParts(b.entry, h);
      EntryInjective(e, b.entry, h);
    case DocumentKey(_, _) => assert Parts(a, h)[2] == Parts(b, h)[2];
    case VectorKey(_, _) => assert Parts(a, h)[2] == Parts(b, h)[2];
    case ChangeKey(_, _) => assert Parts(a, h)[2] == Parts(b, h)[2];
    case _ =>
  }

  /** Different keys have different texts. */
  lemma RenderedInjective(a: Key, b: Key, h: Digests)
    requires ValidKey(a) && ValidKey(b) && h.Valid() && Rendered(a, h) == Rendered(b, h)
    ensures a == b
  {
    PartsSlashFree(a, h);
    PartsSlashFree(b, h);
    JoinInjective(Parts(a, h), Parts(b, h));
    PartsInjective(a, b, h);
  }

  // ---------------------------------------------------------------------------------------------
  // What prefix scans see

  /** The prefix <family>/<namespace>/ of one family of keys. */
  function Prefix(family: byte, ns: Id): Bytes {
    [family] + [SLASH] + ns + [SLASH]
  }

  lemma PrefixIsJoin(family: byte, ns: Id)
    ensures Prefix(family, ns) == Join([[family], ns]) + [SLASH]
  {
    JoinTwo([family], ns);
  }

  lemma ScanOfParts(k: Key, family: byte, ns: Id, h: Digests)
    requires ValidKey(k) && ValidId(ns) && h.Valid() && family != SLASH
    ensures StartsWith(Rendered(k, h), Prefix(family, ns)) <==>
            |Parts(k, h)| > 2 && Parts(k, h)[0] == [family] && Parts(k, h)[1] == ns
  {
    PartsSlashFree(k, h);
    IdSlashFree(ns);
    PrefixIsJoin(family, ns);
    JoinPrefix(Parts(k, h), [[family], ns]);
    if |Parts(k, h)| > 2 { assert Parts(k, h)[..2] == [Parts(k, h)[0], Parts(k, h)[1]]; }
  }

  /** Scanning a family of one namespace sees all keys of that family and namespace and no other key, also
      when the name of one namespace starts with the name of another. */
  lemma FamilyScan(k: Key, ns: Id, h: Digests)
    requires ValidKey(k) && ValidId(ns) && h.Valid()
    ensures StartsWith(Rendered(k, h), Prefix(100, ns)) <==> k.DocumentKey? && k.ns == ns
    ensures StartsWith(Rendered(k, h), Prefix(118, ns)) <==> k.VectorKey? && k.ns == ns
    ensures StartsWith(Rendered(k, h), Prefix(99, ns)) <==> k.ChangeKey? && k.ns == ns
    ensures StartsWith(Rendered(k, h), Prefix(103, ns)) <==> k.GenerationKey? && k.ns == ns
  {
    ScanOfParts(k, 100, ns, h);
    ScanOfParts(k, 118, ns, h);
    ScanOfParts(k, 99, ns, h);
    ScanOfParts(k, 103, ns, h);
  }

  /** The text g/<namespace>/<generation>/ starts exactly the keys of that generation; with the empty
      generation of an index that was never built, none. */
  lemma RootScan(k: Key, ns: Id, generation: Id, h: Digests)
    requires ValidKey(k) && ValidId(ns) && h.Valid() && (ValidId(generation) || generation == [])
    ensures StartsWith(Rendered(k, h), Prefix(103, ns) + generation + [SLASH]) <==>
            k.GenerationKey? && k.ns == ns && k.generation == generation
  {
    var p := [[103], ns, generation];
    var parts := Parts(k, h);
    PartsSlashFree(k, h);
    IdSlashFree(ns);
    if generation != [] { IdSlashFree(generation); }
    assert Join(p) + [SLASH] == Prefix(103, ns) + generation + [SLASH] by {
      JoinThree([103], ns, generation);
    }
    JoinPrefix(parts, p);
    if |parts| > 3 { assert parts[..3] == [parts[0], parts[1], parts[2]]; }
  }

  /** The parts of a key that come before the number of a block. */
  function ListParts(ns: Id, generation: Id, list: List, h: Digests): (r: seq<Bytes>)
    ensures r != []
  {
    [[103], ns, generation] +
    match list
    case EqList(f, v) => [[101], h.text(f), h.value(v)]
    case NumList(f, n) => [[114], h.text(f), n]
    case TermList(f, t) => [[116], h.text(f), h.text(t)]
  }

  /** The prefix under which the blocks of one list are scanned. */
  function ListPrefix(ns: Id, generation: Id, list: List, h: Digests): Bytes {
    Join(ListParts(ns, generation, list, h)) + [SLASH]
  }

  /** Scanning the text of a list sees exactly the blocks of that list in that generation. */
  lemma ListScan(k: Key, ns: Id, generation: Id, list: List, h: Digests)
    requires ValidKey(k) && ValidId(ns) && ValidId(generation) && h.Valid() && ValidEntry(Block(list, 0))
    ensures StartsWith(Rendered(k, h), ListPrefix(ns, generation, list, h)) <==>
            && k.GenerationKey? && k.ns == ns && k.generation == generation
            && k.entry.Block? && k.entry.list == list
  {
    var p, parts := ListParts(ns, generation, list, h), Parts(k, h);
    PartsSlashFree(k, h);
    PartsSlashFree(GenerationKey(ns, generation, Block(list, 0)), h);
    assert AllSlashFree(p) by {
      forall i | 0 <= i < 6 ensures p[i] == Parts(GenerationKey(ns, generation, Block(list, 0)), h)[i] {}
    }
    JoinPrefix(parts, p);
    SixParts(k, ns, generation, list, h);
  }

  lemma SixParts(k: Key, ns: Id, generation: Id, list: List, h: Digests)
    requires h.Valid()
    ensures 6 < |Parts(k, h)| && Parts(k, h)[..6] == ListParts(ns, generation, list, h) <==>
            && k.GenerationKey? && k.ns == ns && k.generation == generation
            && k.entry.Block? && k.entry.list == list
  {
    var p, parts := ListParts(ns, generation, list, h), Parts(k, h);
    if 6 < |parts| && parts[..6] == p {
      assert forall i :: 0 <= i < 6 ==> parts[i] == p[i];
      assert k.GenerationKey?;
      assert EntryParts(k.entry, h) == parts[3..] && [EntryParts(k.entry, h)[0]] == [p[3]];
      assert EntryParts(k.entry, h)[1] == p[4] && EntryParts(k.entry, h)[2] == p[5];
      assert k.entry.Block?;
      assert k.ns == parts[1] && k.generation == parts[2];
    }
    if k.GenerationKey? && k.ns == ns && k.generation == generation && k.entry.Block? && k.entry.list == list {
      assert parts == p + [BlockText(k.entry.block)];
      assert parts[..6] == p;
    }
  }

  /** The prefix under which the numeric lists of one field are scanned. */
  function FieldPrefix(ns: Id, generation: Id, field: string, h: Digests): Bytes {
    Join([[103], ns, generation, [114], h.text(field)]) + [SLASH]
  }

  /** Scanning the text of a field sees exactly the blocks of its numeric lists, and what follows the prefix is
      the number and the block. */
  lemma FieldScan(k: Key, ns: Id, generation: Id, field: string, h: Digests)
    requires ValidKey(k) && ValidId(ns) && ValidId(generation) && h.Valid()
    ensures StartsWith(Rendered(k, h), FieldPrefix(ns, generation, field, h)) <==>
            && k.GenerationKey? && k.ns == ns && k.generation == generation
            && k.entry.Block? && k.entry.list.NumList? && k.entry.list.field == field
    ensures StartsWith(Rendered(k, h), FieldPrefix(ns, generation, field, h)) ==>
              Rendered(k, h) ==
              FieldPrefix(ns, generation, field, h) + (k.entry.list.number + [SLASH] + BlockText(k.entry.block))
  {
    var p, parts := [[103], ns, generation, [114], h.text(field)], Parts(k, h);
    PartsSlashFree(k, h);
    IdSlashFree(ns);
    IdSlashFree(generation);
    JoinPrefix(parts, p);
    if 5 < |parts| && parts[..5] == p {
      assert forall i :: 0 <= i < 5 ==> parts[i] == p[i];
      assert k.GenerationKey?;
      assert EntryParts(k.entry, h) == parts[3..] && EntryParts(k.entry, h)[0] == p[3];
      assert EntryParts(k.entry, h)[1] == p[4] && k.ns == parts[1] && k.generation == parts[2];
      assert k.entry.Block? && k.entry.list.NumList?;
      assert parts == p + [k.entry.list.number, BlockText(k.entry.block)];
      JoinAppend(p, [k.entry.list.number, BlockText(k.entry.block)]);
      JoinTwo(k.entry.list.number, BlockText(k.entry.block));
    }
    if k.GenerationKey? && k.ns == ns && k.generation == generation && k.entry.Block? && k.entry.list.NumList? &&
       k.entry.list.field == field {
      assert parts == p + [k.entry.list.number, BlockText(k.entry.block)];
      assert parts[..5] == p;
    }
  }

  lemma {:induction false} JoinAppend(p: seq<Bytes>, q: seq<Bytes>)
    requires p != [] && q != []
    ensures Join(p + q) == Join(p) + [SLASH] + Join(q)
  {
    if |p| == 1 {
      assert (p + q)[1..] == q;
    } else {
      assert (p + q)[1..] == p[1..] + q;
      JoinAppend(p[1..], q);
    }
  }

  /** Within a family and a namespace, key order is ID order. */
  lemma FamilyOrder(ns: Id, a: Id, b: Id, h: Digests)
    ensures Below(Rendered(DocumentKey(ns, a), h), Rendered(DocumentKey(ns, b), h)) <==> Below(a, b)
    ensures Below(Rendered(VectorKey(ns, a), h), Rendered(VectorKey(ns, b), h)) <==> Below(a, b)
    ensures Below(Rendered(ChangeKey(ns, a), h), Rendered(ChangeKey(ns, b), h)) <==> Below(a, b)
    ensures Below(Rendered(NamespaceKey(a), h), Rendered(NamespaceKey(b), h)) <==> Below(a, b)
  {
    RowText(ns, a, h);
    RowText(ns, b, h);
    BelowAfterPrefix(Prefix(100, ns), a, b);
    BelowAfterPrefix(Prefix(118, ns), a, b);
    BelowAfterPrefix(Prefix(99, ns), a, b);
    BelowAfterPrefix([110, SLASH], a, b);
    JoinTwo([110], a);
    JoinTwo([110], b);
    assert [110] + [SLASH] == [110, SLASH];
  }

  lemma RowText(ns: Id, id: Id, h: Digests)
    ensures Rendered(DocumentKey(ns, id), h) == Prefix(100, ns) + id
    ensures Rendered(VectorKey(ns, id), h) == Prefix(118, ns) + id
    ensures Rendered(ChangeKey(ns, id), h) == Prefix(99, ns) + id
  {
    JoinThree([100], ns, id);
    JoinThree([118], ns, id);
    JoinThree([99], ns, id);
  }
}
