/** Documents, schemas and filters: the entities of the API and the checks made on them. */
module Model {
  import opened Order
  import opened Wrappers
  import opened Numbers
  import opened Sums

  const MAX_DOCUMENT_BYTES: nat := 256 * 1024
  const MAX_BODY_BYTES: nat := 8 * 1024 * 1024
  const MAX_BATCH_OPERATIONS: nat := 1000
  const MAX_DIMENSIONS: nat := 4096
  const MAX_PAGE_SIZE: nat := 1000

  type Id = Bytes

  predicate IdByte(c: byte) {
    48 <= c <= 57 || 65 <= c <= 90 || 97 <= c <= 122 || c == 95 || c == 45
  }

  predicate ValidId(id: Id) {
    1 <= |id| <= 128 && forall i :: 0 <= i < |id| ==> IdByte(id[i])
  }

  /** A 32-bit float by its pattern. */
  type F32 = n: nat | n < 0x1_0000_0000

  type Vector = seq<F32>

  predicate Finite32(x: F32) {
    (x / 0x80_0000) % 256 != 255
  }

  predicate Zero32(x: F32) {
    x == 0 || x == 0x8000_0000
  }

  /** Parsed JSON. Objects list their members in name order, as the map that holds them does. */
  datatype Json =
    | Null
    | Bool(b: bool)
    | PosInt(p: nat)
    | NegInt(n: nat)
    | Float(bits: Bits)
    | Str(s: string)
    | Arr(items: seq<Json>)
    | Obj(members: seq<(string, Json)>)

  predicate WellFormed(v: Json) {
    match v
    case PosInt(p) => p < TWO64
    case NegInt(n) => 0 < n <= TWO63
    case Float(b) => Finite(b)
    case Arr(items) => forall i :: 0 <= i < |items| ==> WellFormed(items[i])
    case Obj(members) => forall i :: 0 <= i < |members| ==> WellFormed(members[i].1)
    case _ => true
  }

  /** Equality of parsed JSON: kinds of numbers are distinct, and floats compare as numbers. */
  predicate JsonEq(a: Json, b: Json) {
    match (a, b)
    case (Float(x), Float(y)) => Value(x) == Value(y)
    case (Arr(s), Arr(t)) => |s| == |t| && forall i :: 0 <= i < |s| ==> JsonEq(s[i], t[i])
    case (Obj(s), Obj(t)) =>
      |s| == |t| && forall i :: 0 <= i < |s| ==> s[i].0 == t[i].0 && JsonEq(s[i].1, t[i].1)
    case _ => a == b
  }

  /** The value whose text is digested into an equality key: every zero float becomes positive. */
  function Canonical(v: Json): Json {
    match v
    case Float(b) => if Zero(b) then Float(0) else v
    case Arr(items) => Arr(seq(|items|, i requires 0 <= i < |items| => Canonical(items[i])))
    case Obj(members) =>
      Obj(seq(|members|, i requires 0 <= i < |members| => (members[i].0, Canonical(members[i].1))))
    case _ => v
  }

  /** Two values are equal exactly when their canonical forms are the same. */
  lemma {:induction false} CanonicalDecidesEquality(a: Json, b: Json)
    ensures JsonEq(a, b) <==> Canonical(a) == Canonical(b)
  {
    match (a, b)
    case (Float(x), Float(y)) =>
      ValueInjective(x, y);
      ValueInjective(y, x);
    case (Arr(s), Arr(t)) =>
      forall i | 0 <= i < |s| && i < |t| ensures JsonEq(s[i], t[i]) <==> Canonical(s[i]) == Canonical(t[i]) {
        CanonicalDecidesEquality(s[i], t[i]);
      }
      if Canonical(a) == Canonical(b) {
        forall i | 0 <= i < |s| ensures JsonEq(s[i], t[i]) {
          assert Canonical(a).items[i] == Canonical(b).items[i];
        }
      }
    case (Obj(s), Obj(t)) =>
      forall i | 0 <= i < |s| && i < |t|
        ensures JsonEq(s[i].1, t[i].1) <==> Canonical(s[i].1) == Canonical(t[i].1)
      {
        CanonicalDecidesEquality(s[i].1, t[i].1);
      }
      if Canonical(a) == Canonical(b) {
        forall i | 0 <= i < |s| ensures s[i].0 == t[i].0 && JsonEq(s[i].1, t[i].1) {
          assert Canonical(a).members[i] == Canonical(b).members[i];
        }
      }
    case _ =>
  }

  /** The number as a double, when the value is one. */
  function AsDouble(v: Json): (r: Option<Bits>)
    requires WellFormed(v)
    ensures r.Some? ==> Finite(r.value)
  {
    match v
    case PosInt(p) => Some(FromNat(p))
    case NegInt(n) => NegatedFinite(FromNat(n)); Some(TWO63 + FromNat(n))
    case Float(b) => Some(b)
    case _ => None
  }

  type Attributes = map<string, Json>

  predicate WellFormedAttributes(a: Attributes) {
    forall f :: f in a ==> WellFormed(a[f])
  }

  datatype Range = Range(gte: Option<Bits>, lte: Option<Bits>)

  datatype Filter = Filter(eq: map<string, Json>, range: map<string, Range>)
  {
    predicate Valid() {
      && |eq| + |range| <= 64
      && (forall f :: f in eq ==> WellFormed(eq[f]))
      && forall f :: f in range ==>
           var r := range[f];
           && !(r.gte.None? && r.lte.None?)
           && (r.gte.Some? ==> Finite(r.gte.value))
           && (r.lte.Some? ==> Finite(r.lte.value))
           && (r.gte.Some? && r.lte.Some? ==> Value(r.gte.value) <= Value(r.lte.value))
    }

    predicate Matches(attributes: Attributes)
      requires WellFormedAttributes(attributes)
    {
      && (forall f :: f in eq ==> f in attributes && JsonEq(attributes[f], eq[f]))
      && forall f :: f in range ==>
           && f in attributes
           && AsDouble(attributes[f]).Some?
           && Within(AsDouble(attributes[f]).value, range[f].gte, range[f].lte)
    }

    predicate Unconstrained() {
      eq == map[] && range == map[]
    }
  }

  datatype Metric = Cosine | Dot | SquaredEuclidean

  /** The same rule for names given as text: any other character takes bytes that no name has. */
  predicate ValidName(name: string) {
    1 <= |name| <= 128 && forall i :: 0 <= i < |name| ==> name[i] as int < 128 && IdByte(name[i] as byte)
  }

  datatype Schema = Schema(dimensions: Option<nat>, metric: Metric, textFields: seq<string>)
  {
    predicate Valid() {
      && |textFields| <= 16
      && (forall i :: 0 <= i < |textFields| ==> ValidName(textFields[i]))
      && (forall i, j :: 0 <= i < j < |textFields| ==> textFields[i] != textFields[j])
      && (dimensions.Some? ==> 1 <= dimensions.value <= MAX_DIMENSIONS)
    }

    predicate ValidVector(v: Vector) {
      && dimensions.Some?
      && |v| == dimensions.value
      && (forall i :: 0 <= i < |v| ==> Finite32(v[i]))
      && (metric.Cosine? ==> exists i :: 0 <= i < |v| && !Zero32(v[i]))
    }
  }

  /** What Unicode says about characters: which ones belong to a word, and lower case. */
  datatype Unicode = Unicode(alphanumeric: char -> bool, lower: string -> string)

  datatype Terms = Terms(length: nat, frequencies: map<string, nat>)

  /** The maximal runs of word characters of open + text, where open is a run in progress. */
  function Words(u: Unicode, open: string, text: string): seq<string>
    decreases text
  {
    if text == [] then if open == [] then [] else [open]
    else if u.alphanumeric(text[0]) then Words(u, open + [text[0]], text[1..])
    else (if open == [] then [] else [open]) + Words(u, [], text[1..])
  }

  /** A stretch of a text: from start up to end. */
  datatype Span = Span(start: nat, end: nat)

  /** Word characters without a gap, and none next to them on either side. */
  predicate MaximalRun(u: Unicode, text: string, s: Span) {
    && s.start < s.end <= |text|
    && (forall i :: s.start <= i < s.end ==> u.alphanumeric(text[i]))
    && (s.start > 0 ==> !u.alphanumeric(text[s.start - 1]))
    && (s.end < |text| ==> !u.alphanumeric(text[s.end]))
  }

  predicate NoWord(u: Unicode, text: string, from: nat, to: nat) {
    from <= to <= |text| && forall i :: from <= i < to ==> !u.alphanumeric(text[i])
  }

  /** From some place on, the words are the maximal runs in order, and there is no word character outside them. */
  ghost predicate AreRuns(u: Unicode, text: string, from: nat, spans: seq<Span>, words: seq<string>)
    decreases |spans|
  {
    && |spans| == |words|
    && if spans == [] then NoWord(u, text, from, |text|) else
         && MaximalRun(u, text, spans[0]) && NoWord(u, text, from, spans[0].start)
         && words[0] == text[spans[0].start..spans[0].end]
         && AreRuns(u, text, spans[0].end, spans[1..], words[1..])
  }

  /** The words of a text are its maximal runs of word characters, in order. */
  lemma WordsAreMaximalRuns(u: Unicode, text: string)
    ensures exists spans :: AreRuns(u, text, 0, spans, Words(u, [], text))
  {
    assert text[0..] == text && text[0..0] == [];
    var spans := RunsFrom(u, text, 0, 0);
  }

  lemma {:induction false} RunsFrom(u: Unicode, text: string, from: nat, i: nat) returns (spans: seq<Span>)
    requires from <= i <= |text| && forall k :: from <= k < i ==> u.alphanumeric(text[k])
    requires from > 0 ==> !u.alphanumeric(text[from - 1])
    ensures AreRuns(u, text, from, spans, Words(u, text[from..i], text[i..]))
    decreases |text| - i
  {
    NextWord(u, text, from, i);
    if i == |text| {
      spans := LastRun(u, text, from);
    } else if u.alphanumeric(text[i]) {
      spans := RunsFrom(u, text, from, i + 1);
    } else {
      var rest := RunsFrom(u, text, i + 1, i + 1);
      spans := RunBefore(u, text, from, i, rest, Words(u, text[i + 1..i + 1], text[i + 1..]));
    }
  }

  lemma NextWord(u: Unicode, text: string, from: nat, i: nat)
    requires from <= i <= |text|
    ensures Words(u, text[from..i], text[i..]) ==
            if i == |text| then if from == i then [] else [text[from..i]]
            else if u.alphanumeric(text[i]) then Words(u, text[from..i + 1], text[i + 1..])
            else (if text[from..i] == [] then [] else [text[from..i]]) + Words(u, text[i + 1..i + 1], text[i + 1..])
  {
    if i < |text| {
      assert text[i..][0] == text[i] && text[i..][1..] == text[i + 1..];
      assert text[from..i] + [text[i]] == text[from..i + 1] && text[i + 1..i + 1] == [];
    }
  }

  lemma LastRun(u: Unicode, text: string, from: nat) returns (spans: seq<Span>)
    requires from <= |text| && forall k :: from <= k < |text| ==> u.alphanumeric(text[k])
    requires from > 0 ==> !u.alphanumeric(text[from - 1])
    ensures AreRuns(u, text, from, spans, if from == |text| then [] else [text[from..|text|]])
  {
    spans := if from == |text| then [] else [Span(from, |text|)];
  }

  lemma RunBefore(u: Unicode, text: string, from: nat, i: nat, rest: seq<Span>, words: seq<string>)
    returns (spans: seq<Span>)
    requires from <= i < |text| && !u.alphanumeric(text[i]) && AreRuns(u, text, i + 1, rest, words)
    requires from > 0 ==> !u.alphanumeric(text[from - 1])
    requires forall k :: from <= k < i ==> u.alphanumeric(text[k])
    ensures AreRuns(u, text, from, spans, (if text[from..i] == [] then [] else [text[from..i]]) + words)
  {
    assert AreRuns(u, text, i, rest, words);
    if from == i {
      spans := rest;
      assert [] + words == words;
    } else {
      spans := [Span(from, i)] + rest;
      assert spans[1..] == rest && ([text[from..i]] + words)[1..] == words;
    }
  }

  function Count(u: Unicode, t: Terms, word: string): Terms {
    var term := u.lower(word);
    Terms(t.length + 1, t.frequencies[term := (if term in t.frequencies then t.frequencies[term] else 0) + 1])
  }

  function Tally(u: Unicode, words: seq<string>): Terms {
    if words == [] then Terms(0, map[])
    else Count(u, Tally(u, words[..|words| - 1]), words[|words| - 1])
  }

  function Tokens(u: Unicode, text: string): Terms {
    Tally(u, Words(u, [], text))
  }

  /** Every frequency is at least one, and together they make up the length. */
  lemma {:induction false} TallyAddsUp(u: Unicode, words: seq<string>)
    ensures var t := Tally(u, words);
            && t.length == |words|
            && Total(t.frequencies) == t.length
            && forall w :: w in t.frequencies ==> 1 <= t.frequencies[w] <= t.length
  {
    if words != [] {
      var rest := words[..|words| - 1];
      TallyAddsUp(u, rest);
      var t := Tally(u, rest);
      var term := u.lower(words[|words| - 1]);
      TotalUpdate(t.frequencies, term, (if term in t.frequencies then t.frequencies[term] else 0) + 1);
    }
  }

  /** The tokenizer: split at every character that is not part of a word, count lower-cased words. */
  method Tokenize(u: Unicode, text: string) returns (result: Terms)
    ensures result == Tokens(u, text)
    ensures Total(result.frequencies) == result.length
  {
    var i := 0;
    var open: string := [];
    result := Terms(0, map[]);
    ghost var words: seq<string> := [];
    while i < |text|
      invariant 0 <= i <= |text|
      invariant Words(u, [], text) == words + Words(u, open, text[i..])
      invariant result == Tally(u, words)
    {
      var c := text[i];
      assert text[i..][1..] == text[i + 1..];
      if u.alphanumeric(c) {
        open := open + [c];
      } else if open != [] {
        ghost var more := words + [open];
        assert more[..|more| - 1] == words;
        assert words + ([open] + Words(u, [], text[i + 1..])) == more + Words(u, [], text[i + 1..]);
        result := Count(u, result, open);
        words := more;
        open := [];
      } else {
        assert [] + Words(u, [], text[i + 1..]) == Words(u, [], text[i + 1..]);
      }
      i := i + 1;
    }
    if open != [] {
      ghost var more := words + [open];
      assert more[..|more| - 1] == words;
      result := Count(u, result, open);
      words := more;
    }
    TallyAddsUp(u, words);
    assert words == Words(u, [], text);
  }

  /** The tokenized text of those schema fields that are strings in the document. */
  function DocumentTerms(u: Unicode, attributes: Attributes, fields: seq<string>): map<string, Terms> {
    map f | f in fields && f in attributes && attributes[f].Str? :: Tokens(u, attributes[f].s)
  }
}
