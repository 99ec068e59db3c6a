/**
  The canonical serialisation that every control hash is computed over:
  normalize_for_hash, canonical_json and canonical_hash.

  Text is a sequence of code points, so that the isolated surrogates the source
  rejects can be written down.
  */
module CanonicalJson {
  import opened Basics

  type CodePoint = n: int | 0 <= n <= 0x10FFFF
  type Text = seq<CodePoint>

  // ----- Values -------------------------------------------------------------

  /** A mapping key: a string, or something else (which normalisation rejects). */
  datatype Key = StrKey(text: Text) | OtherKey

  datatype Member = Member(key: Key, value: Value)

  /**
    The values a hash payload is built from. An object keeps its insertion order.
    A finite float is given by its shortest round-trip literal.
    */
  datatype Value =
    | Null
    | Bool(b: bool)
    | Int(i: int)
    | Float(literal: FloatText)
    | NonFinite
    | Str(s: Text)
    | Arr(items: seq<Value>)
    | Obj(members: seq<Member>)
    | Unsupported

  datatype NormError =
    | InvalidUnicodeScalar
    | NonFiniteNumber
    | NonStringKey
    | NormalizedKeyCollision
    | UnsupportedValue

  const LF: CodePoint := 0x0A
  const CR: CodePoint := 0x0D
  const QUOTE: CodePoint := 0x22
  const PLUS: CodePoint := 0x2B
  const COMMA: CodePoint := 0x2C
  const MINUS: CodePoint := 0x2D
  const DOT: CodePoint := 0x2E
  const ZERO: CodePoint := 0x30
  const COLON: CodePoint := 0x3A
  const LBRACKET: CodePoint := 0x5B
  const BACKSLASH: CodePoint := 0x5C
  const RBRACKET: CodePoint := 0x5D
  const LBRACE: CodePoint := 0x7B
  const RBRACE: CodePoint := 0x7D
  const LETTER_E: CodePoint := 0x65

  predicate IsDigit(c: CodePoint) { 0x30 <= c <= 0x39 }

  predicate IsNumberChar(c: CodePoint) { IsDigit(c) || c in {PLUS, MINUS, DOT, LETTER_E} }

  /** The shape of a finite float literal: it can never be read as an integer literal. */
  predicate IsFloatText(t: Text) {
    && t != []
    && (IsDigit(t[0]) || t[0] == MINUS)
    && (forall c :: c in t ==> IsNumberChar(c))
    && (DOT in t || LETTER_E in t)
  }

  type FloatText = t: Text | IsFloatText(t) witness [0x30, 0x2E, 0x30]

  // ----- Normalisation --------------------------------------------------------

  predicate IsSurrogate(c: CodePoint) { 0xD800 <= c <= 0xDFFF }

  function ReplaceCrLf(s: Text): Text {
    if s == [] then []
    else if |s| >= 2 && s[0] == CR && s[1] == LF then [LF] + ReplaceCrLf(s[2..])
    else [s[0]] + ReplaceCrLf(s[1..])
  }

  function ReplaceCr(s: Text): Text {
    if s == [] then [] else [if s[0] == CR then LF else s[0]] + ReplaceCr(s[1..])
  }

  function NormalString(s: Text): Result<Text, NormError> {
    var t := ReplaceCr(ReplaceCrLf(s));
    if exists c :: c in t && IsSurrogate(c) then Err(InvalidUnicodeScalar) else Ok(t)
  }

  function Normalize(v: Value): Result<Value, NormError>
    decreases v, 0
  {
    match v
    case Null | Bool(_) | Int(_) | Float(_) => Ok(v)
    case NonFinite => Err(NonFiniteNumber)
    case Unsupported => Err(UnsupportedValue)
    case Str(s) =>
      (match NormalString(s) case Ok(t) => Ok(Str(t)) case Err(e) => Err(e))
    case Arr(items) =>
      (match NormalizeItems(items) case Ok(ns) => Ok(Arr(ns)) case Err(e) => Err(e))
    case Obj(members) =>
      (match NormalizeMembers(members, {}) case Ok(ns) => Ok(Obj(ns)) case Err(e) => Err(e))
  }

  function NormalizeItems(items: seq<Value>): Result<seq<Value>, NormError>
    decreases items, 0
  {
    if items == [] then Ok([]) else
      match Normalize(items[0])
      case Err(e) => Err(e)
      case Ok(n) =>
        match NormalizeItems(items[1..])
        case Err(e) => Err(e)
        case Ok(rest) => Ok([n] + rest)
  }

  /** Normalises the members in insertion order; `seen` holds the keys already produced. */
  function NormalizeMembers(members: seq<Member>, seen: set<Text>): Result<seq<Member>, NormError>
    decreases members, 0
  {
    if members == [] then Ok([]) else
      match members[0]
      case Member(OtherKey, _) => Err(NonStringKey)
      case Member(StrKey(text), value) =>
        match NormalString(text)
        case Err(e) => Err(e)
        case Ok(key) =>
          if key in seen then Err(NormalizedKeyCollision) else
            assert members decreases to members[0];
            match Normalize(value)
            case Err(e) => Err(e)
            case Ok(n) =>
              match NormalizeMembers(members[1..], seen + {key})
              case Err(e) => Err(e)
              case Ok(rest) => Ok([Member(StrKey(key), n)] + rest)
  }

  // ----- What a normal value is -------------------------------------------------

  predicate NormalText(s: Text) { forall c :: c in s ==> c != CR && !IsSurrogate(c) }

  predicate DistinctKeys(ms: seq<Member>) {
    forall i, j :: 0 <= i < j < |ms| ==> ms[i].key != ms[j].key
  }

  predicate Normal(v: Value) {
    match v
    case Null | Bool(_) | Int(_) | Float(_) => true
    case NonFinite | Unsupported => false
    case Str(s) => NormalText(s)
    case Arr(items) => forall i :: 0 <= i < |items| ==> Normal(items[i])
    case Obj(ms) =>
      && DistinctKeys(ms)
      && forall i :: 0 <= i < |ms| ==> ms[i].key.StrKey? && NormalText(ms[i].key.text) && Normal(ms[i].value)
  }

  predicate NormalMember(m: Member) { m.key.StrKey? && NormalText(m.key.text) && Normal(m.value) }

  lemma {:induction false} ReplaceCrRemovesCr(s: Text)
    ensures CR !in ReplaceCr(s)
    ensures CR !in s ==> ReplaceCr(s) == s
  {
    if s != [] { ReplaceCrRemovesCr(s[1..]); }
  }

  lemma {:induction false} ReplaceCrLfKeepsPlain(s: Text)
    requires CR !in s
    ensures ReplaceCrLf(s) == s
  {
    if s != [] { ReplaceCrLfKeepsPlain(s[1..]); }
  }

  lemma NormalStringIsNormal(s: Text)
    ensures NormalString(s).Ok? ==> NormalText(NormalString(s).value)
    ensures NormalText(s) ==> NormalString(s) == Ok(s)
  {
    ReplaceCrRemovesCr(ReplaceCrLf(s));
    if NormalText(s) {
      ReplaceCrLfKeepsPlain(s);
      ReplaceCrRemovesCr(s);
    }
  }

  /** Whatever normalisation returns is normal. */
  lemma {:induction false} NormalizeIsNormal(v: Value)
    ensures Normalize(v).Ok? ==> Normal(Normalize(v).value)
    decreases v, 0
  {
    match v {
      case Str(s) => NormalStringIsNormal(s);
      case Arr(items) => NormalizeItemsAreNormal(items);
      case Obj(members) => NormalizeMembersAreNormal(members, {});
      case _ =>
    }
  }

  lemma {:induction false} NormalizeItemsAreNormal(items: seq<Value>)
    ensures NormalizeItems(items).Ok? ==>
              forall i :: 0 <= i < |NormalizeItems(items).value| ==> Normal(NormalizeItems(items).value[i])
    decreases items, 0
  {
    if items != [] {
      NormalizeIsNormal(items[0]);
      NormalizeItemsAreNormal(items[1..]);
    }
  }

  lemma {:induction false} NormalizeMembersAreNormal(members: seq<Member>, seen: set<Text>)
    ensures var r := NormalizeMembers(members, seen);
            r.Ok? ==>
              && DistinctKeys(r.value)
              && forall i :: 0 <= i < |r.value| ==> NormalMember(r.value[i]) && r.value[i].key.text !in seen
    decreases members, 0
  {
    if members != [] && members[0].key.StrKey? {
      var Member(k, value) := members[0];
      assert members decreases to members[0];
      NormalStringIsNormal(k.text);
      NormalizeIsNormal(value);
      var key := NormalString(k.text);
      if key.Ok? {
        NormalizeMembersAreNormal(members[1..], seen + {key.value});
        var r := NormalizeMembers(members, seen);
        if r.Ok? {
          var rest := NormalizeMembers(members[1..], seen + {key.value}).value;
          forall j | 0 <= j < |rest| ensures rest[j].key != r.value[0].key {
            assert NormalMember(rest[j]);
          }
        }
      }
    }
  }

  /** A normal value is a fixed point of normalisation. */
  lemma {:induction false} NormalIsFixed(v: Value)
    requires Normal(v)
    ensures Normalize(v) == Ok(v)
    decreases v, 0
  {
    match v {
      case Str(s) => NormalStringIsNormal(s);
      case Arr(items) => NormalItemsAreFixed(items);
      case Obj(ms) => NormalMembersAreFixed(ms, {});
      case _ =>
    }
  }

  lemma {:induction false} NormalItemsAreFixed(items: seq<Value>)
    requires forall i :: 0 <= i < |items| ==> Normal(items[i])
    ensures NormalizeItems(items) == Ok(items)
    decreases items, 0
  {
    if items != [] {
      NormalIsFixed(items[0]);
      NormalItemsAreFixed(items[1..]);
      assert items == [items[0]] + items[1..];
    }
  }

  lemma {:induction false} NormalMembersAreFixed(ms: seq<Member>, seen: set<Text>)
    requires DistinctKeys(ms)
    requires forall i :: 0 <= i < |ms| ==> NormalMember(ms[i]) && ms[i].key.text !in seen
    ensures NormalizeMembers(ms, seen) == Ok(ms)
    decreases ms, 0
  {
    if ms != [] {
      assert NormalMember(ms[0]);
      var Member(key, value) := ms[0];
      assert ms decreases to ms[0];
      NormalStringIsNormal(key.text);
      NormalIsFixed(value);
      forall i | 0 <= i < |ms[1..]| ensures NormalMember(ms[1..][i]) && ms[1..][i].key.text !in seen + {ms[0].key.text} {
        assert NormalMember(ms[i + 1]) && ms[0].key != ms[i + 1].key;
      }
      NormalMembersAreFixed(ms[1..], seen + {ms[0].key.text});
      assert ms == [ms[0]] + ms[1..];
    }
  }

  /** normalize_for_hash is idempotent. */
  lemma NormalizeIdempotent(v: Value)
    requires Normalize(v).Ok?
    ensures Normalize(Normalize(v).value) == Ok(Normalize(v).value)
  {
    NormalizeIsNormal(v);
    NormalIsFixed(Normalize(v).value);
  }

  // ----- What normalisation makes of a value -------------------------------------------------

  /** One line break for every CR LF, CR or LF, in one pass. */
  function OneBreakEach(s: Text): Text
    decreases |s|
  {
    if s == [] then []
    else if s[0] != CR then [s[0]] + OneBreakEach(s[1..])
    else [LF] + OneBreakEach(if |s| > 1 && s[1] == LF then s[2..] else s[1..])
  }

  lemma {:induction false} TwoReplacementsAreOnePass(s: Text)
    ensures ReplaceCr(ReplaceCrLf(s)) == OneBreakEach(s)
    decreases |s|
  {
    if s != [] {
      var pair := |s| >= 2 && s[0] == CR && s[1] == LF;
      TwoReplacementsAreOnePass(if pair then s[2..] else s[1..]);
      assert ReplaceCrLf(s)[1..] == ReplaceCrLf(if pair then s[2..] else s[1..]);
    }
  }

  lemma {:induction false} BreaksKeepSurrogates(s: Text)
    ensures (exists c :: c in OneBreakEach(s) && IsSurrogate(c)) <==> exists c :: c in s && IsSurrogate(c)
    decreases |s|
  {
    if s != [] {
      var pair := |s| >= 2 && s[0] == CR && s[1] == LF;
      var rest := if pair then s[2..] else s[1..];
      BreaksKeepSurrogates(rest);
      assert s == (if pair then [CR, LF] else [s[0]]) + rest;
      assert OneBreakEach(s) == [if s[0] == CR then LF else s[0]] + OneBreakEach(rest);
    }
  }

  /** A text of scalar values, with one line break for every line break of the other. */
  ghost predicate TextNormalised(s: Text, t: Text) { t == OneBreakEach(s) && forall c :: c in s ==> !(0xD800 <= c <= 0xDFFF) }

  lemma NormalStringDecides(s: Text, t: Text)
    ensures NormalString(s) == Ok(t) <==> TextNormalised(s, t)
  {
    TwoReplacementsAreOnePass(s);
    BreaksKeepSurrogates(s);
  }

  /** Same shape and order, texts normalised, keys distinct strings. */
  ghost predicate Normalised(v: Value, n: Value)
    decreases v
  {
    match v
    case Null | Bool(_) | Int(_) | Float(_) => n == v
    case NonFinite | Unsupported => false
    case Str(s) => n.Str? && TextNormalised(s, n.s)
    case Arr(items) => n.Arr? && |n.items| == |items| && forall i :: 0 <= i < |items| ==> Normalised(items[i], n.items[i])
    case Obj(ms) =>
      && n.Obj? && |n.members| == |ms| && DistinctKeys(n.members)
      && forall i :: 0 <= i < |ms| ==>
           ms[i].key.StrKey? && n.members[i].key.StrKey? && TextNormalised(ms[i].key.text, n.members[i].key.text)
           && Normalised(ms[i].value, n.members[i].value)
  }

  ghost predicate MembersNormalised(ms: seq<Member>, ns: seq<Member>, seen: set<Text>) {
    && |ns| == |ms| && DistinctKeys(ns)
    && forall i :: 0 <= i < |ms| ==> MemberNormalised(ms[i], ns[i]) && ns[i].key.text !in seen
  }

  ghost predicate MemberNormalised(m: Member, n: Member) {
    m.key.StrKey? && n.key.StrKey? && TextNormalised(m.key.text, n.key.text) && Normalised(m.value, n.value)
  }

  ghost predicate ItemsNormalised(items: seq<Value>, ns: seq<Value>) {
    |ns| == |items| && forall i :: 0 <= i < |items| ==> Normalised(items[i], ns[i])
  }

  /** Normalisation answers exactly the value that is the given one normalised; if there is none, it fails. */
  lemma {:induction false} NormalizeDecides(v: Value, n: Value)
    ensures Normalize(v) == Ok(n) <==> Normalised(v, n)
    decreases v, 0
  {
    match v {
      case Str(s) => if n.Str? { NormalStringDecides(s, n.s); }
      case Arr(items) => if n.Arr? { NormalizeItemsDecide(items, n.items); }
      case Obj(ms) => if n.Obj? { NormalizeMembersDecide(ms, n.members, {}); }
      case _ =>
    }
  }

  lemma {:induction false} NormalizeItemsDecide(items: seq<Value>, ns: seq<Value>)
    ensures NormalizeItems(items) == Ok(ns) <==> ItemsNormalised(items, ns)
    decreases items, 0
  {
    if items != [] && ns != [] {
      NormalizeDecides(items[0], ns[0]);
      NormalizeItemsDecide(items[1..], ns[1..]);
      assert items == [items[0]] + items[1..] && ns == [ns[0]] + ns[1..];
      if NormalizeItems(items) == Ok(ns) {
        assert ([Normalize(items[0]).value] + NormalizeItems(items[1..]).value)[1..] == NormalizeItems(items[1..]).value;
      }
    }
  }

  lemma {:induction false} NormalizeMembersDecide(ms: seq<Member>, ns: seq<Member>, seen: set<Text>)
    ensures NormalizeMembers(ms, seen) == Ok(ns) <==> MembersNormalised(ms, ns, seen)
    decreases ms, 0
  {
    if ms != [] && ns != [] && ms[0].key.StrKey? && ns[0].key.StrKey? {
      assert ms decreases to ms[0];
      NormalStringDecides(ms[0].key.text, ns[0].key.text);
      NormalizeDecides(ms[0].value, ns[0].value);
      NormalizeMembersDecide(ms[1..], ns[1..], seen + {ns[0].key.text});
      FirstMember(ms, ns, seen);
      SeenMembers(ms, ns, seen);
    } else if ms != [] && ns != [] && ms[0].key.StrKey? {
      assert NormalizeMembers(ms, seen).Ok? ==> NormalizeMembers(ms, seen).value[0].key.StrKey?;
    }
  }

  lemma FirstMember(ms: seq<Member>, ns: seq<Member>, seen: set<Text>)
    requires ms != [] && ns != [] && ms[0].key.StrKey? && ns[0].key.StrKey?
    ensures NormalizeMembers(ms, seen) == Ok(ns) <==>
              && NormalString(ms[0].key.text) == Ok(ns[0].key.text) && ns[0].key.text !in seen
              && Normalize(ms[0].value) == Ok(ns[0].value) && NormalizeMembers(ms[1..], seen + {ns[0].key.text}) == Ok(ns[1..])
  {
    hide Normalize, NormalString;
    assert ns == [ns[0]] + ns[1..];
    var r := NormalizeMembers(ms, seen);
    if r == Ok(ns) {
      var key, n := NormalString(ms[0].key.text).value, Normalize(ms[0].value).value;
      var rest := NormalizeMembers(ms[1..], seen + {key}).value;
      assert ([Member(StrKey(key), n)] + rest)[1..] == rest && ([Member(StrKey(key), n)] + rest)[0] == Member(StrKey(key), n);
    }
  }

  lemma SeenMembers(ms: seq<Member>, ns: seq<Member>, seen: set<Text>)
    requires ms != [] && ns != [] && ns[0].key.StrKey?
    ensures MembersNormalised(ms, ns, seen) <==>
              MemberNormalised(ms[0], ns[0]) && ns[0].key.text !in seen && MembersNormalised(ms[1..], ns[1..], seen + {ns[0].key.text})
  {
    hide Normalised, TextNormalised;
    assert forall i :: 0 <= i < |ms[1..]| ==> ms[1..][i] == ms[i + 1];
    assert forall i :: 0 <= i < |ns[1..]| ==> ns[1..][i] == ns[i + 1];
    if MemberNormalised(ms[0], ns[0]) && MembersNormalised(ms[1..], ns[1..], seen + {ns[0].key.text}) {
      forall i, j | 0 <= i < j < |ns| ensures ns[i].key != ns[j].key {
        assert ns[j] == ns[1..][j - 1] && MemberNormalised(ms[1..][j - 1], ns[1..][j - 1]);
        if i > 0 { assert ns[i] == ns[1..][i - 1]; }
      }
      forall i | 0 <= i < |ms| ensures MemberNormalised(ms[i], ns[i]) {
        if i > 0 { assert ms[i] == ms[1..][i - 1] && ns[i] == ns[1..][i - 1]; }
      }
    }
    if MembersNormalised(ms, ns, seen) {
      forall i | 0 <= i < |ms[1..]| ensures MemberNormalised(ms[1..][i], ns[1..][i]) && ns[1..][i].key.text !in seen + {ns[0].key.text} {
        assert MemberNormalised(ms[i + 1], ns[i + 1]) && ns[0].key != ns[i + 1].key;
      }
    }
  }
}
