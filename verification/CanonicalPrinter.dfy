/**
  The printed form of a normalised value, as canonical_json produces it: members sorted
  by key, compact separators, no ASCII escaping beyond what JSON (RFC 8259, sections 4
  to 7) requires.

  Main result: CanonicalTextDecidesMeaning. Two values have the same canonical text
  exactly when they normalise to the same value, insertion order of members aside.
  */
module CanonicalPrinter {
  import opened Basics
  import opened CanonicalJson

  // ----- Printing ---------------------------------------------------------------

  const NULL_TEXT: Text := [0x6E, 0x75, 0x6C, 0x6C]
  const TRUE_TEXT: Text := [0x74, 0x72, 0x75, 0x65]
  const FALSE_TEXT: Text := [0x66, 0x61, 0x6C, 0x73, 0x65]

  function Decimal(n: nat): (t: Text)
    ensures t != [] && forall c :: c in t ==> IsDigit(c)
  {
    var digit: CodePoint := ZERO + n % 10;
    if n < 10 then [digit] else Decimal(n / 10) + [digit]
  }

  function IntText(i: int): Text {
    if i < 0 then [MINUS] + Decimal(-i) else Decimal(i)
  }

  function HexDigit(n: nat): CodePoint
    requires n < 16
  {
    if n < 10 then ZERO + n else 0x61 + (n - 10)
  }

  /** json.dumps with ensure_ascii=False escapes quotes, backslashes and C0 controls only. */
  function Escape(c: CodePoint): Text {
    if c == QUOTE then [BACKSLASH, QUOTE]
    else if c == BACKSLASH then [BACKSLASH, BACKSLASH]
    else if c == 0x08 then [BACKSLASH, 0x62]
    else if c == 0x09 then [BACKSLASH, 0x74]
    else if c == LF then [BACKSLASH, 0x6E]
    else if c == 0x0C then [BACKSLASH, 0x66]
    else if c == CR then [BACKSLASH, 0x72]
    else if c < 0x20 then [BACKSLASH, 0x75, ZERO, ZERO, HexDigit(c / 16), HexDigit(c % 16)]
    else [c]
  }

  // The printers take the text that follows what they print.

  function EscapeAll(s: Text, rest: Text): Text {
    if s == [] then rest else Escape(s[0]) + EscapeAll(s[1..], rest)
  }

  function PrintString(s: Text, rest: Text): Text { [QUOTE] + EscapeAll(s, [QUOTE] + rest) }

  function Print(v: Value, rest: Text): Text
    requires Normal(v)
    decreases v, 0
  {
    match v
    case Null => NULL_TEXT + rest
    case Bool(b) => (if b then TRUE_TEXT else FALSE_TEXT) + rest
    case Int(i) => IntText(i) + rest
    case Float(literal) => literal + rest
    case Str(s) => PrintString(s, rest)
    case Arr(items) => [LBRACKET] + PrintItems(items, [RBRACKET] + rest)
    case Obj(ms) => [LBRACE] + PrintMembers(ms, [RBRACE] + rest)
  }

  predicate NormalItems(items: seq<Value>) { forall i :: 0 <= i < |items| ==> Normal(items[i]) }

  predicate NormalMembers(ms: seq<Member>) { forall i :: 0 <= i < |ms| ==> NormalMember(ms[i]) }

  function PrintItems(items: seq<Value>, rest: Text): Text
    requires NormalItems(items)
    decreases items, 0
  {
    if items == [] then rest
    else Print(items[0], if |items| == 1 then rest else [COMMA] + PrintItems(items[1..], rest))
  }

  function PrintMembers(ms: seq<Member>, rest: Text): Text
    requires NormalMembers(ms)
    decreases ms, 0
  {
    if ms == [] then rest
    else
      assert ms decreases to ms[0];
      PrintString(ms[0].key.text,
                  [COLON] + Print(ms[0].value, if |ms| == 1 then rest else [COMMA] + PrintMembers(ms[1..], rest)))
  }

  // ----- Unique decodability of the printed form -----------------------------------

  /** What can follow a printed value inside a larger text. */
  predicate Follows(rest: Text) { rest == [] || rest[0] in {COMMA, RBRACKET, RBRACE} }

  lemma SameHeads(c: CodePoint, x: Text, d: CodePoint, y: Text)
    requires [c] + x == [d] + y
    ensures c == d && x == y
  {
    assert ([c] + x)[0] == ([d] + y)[0];
    assert x == ([c] + x)[1..] && y == ([d] + y)[1..];
  }

  lemma SamePrefix(p: Text, x: Text, y: Text)
    requires p + x == p + y
    ensures x == y
  {
    assert x == (p + x)[|p|..] && y == (p + y)[|p|..];
  }

  lemma {:induction false} EscapeIsPrefixCode(c: CodePoint, d: CodePoint, r: Text, s: Text)
    requires Escape(c) + r == Escape(d) + s
    ensures c == d && r == s
  {
    var left := Escape(c) + r;
    var right := Escape(d) + s;
    assert left[0] == Escape(c)[0] && right[0] == Escape(d)[0];
    if left[0] == BACKSLASH {
      assert left[1] == Escape(c)[1] && right[1] == Escape(d)[1];
      if left[1] == 0x75 {
        assert left[4] == Escape(c)[4] && right[4] == Escape(d)[4];
        assert left[5] == Escape(c)[5] && right[5] == Escape(d)[5];
      }
    }
    assert c == d;
    SamePrefix(Escape(c), r, s);
  }

  /** An escaped code point never begins with a quote, so the first bare quote closes the string. */
  lemma QuoteEndsString(s: Text, r: Text)
    ensures EscapeAll(s, [QUOTE] + r) != []
    ensures EscapeAll(s, [QUOTE] + r)[0] == QUOTE <==> s == []
  {
  }

  lemma {:induction false} EscapedStringsDecode(s: Text, t: Text, r1: Text, r2: Text)
    requires EscapeAll(s, [QUOTE] + r1) == EscapeAll(t, [QUOTE] + r2)
    ensures s == t && r1 == r2
    decreases |s|
  {
    QuoteEndsString(s, r1);
    QuoteEndsString(t, r2);
    if s == [] {
      SameHeads(QUOTE, r1, QUOTE, r2);
    } else {
      EscapeIsPrefixCode(s[0], t[0], EscapeAll(s[1..], [QUOTE] + r1), EscapeAll(t[1..], [QUOTE] + r2));
      EscapedStringsDecode(s[1..], t[1..], r1, r2);
      assert s == [s[0]] + s[1..] && t == [t[0]] + t[1..];
    }
  }

  lemma StringsDecode(s: Text, t: Text, r1: Text, r2: Text)
    requires PrintString(s, r1) == PrintString(t, r2)
    ensures s == t && r1 == r2
  {
    SameHeads(QUOTE, EscapeAll(s, [QUOTE] + r1), QUOTE, EscapeAll(t, [QUOTE] + r2));
    EscapedStringsDecode(s, t, r1, r2);
  }

  /** The length of the number token at the front of a text. */
  function NumberLength(t: Text): nat {
    if t == [] || !IsNumberChar(t[0]) then 0 else 1 + NumberLength(t[1..])
  }

  lemma {:induction false} NumberLengthOfToken(a: Text, rest: Text)
    requires forall c :: c in a ==> IsNumberChar(c)
    requires Follows(rest)
    ensures NumberLength(a + rest) == |a|
  {
    if a == [] {
      assert a + rest == rest;
    } else {
      assert a[0] in a;
      NumberLengthOfToken(a[1..], rest);
      assert (a + rest)[1..] == a[1..] + rest;
    }
  }

  lemma NumbersDecode(a: Text, b: Text, r1: Text, r2: Text)
    requires forall c :: c in a ==> IsNumberChar(c)
    requires forall c :: c in b ==> IsNumberChar(c)
    requires Follows(r1) && Follows(r2)
    requires a + r1 == b + r2
    ensures a == b && r1 == r2
  {
    NumberLengthOfToken(a, r1);
    NumberLengthOfToken(b, r2);
    assert a == (a + r1)[..|a|] && b == (b + r2)[..|b|];
    SamePrefix(a, r1, r2);
  }

  function DecimalValue(t: Text): int {
    if t == [] then 0 else DecimalValue(t[..|t| - 1]) * 10 + (t[|t| - 1] - ZERO)
  }

  lemma {:induction false} DecimalRoundTrip(n: nat)
    ensures DecimalValue(Decimal(n)) == n
  {
    if n < 10 {
      assert Decimal(n)[..0] == [];
    } else {
      DecimalRoundTrip(n / 10);
      assert Decimal(n)[..|Decimal(n)| - 1] == Decimal(n / 10);
    }
  }

  lemma IntTextIsInjective(i: int, j: int)
    requires IntText(i) == IntText(j)
    ensures i == j
  {
    IntTextShape(i);
    IntTextShape(j);
    if i < 0 {
      SameHeads(MINUS, Decimal(-i), MINUS, Decimal(-j));
      DecimalRoundTrip(-i);
      DecimalRoundTrip(-j);
    } else {
      DecimalRoundTrip(i);
      DecimalRoundTrip(j);
    }
  }

  lemma IntTextShape(i: int)
    ensures IntText(i) != []
    ensures if i < 0 then IntText(i)[0] == MINUS else IsDigit(IntText(i)[0])
    ensures forall c :: c in IntText(i) ==> IsDigit(c) || c == MINUS
  {
  }

  function NumberText(v: Value): Text
    requires v.Int? || v.Float?
  {
    if v.Int? then IntText(v.i) else v.literal
  }

  lemma NumericTokensDecode(v: Value, w: Value, r1: Text, r2: Text)
    requires v.Int? || v.Float?
    requires w.Int? || w.Float?
    requires Follows(r1) && Follows(r2) && NumberText(v) + r1 == NumberText(w) + r2
    ensures v == w && r1 == r2
  {
    if v.Int? { IntTextShape(v.i); }
    if w.Int? { IntTextShape(w.i); }
    NumbersDecode(NumberText(v), NumberText(w), r1, r2);
    if v.Int? && w.Int? { IntTextIsInjective(v.i, w.i); }
  }

  /** The first code point of a printed value tells its kind; the two number kinds share one. */
  function Kind(v: Value): CodePoint
    requires Normal(v)
  {
    match v
    case Null => 0x6E
    case Bool(b) => if b then 0x74 else 0x66
    case Int(_) | Float(_) => ZERO
    case Str(_) => QUOTE
    case Arr(_) => LBRACKET
    case Obj(_) => LBRACE
  }

  function KindOf(c: CodePoint): CodePoint {
    if IsDigit(c) || c == MINUS then ZERO else c
  }

  lemma FirstTellsKind(v: Value, rest: Text)
    requires Normal(v)
    ensures Print(v, rest) != [] && KindOf(Print(v, rest)[0]) == Kind(v)
  {
    if v.Int? { IntTextShape(v.i); }
  }

  /** A printed value can be cut off the front of a text in only one way. */
  lemma {:induction false} ValuesDecode(v: Value, w: Value, r1: Text, r2: Text)
    requires Normal(v) && Normal(w) && Follows(r1) && Follows(r2)
    requires Print(v, r1) == Print(w, r2)
    ensures v == w && r1 == r2
    decreases v, 0
  {
    FirstTellsKind(v, r1);
    FirstTellsKind(w, r2);
    match v {
      case Null => SamePrefix(NULL_TEXT, r1, r2);
      case Bool(b) => SamePrefix(if b then TRUE_TEXT else FALSE_TEXT, r1, r2);
      case Int(_) => NumericTokensDecode(v, w, r1, r2);
      case Float(_) => NumericTokensDecode(v, w, r1, r2);
      case Str(s) => StringsDecode(s, w.s, r1, r2);
      case Arr(items) =>
        SameHeads(LBRACKET, PrintItems(items, [RBRACKET] + r1), LBRACKET, PrintItems(w.items, [RBRACKET] + r2));
        ItemsDecode(items, w.items, r1, r2);
      case Obj(ms) =>
        SameHeads(LBRACE, PrintMembers(ms, [RBRACE] + r1), LBRACE, PrintMembers(w.members, [RBRACE] + r2));
        MembersDecode(ms, w.members, r1, r2);
    }
  }

  lemma {:induction false} ItemsDecode(a: seq<Value>, b: seq<Value>, r1: Text, r2: Text)
    requires NormalItems(a) && NormalItems(b)
    requires PrintItems(a, [RBRACKET] + r1) == PrintItems(b, [RBRACKET] + r2)
    ensures a == b && r1 == r2
    decreases a, 0
  {
    var e1, e2 := [RBRACKET] + r1, [RBRACKET] + r2;
    if a != [] { FirstTellsKind(a[0], AfterItem(a, e1)); }
    if b != [] { FirstTellsKind(b[0], AfterItem(b, e2)); }
    if a == [] || b == [] {
      assert a == [] && b == [];
      SameHeads(RBRACKET, r1, RBRACKET, r2);
    } else {
      ValuesDecode(a[0], b[0], AfterItem(a, e1), AfterItem(b, e2));
      if |a| == 1 || |b| == 1 {
        assert |a| == 1 && |b| == 1;
        SameHeads(RBRACKET, r1, RBRACKET, r2);
      } else {
        SameHeads(COMMA, PrintItems(a[1..], e1), COMMA, PrintItems(b[1..], e2));
        ItemsDecode(a[1..], b[1..], r1, r2);
      }
      assert a == [a[0]] + a[1..] && b == [b[0]] + b[1..];
    }
  }

  function AfterItem(a: seq<Value>, rest: Text): Text
    requires a != [] && NormalItems(a)
  {
    if |a| == 1 then rest else [COMMA] + PrintItems(a[1..], rest)
  }

  lemma {:induction false} MembersDecode(a: seq<Member>, b: seq<Member>, r1: Text, r2: Text)
    requires NormalMembers(a) && NormalMembers(b)
    requires PrintMembers(a, [RBRACE] + r1) == PrintMembers(b, [RBRACE] + r2)
    ensures a == b && r1 == r2
    decreases a, 0
  {
    var e1, e2 := [RBRACE] + r1, [RBRACE] + r2;
    if a == [] || b == [] {
      assert PrintMembers(a, e1)[0] == (if a == [] then RBRACE else QUOTE);
      assert PrintMembers(b, e2)[0] == (if b == [] then RBRACE else QUOTE);
      SameHeads(RBRACE, r1, RBRACE, r2);
    } else {
      var va := Print(a[0].value, AfterMember(a, e1));
      var vb := Print(b[0].value, AfterMember(b, e2));
      StringsDecode(a[0].key.text, b[0].key.text, [COLON] + va, [COLON] + vb);
      SameHeads(COLON, va, COLON, vb);
      assert a decreases to a[0];
      ValuesDecode(a[0].value, b[0].value, AfterMember(a, e1), AfterMember(b, e2));
      if |a| == 1 || |b| == 1 {
        assert AfterMember(a, e1)[0] == (if |a| == 1 then RBRACE else COMMA);
        assert AfterMember(b, e2)[0] == (if |b| == 1 then RBRACE else COMMA);
        SameHeads(RBRACE, r1, RBRACE, r2);
      } else {
        SameHeads(COMMA, PrintMembers(a[1..], e1), COMMA, PrintMembers(b[1..], e2));
        MembersDecode(a[1..], b[1..], r1, r2);
      }
      assert a == [a[0]] + a[1..] && b == [b[0]] + b[1..];
    }
  }

  function AfterMember(a: seq<Member>, rest: Text): Text
    requires a != [] && NormalMembers(a)
  {
    if |a| == 1 then rest else [COMMA] + PrintMembers(a[1..], rest)
  }

  // ----- Sorting the members ---------------------------------------------------------

  predicate TextLess(a: Text, b: Text) {
    b != [] && (a == [] || a[0] < b[0] || (a[0] == b[0] && TextLess(a[1..], b[1..])))
  }

  lemma {:induction false} TextLessIsStrict(a: Text, b: Text)
    ensures !(TextLess(a, b) && TextLess(b, a))
    ensures a == b ==> !TextLess(a, b)
    ensures a != b ==> TextLess(a, b) || TextLess(b, a)
  {
    if a != [] && b != [] {
      TextLessIsStrict(a[1..], b[1..]);
      assert a == [a[0]] + a[1..] && b == [b[0]] + b[1..];
    }
  }

  lemma {:induction false} TextLessTransitive(a: Text, b: Text, c: Text)
    requires TextLess(a, b) && TextLess(b, c)
    ensures TextLess(a, c)
  {
    if a != [] && a[0] == b[0] && b[0] == c[0] { TextLessTransitive(a[1..], b[1..], c[1..]); }
  }

  function Insert(m: Member, ms: seq<Member>): seq<Member>
    requires NormalMember(m) && NormalMembers(ms)
  {
    if ms == [] || !TextLess(ms[0].key.text, m.key.text) then [m] + ms
    else [ms[0]] + Insert(m, ms[1..])
  }

  function Sort(ms: seq<Member>): (r: seq<Member>)
    requires NormalMembers(ms)
    ensures NormalMembers(r) && |r| == |ms| && forall m :: m in r <==> m in ms
  {
    if ms == [] then []
    else
      InsertMembers(ms[0], Sort(ms[1..]));
      Insert(ms[0], Sort(ms[1..]))
  }

  lemma {:induction false} InsertMembers(m: Member, ms: seq<Member>)
    requires NormalMember(m) && NormalMembers(ms)
    ensures NormalMembers(Insert(m, ms)) && |Insert(m, ms)| == |ms| + 1
    ensures forall n :: n in Insert(m, ms) <==> n == m || n in ms
  {
    if !(ms == [] || !TextLess(ms[0].key.text, m.key.text)) { InsertMembers(m, ms[1..]); }
  }

  predicate Increasing(ms: seq<Member>)
    requires NormalMembers(ms)
  {
    forall i, j :: 0 <= i < j < |ms| ==> TextLess(ms[i].key.text, ms[j].key.text)
  }

  lemma {:induction false} InsertKeepsIncreasing(m: Member, ms: seq<Member>)
    requires NormalMember(m) && NormalMembers(ms) && Increasing(ms)
    requires forall n :: n in ms ==> n.key != m.key
    ensures NormalMembers(Insert(m, ms)) && Increasing(Insert(m, ms))
  {
    InsertMembers(m, ms);
    if ms != [] {
      TextLessIsStrict(ms[0].key.text, m.key.text);
      assert ms[0] in ms;
      if TextLess(ms[0].key.text, m.key.text) {
        InsertKeepsIncreasing(m, ms[1..]);
        var r := Insert(m, ms[1..]);
        InsertMembers(m, ms[1..]);
        forall j | 0 <= j < |r| ensures TextLess(ms[0].key.text, r[j].key.text) {
          assert r[j] in r;
        }
      } else {
        forall j | 0 <= j < |ms| ensures TextLess(m.key.text, ms[j].key.text) {
          if j > 0 { TextLessTransitive(m.key.text, ms[0].key.text, ms[j].key.text); }
        }
      }
    }
  }

  lemma {:induction false} SortIsIncreasing(ms: seq<Member>)
    requires NormalMembers(ms) && DistinctKeys(ms)
    ensures Increasing(Sort(ms))
  {
    if ms != [] {
      SortIsIncreasing(ms[1..]);
      InsertKeepsIncreasing(ms[0], Sort(ms[1..]));
    }
  }

  lemma FirstIsLeast(a: seq<Member>, m: Member)
    requires NormalMembers(a) && Increasing(a) && m in a
    ensures m.key.StrKey? && (m == a[0] || TextLess(a[0].key.text, m.key.text))
  {
  }

  /** Two key-sorted member lists with the same members are the same list. */
  lemma {:induction false} IncreasingIsUnique(a: seq<Member>, b: seq<Member>)
    requires NormalMembers(a) && NormalMembers(b) && Increasing(a) && Increasing(b)
    requires forall m :: m in a <==> m in b
    ensures a == b
  {
    assert a != [] ==> a[0] in b;
    assert b != [] ==> b[0] in a;
    if a != [] {
      FirstIsLeast(a, b[0]);
      FirstIsLeast(b, a[0]);
      TextLessIsStrict(a[0].key.text, b[0].key.text);
      forall m ensures m in a[1..] <==> m in b[1..] {
        TailExcludesHead(a);
        TailExcludesHead(b);
        assert m in a <==> m == a[0] || m in a[1..];
        assert m in b <==> m == b[0] || m in b[1..];
      }
      IncreasingIsUnique(a[1..], b[1..]);
    }
  }

  lemma TailExcludesHead(a: seq<Member>)
    requires a != [] && NormalMembers(a) && Increasing(a)
    ensures a[0] !in a[1..]
  {
    TextLessIsStrict(a[0].key.text, a[0].key.text);
  }

  /** Sorts the members of every object inside a value. */
  function SortKeys(v: Value): (w: Value)
    requires Normal(v)
    ensures Normal(w)
    decreases v, 0
  {
    match v
    case Arr(items) => Arr(SortItems(items))
    case Obj(ms) =>
      SortedValuesKeepKeys(ms);
      SortIsIncreasing(SortValues(ms));
      IncreasingIsDistinct(Sort(SortValues(ms)));
      Obj(Sort(SortValues(ms)))
    case _ => v
  }

  function SortItems(items: seq<Value>): (r: seq<Value>)
    requires NormalItems(items)
    ensures NormalItems(r) && |r| == |items|
    ensures forall i :: 0 <= i < |r| ==> r[i] == SortKeys(items[i])
    decreases items, 0
  {
    if items == [] then [] else [SortKeys(items[0])] + SortItems(items[1..])
  }

  function SortValues(ms: seq<Member>): (r: seq<Member>)
    requires NormalMembers(ms)
    ensures NormalMembers(r) && |r| == |ms|
    ensures forall i :: 0 <= i < |r| ==> r[i].key == ms[i].key
    decreases ms, 0
  {
    if ms == [] then []
    else
      assert ms decreases to ms[0];
      [Member(ms[0].key, SortKeys(ms[0].value))] + SortValues(ms[1..])
  }

  lemma {:induction false} SortValuesAt(ms: seq<Member>, i: nat)
    requires NormalMembers(ms) && i < |ms|
    ensures SortValues(ms)[i] == Member(ms[i].key, SortKeys(ms[i].value))
  {
    if i > 0 { SortValuesAt(ms[1..], i - 1); }
  }

  lemma SortedValuesKeepKeys(ms: seq<Member>)
    requires NormalMembers(ms) && DistinctKeys(ms)
    ensures DistinctKeys(SortValues(ms))
  {
  }

  lemma IncreasingIsDistinct(ms: seq<Member>)
    requires NormalMembers(ms) && Increasing(ms)
    ensures DistinctKeys(ms)
  {
    forall i, j | 0 <= i < j < |ms| ensures ms[i].key != ms[j].key {
      TextLessIsStrict(ms[i].key.text, ms[j].key.text);
    }
  }

  // ----- Canonical text ---------------------------------------------------------------

  function CanonicalText(v: Value): Result<Text, NormError> {
    match Normalize(v)
    case Err(e) => Err(e)
    case Ok(n) => NormalizeIsNormal(v); Ok(Print(SortKeys(n), []))
  }

  /** Equality of normal values as values: the insertion order of members is not part of it. */
  predicate Same(v: Value, w: Value)
    requires Normal(v) && Normal(w)
    decreases v, 0
  {
    match v
    case Arr(items) => w.Arr? && SameItems(items, w.items)
    case Obj(ms) => w.Obj? && |ms| == |w.members| && SameMembers(ms, w.members)
    case _ => v == w
  }

  predicate SameItems(a: seq<Value>, b: seq<Value>)
    requires NormalItems(a) && NormalItems(b)
    decreases a, 0
  {
    |a| == |b| && (a != [] ==> Same(a[0], b[0]) && SameItems(a[1..], b[1..]))
  }

  /** Every member on the left has its key on the right, with the same value. */
  predicate SameMembers(a: seq<Member>, b: seq<Member>)
    requires NormalMembers(a) && NormalMembers(b)
    decreases a, 0
  {
    a != [] ==>
      && (assert a decreases to a[0];
          exists i :: 0 <= i < |b| && b[i].key == a[0].key && Same(a[0].value, b[i].value))
      && SameMembers(a[1..], b)
  }

  /** Sorting the keys of two values gives one result exactly when they are the same value. */
  lemma {:induction false} SortKeysDecidesSame(v: Value, w: Value)
    requires Normal(v) && Normal(w)
    ensures Same(v, w) <==> SortKeys(v) == SortKeys(w)
    decreases v, 0
  {
    match v {
      case Arr(items) =>
        if w.Arr? { SortItemsDecidesSame(items, w.items); }
      case Obj(ms) =>
        if w.Obj? { SortMembersDecidesSame(ms, w.members); }
      case _ =>
    }
  }

  lemma {:induction false} SortItemsDecidesSame(a: seq<Value>, b: seq<Value>)
    requires NormalItems(a) && NormalItems(b)
    ensures SameItems(a, b) <==> SortItems(a) == SortItems(b)
    decreases a, 0
  {
    if a != [] && b != [] {
      SortKeysDecidesSame(a[0], b[0]);
      SortItemsDecidesSame(a[1..], b[1..]);
      SameHead(SortKeys(a[0]), SortItems(a[1..]), SortKeys(b[0]), SortItems(b[1..]));
    }
  }

  lemma SameHead<T>(x: T, xs: seq<T>, y: T, ys: seq<T>)
    ensures [x] + xs == [y] + ys <==> x == y && xs == ys
  {
    if [x] + xs == [y] + ys {
      assert ([x] + xs)[0] == ([y] + ys)[0];
      assert xs == ([x] + xs)[1..] && ys == ([y] + ys)[1..];
    }
  }

  predicate Included(a: seq<Member>, b: seq<Member>) { forall m :: m in a ==> m in b }

  /** SameMembers says that each sorted member on the left occurs on the right. */
  lemma {:induction false} SameMembersIsInclusion(a: seq<Member>, b: seq<Member>)
    requires NormalMembers(a) && NormalMembers(b)
    ensures SameMembers(a, b) <==> Included(SortValues(a), SortValues(b))
    decreases a, 0
  {
    if a != [] {
      assert a decreases to a[0];
      forall i | 0 <= i < |b|
        ensures Same(a[0].value, b[i].value) <==> SortKeys(a[0].value) == SortKeys(b[i].value)
        ensures SortValues(b)[i] == Member(b[i].key, SortKeys(b[i].value))
      {
        SortKeysDecidesSame(a[0].value, b[i].value);
        SortValuesAt(b, i);
      }
      SameMembersIsInclusion(a[1..], b);
      var head := Member(a[0].key, SortKeys(a[0].value));
      assert SortValues(a) == [head] + SortValues(a[1..]);
      assert head in SortValues(b) <==>
             exists i :: 0 <= i < |b| && b[i].key == a[0].key && Same(a[0].value, b[i].value);
    }
  }

  lemma {:induction false} SortMembersDecidesSame(a: seq<Member>, b: seq<Member>)
    requires NormalMembers(a) && NormalMembers(b) && DistinctKeys(a) && DistinctKeys(b)
    ensures |a| == |b| && SameMembers(a, b) <==> Sort(SortValues(a)) == Sort(SortValues(b))
    decreases a, 1
  {
    SameMembersIsInclusion(a, b);
    SortedValuesKeepKeys(a);
    SortedValuesKeepKeys(b);
    var sa, sb := SortValues(a), SortValues(b);
    if |a| == |b| && SameMembers(a, b) {
      InclusionIsEquality(sa, sb);
      SortIsIncreasing(sa);
      SortIsIncreasing(sb);
      IncreasingIsUnique(Sort(sa), Sort(sb));
    }
    if Sort(sa) == Sort(sb) {
      assert forall m :: m in sa <==> m in Sort(sa);
      assert forall m :: m in sb <==> m in Sort(sb);
    }
  }

  /** Lists of equal length with distinct keys: inclusion one way is inclusion both ways. */
  lemma InclusionIsEquality(a: seq<Member>, b: seq<Member>)
    requires DistinctKeys(a) && DistinctKeys(b) && |a| == |b|
    requires Included(a, b)
    ensures forall m :: m in a <==> m in b
  {
    DistinctCount(a);
    DistinctCount(b);
    var sa, sb := set m | m in a, set m | m in b;
    assert sa <= sb;
    SubsetOfEqualSize(sa, sb);
    assert forall m :: m in b ==> m in sb && m in sa;
  }

  lemma {:induction false} DistinctCount(a: seq<Member>)
    requires DistinctKeys(a)
    ensures |set m | m in a| == |a|
  {
    if a != [] {
      DistinctCount(a[1..]);
      assert (set m | m in a) == {a[0]} + set m | m in a[1..];
      assert a[0] !in a[1..];
    }
  }

  lemma SubsetOfEqualSize<T>(a: set<T>, b: set<T>)
    requires a <= b && |a| == |b|
    ensures a == b
  {
    assert |b - a| == |b| - |a|;
    assert b == a + (b - a);
  }

  /**
    The canonical text decides the normalised value: it ignores insertion order (one
    direction) and loses nothing else (the other). A value that cannot be normalised
    has no canonical text.
    */
  lemma CanonicalTextDecidesMeaning(v: Value, w: Value)
    requires Normalize(v).Ok? && Normalize(w).Ok?
    ensures Normal(Normalize(v).value) && Normal(Normalize(w).value)
    ensures CanonicalText(v) == CanonicalText(w) <==> Same(Normalize(v).value, Normalize(w).value)
  {
    NormalizeIsNormal(v);
    NormalizeIsNormal(w);
    var a, b := SortKeys(Normalize(v).value), SortKeys(Normalize(w).value);
    SortKeysDecidesSame(Normalize(v).value, Normalize(w).value);
    if Print(a, []) == Print(b, []) { ValuesDecode(a, b, [], []); }
  }

  // ----- Control hashes -----------------------------------------------------------------

  /** SHA-256 as a free constructor: distinct inputs have distinct digests. */
  datatype ControlHash = Sha256(domain: string, payload: Text)

  datatype HashError = NotNormal(error: NormError) | HashShape

  const HASH_DOMAIN := "plot-rag-event-experience-hash/codepoint-json-v1"

  function DropKeys(ms: seq<Member>, excluded: set<Text>): seq<Member>
    requires NormalMembers(ms)
  {
    if ms == [] then []
    else (if ms[0].key.text in excluded then [] else [ms[0]]) + DropKeys(ms[1..], excluded)
  }

  /** The value a control hash is computed over: normalised, without the excluded top-level keys. */
  function Hashed(v: Value, excluded: set<Text>): Result<Value, HashError> {
    match Normalize(v)
    case Err(e) => Err(NotNormal(e))
    case Ok(n) =>
      NormalizeIsNormal(v);
      if excluded == {} then Ok(n) else if n.Obj? then Ok(Obj(DropKeys(n.members, excluded))) else Err(HashShape)
  }

  function CanonicalHash(v: Value, excluded: set<Text>): Result<ControlHash, HashError> {
    match Hashed(v, excluded)
    case Err(e) => Err(e)
    case Ok(h) =>
      match CanonicalText(h)
      case Err(e) => Err(NotNormal(e))
      case Ok(text) => Ok(Sha256(HASH_DOMAIN, text))
  }

  lemma {:induction false} DropKeysStaysNormal(ms: seq<Member>, excluded: set<Text>)
    requires NormalMembers(ms) && DistinctKeys(ms)
    ensures NormalMembers(DropKeys(ms, excluded)) && DistinctKeys(DropKeys(ms, excluded))
    ensures forall m :: m in DropKeys(ms, excluded) <==> m in ms && m.key.text !in excluded
  {
    if ms != [] {
      DropKeysStaysNormal(ms[1..], excluded);
      forall m | m in ms[1..] ensures m.key != ms[0].key {
      }
    }
  }

  /** What is hashed: the normalised value, less the members whose keys are excluded; only an object can have any excluded. */
  lemma HashedDecides(v: Value, excluded: set<Text>)
    requires Normalize(v).Ok?
    ensures var n := Normalize(v).value;
            && (excluded == {} ==> Hashed(v, excluded) == Ok(n))
            && (excluded != {} && !n.Obj? ==> Hashed(v, excluded) == Err(HashShape))
            && (excluded != {} && n.Obj? ==>
                  && Hashed(v, excluded).Ok? && Hashed(v, excluded).value.Obj? && NormalMembers(n.members)
                  && forall m :: m in Hashed(v, excluded).value.members <==> m in n.members && m.key.text !in excluded)
  {
    NormalizeIsNormal(v);
    var n := Normalize(v).value;
    if n.Obj? { DropKeysStaysNormal(n.members, excluded); }
  }

  lemma HashedIsNormal(v: Value, excluded: set<Text>)
    requires Hashed(v, excluded).Ok?
    ensures Normal(Hashed(v, excluded).value)
  {
    NormalizeIsNormal(v);
    var n := Normalize(v).value;
    if excluded != {} { DropKeysStaysNormal(n.members, excluded); }
  }

  /** Two payloads carry one control hash exactly when what is hashed is one value. */
  lemma HashBindsValue(v: Value, w: Value, excluded: set<Text>)
    requires Hashed(v, excluded).Ok? && Hashed(w, excluded).Ok?
    ensures Normal(Hashed(v, excluded).value) && Normal(Hashed(w, excluded).value)
    ensures CanonicalHash(v, excluded).Ok? && CanonicalHash(w, excluded).Ok?
    ensures CanonicalHash(v, excluded).value.domain == "plot-rag-event-experience-hash/codepoint-json-v1"
    ensures CanonicalHash(v, excluded) == CanonicalHash(w, excluded)
            <==> Same(Hashed(v, excluded).value, Hashed(w, excluded).value)
  {
    HashedIsNormal(v, excluded);
    HashedIsNormal(w, excluded);
    NormalIsFixed(Hashed(v, excluded).value);
    NormalIsFixed(Hashed(w, excluded).value);
    CanonicalTextDecidesMeaning(Hashed(v, excluded).value, Hashed(w, excluded).value);
  }
}
