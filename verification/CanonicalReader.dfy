/**
  A reader of JSON text without whitespace (RFC 8259, sections 2 to 7), written without
  reference to the printer. It reads a canonical text back as the value it stands for,
  with the keys of every object in ascending order.
  */
module CanonicalReader {
  import opened Basics
  import opened CanonicalJson
  import opened CanonicalPrinter

  datatype Read<+T> = Read(value: T, rest: Text)

  // ----- Strings ------------------------------------------------------------------------

  function HexValue(c: CodePoint): Option<nat> {
    if 0x30 <= c <= 0x39 then Some(c - 0x30)
    else if 0x61 <= c <= 0x66 then Some(c - 0x61 + 10)
    else if 0x41 <= c <= 0x46 then Some(c - 0x41 + 10)
    else None
  }

  function ReadHex(t: Text): (r: Option<Read<CodePoint>>)
    ensures r.Some? ==> |r.value.rest| < |t|
  {
    if |t| < 4 then None
    else
      var a, b, c, d := HexValue(t[0]), HexValue(t[1]), HexValue(t[2]), HexValue(t[3]);
      if a.None? || b.None? || c.None? || d.None? then None
      else
        var n := ((a.value * 16 + b.value) * 16 + c.value) * 16 + d.value;
        Some(Read(n as CodePoint, t[4..]))
  }

  /** What follows a backslash. */
  function ReadEscape(t: Text): (r: Option<Read<CodePoint>>)
    ensures r.Some? ==> |r.value.rest| < |t|
  {
    if t == [] then None
    else if t[0] == 0x22 then Some(Read(0x22, t[1..]))
    else if t[0] == 0x5C then Some(Read(0x5C, t[1..]))
    else if t[0] == 0x2F then Some(Read(0x2F, t[1..]))
    else if t[0] == 0x62 then Some(Read(0x08, t[1..]))
    else if t[0] == 0x66 then Some(Read(0x0C, t[1..]))
    else if t[0] == 0x6E then Some(Read(0x0A, t[1..]))
    else if t[0] == 0x72 then Some(Read(0x0D, t[1..]))
    else if t[0] == 0x74 then Some(Read(0x09, t[1..]))
    else if t[0] == 0x75 then ReadHex(t[1..])
    else None
  }

  /** The characters of a string up to and past its closing quote. */
  function ReadChars(t: Text): (r: Option<Read<Text>>)
    ensures r.Some? ==> |r.value.rest| < |t|
    decreases |t|
  {
    if t == [] || t[0] < 0x20 then None
    else if t[0] == 0x22 then Some(Read([], t[1..]))
    else
      match (if t[0] == 0x5C then ReadEscape(t[1..]) else Some(Read(t[0], t[1..])))
      case None => None
      case Some(first) =>
        match ReadChars(first.rest)
        case None => None
        case Some(others) => Some(Read([first.value] + others.value, others.rest))
  }

  // ----- Values ---------------------------------------------------------------------------

  predicate StartsWith(t: Text, word: Text) { |word| <= |t| && t[..|word|] == word }

  /** A number: an integer unless it has a fraction or an exponent. */
  function ReadNumber(t: Text): (r: Option<Read<Value>>)
    ensures r.Some? ==> |r.value.rest| < |t|
  {
    var n := NumberEnd(t);
    var token := t[..n];
    if n == 0 then None
    else if IsFloatText(token) then Some(Read(Float(token), t[n..]))
    else if token[0] == 0x2D then Some(Read(Int(-DigitsValue(token[1..])), t[n..]))
    else Some(Read(Int(DigitsValue(token)), t[n..]))
  }

  /** Where the characters a number can be made of end. */
  function NumberEnd(t: Text): (n: nat)
    ensures n <= |t|
  {
    if t != [] && (0x30 <= t[0] <= 0x39 || t[0] in {0x2B, 0x2D, 0x2E, 0x65}) then 1 + NumberEnd(t[1..]) else 0
  }

  function DigitsValue(t: Text): int {
    if t == [] then 0 else DigitsValue(t[..|t| - 1]) * 10 + (t[|t| - 1] as int - 0x30)
  }

  function ReadValue(t: Text): (r: Option<Read<Value>>)
    ensures r.Some? ==> |r.value.rest| < |t|
    decreases |t|, 1
  {
    if t == [] then None
    else if StartsWith(t, [0x6E, 0x75, 0x6C, 0x6C]) then Some(Read(Null, t[4..]))
    else if StartsWith(t, [0x74, 0x72, 0x75, 0x65]) then Some(Read(Bool(true), t[4..]))
    else if StartsWith(t, [0x66, 0x61, 0x6C, 0x73, 0x65]) then Some(Read(Bool(false), t[5..]))
    else if t[0] == 0x22 then
      (match ReadChars(t[1..]) case None => None case Some(s) => Some(Read(Str(s.value), s.rest)))
    else if t[0] == 0x5B then
      if |t| > 1 && t[1] == 0x5D then Some(Read(Arr([]), t[2..]))
      else
        (match ReadItems(t[1..]) case None => None case Some(r) => Some(Read(Arr(r.value), r.rest)))
    else if t[0] == 0x7B then
      if |t| > 1 && t[1] == 0x7D then Some(Read(Obj([]), t[2..]))
      else
        (match ReadMembers(t[1..]) case None => None case Some(r) => Some(Read(Obj(r.value), r.rest)))
    else ReadNumber(t)
  }

  /** One item or more, up to and past the closing bracket. */
  function ReadItems(t: Text): (r: Option<Read<seq<Value>>>)
    ensures r.Some? ==> |r.value.rest| < |t|
    decreases |t|, 2
  {
    match ReadValue(t)
    case None => None
    case Some(first) =>
      if first.rest == [] then None
      else if first.rest[0] == 0x5D then Some(Read([first.value], first.rest[1..]))
      else if first.rest[0] == 0x2C then
        (match ReadItems(first.rest[1..]) case None => None case Some(others) => Some(Read([first.value] + others.value, others.rest)))
      else None
  }

  /** One member or more, up to and past the closing brace. */
  function ReadMembers(t: Text): (r: Option<Read<seq<Member>>>)
    ensures r.Some? ==> |r.value.rest| < |t|
    decreases |t|, 3
  {
    match ReadMember(t)
    case None => None
    case Some(first) =>
      if first.rest == [] then None
      else if first.rest[0] == 0x7D then Some(Read([first.value], first.rest[1..]))
      else if first.rest[0] == 0x2C then
        (match ReadMembers(first.rest[1..]) case None => None case Some(others) => Some(Read([first.value] + others.value, others.rest)))
      else None
  }

  /** A quoted key, a colon, a value. */
  function ReadMember(t: Text): (r: Option<Read<Member>>)
    ensures r.Some? ==> |r.value.rest| < |t|
    decreases |t|, 2
  {
    if t == [] || t[0] != 0x22 then None
    else
      match ReadChars(t[1..])
      case None => None
      case Some(key) =>
        if key.rest == [] || key.rest[0] != 0x3A then None
        else
          match ReadValue(key.rest[1..])
          case None => None
          case Some(v) => Some(Read(Member(StrKey(key.value), v.value), v.rest))
  }

  // ----- Printed values are read back ---------------------------------------------------------

  /** A printed character is read back, whatever follows: it is itself or an escape that stands for it. */
  lemma CharIsRead(c: CodePoint, rest: Text)
    ensures var t := Escape(c) + rest;
            && t != [] && t[0] >= 0x20 && t[0] != 0x22
            && if t[0] == 0x5C then ReadEscape(t[1..]) == Some(Read(c, rest)) else t[0] == c && t[1..] == rest
  {
    var t := Escape(c) + rest;
    if |Escape(c)| == 6 {
      hide HexDigit, ReadHex;
      HexIsRead(c, rest);
      assert t[1..][1..] == [ZERO, ZERO, HexDigit(c / 16), HexDigit(c % 16)] + rest;
    } else if |Escape(c)| == 2 {
      assert t[1..] == [Escape(c)[1]] + rest && t[1..][1..] == rest;
    } else {
      assert t[1..] == rest;
    }
  }

  lemma HexIsRead(c: CodePoint, rest: Text)
    requires c < 0x20
    ensures ReadHex([ZERO, ZERO, HexDigit(c / 16), HexDigit(c % 16)] + rest) == Some(Read(c, rest))
  {
    var t := [ZERO, ZERO, HexDigit(c / 16), HexDigit(c % 16)] + rest;
    assert t[4..] == rest;
    assert HexValue(HexDigit(c / 16)) == Some(c / 16) && HexValue(HexDigit(c % 16)) == Some(c % 16);
  }

  lemma {:induction false} CharsAreRead(s: Text, rest: Text)
    ensures ReadChars(EscapeAll(s, [QUOTE] + rest)) == Some(Read(s, rest))
  {
    hide Escape;
    if s == [] {
      assert ([QUOTE] + rest)[1..] == rest;
    } else {
      CharIsRead(s[0], EscapeAll(s[1..], [QUOTE] + rest));
      CharsAreRead(s[1..], rest);
      assert s == [s[0]] + s[1..];
    }
  }

  lemma StringIsRead(s: Text, rest: Text)
    ensures PrintString(s, rest)[0] == 0x22 && ReadChars(PrintString(s, rest)[1..]) == Some(Read(s, rest))
  {
    CharsAreRead(s, rest);
    assert PrintString(s, rest)[1..] == EscapeAll(s, [QUOTE] + rest);
  }

  lemma {:induction false} NumberEndIs(token: Text, rest: Text)
    requires forall c :: c in token ==> IsNumberChar(c)
    requires Follows(rest)
    ensures NumberEnd(token + rest) == |token|
  {
    if token == [] {
      assert token + rest == rest;
    } else {
      assert token[0] in token;
      NumberEndIs(token[1..], rest);
      assert (token + rest)[1..] == token[1..] + rest;
    }
  }

  lemma {:induction false} DigitsAreRead(n: nat)
    ensures DigitsValue(Decimal(n)) == n
  {
    if n < 10 {
      assert Decimal(n)[..0] == [];
    } else {
      DigitsAreRead(n / 10);
      assert Decimal(n)[..|Decimal(n)| - 1] == Decimal(n / 10);
    }
  }

  lemma NumberIsRead(v: Value, rest: Text)
    requires (v.Int? || v.Float?) && Follows(rest)
    ensures ReadNumber(NumberText(v) + rest) == Some(Read(v, rest))
  {
    var token := NumberText(v);
    if v.Int? { IntTextShape(v.i); }
    NumberEndIs(token, rest);
    assert (token + rest)[..|token|] == token && (token + rest)[|token|..] == rest;
    if v.Int? {
      assert !IsFloatText(token);
      DigitsAreRead(if v.i < 0 then -v.i else v.i);
      if v.i < 0 { assert token[1..] == Decimal(-v.i); }
    }
  }

  lemma WordIsRead(word: Text, rest: Text)
    ensures StartsWith(word + rest, word) && (word + rest)[|word|..] == rest
  {
    assert (word + rest)[..|word|] == word;
  }

  lemma NoWord(t: Text)
    requires t != [] && t[0] !in {0x6E, 0x74, 0x66}
    ensures !StartsWith(t, [0x6E, 0x75, 0x6C, 0x6C]) && !StartsWith(t, [0x74, 0x72, 0x75, 0x65]) && !StartsWith(t, [0x66, 0x61, 0x6C, 0x73, 0x65])
  {
    SameStart(t, [0x6E, 0x75, 0x6C, 0x6C]);
    SameStart(t, [0x74, 0x72, 0x75, 0x65]);
    SameStart(t, [0x66, 0x61, 0x6C, 0x73, 0x65]);
  }

  lemma SameStart(t: Text, word: Text)
    requires t != [] && word != []
    ensures StartsWith(t, word) ==> t[0] == word[0]
  {
  }

  /** Whatever may follow it, a printed value is read back, and the rest is left. */
  lemma {:induction false} ValueIsRead(v: Value, rest: Text)
    requires Normal(v) && Follows(rest)
    ensures ReadValue(Print(v, rest)) == Some(Read(v, rest))
    decreases v, 1
  {
    var t := Print(v, rest);
    FirstTellsKind(v, rest);
    match v {
      case Null => WordIsRead(NULL_TEXT, rest);
      case Bool(b) => BoolIsRead(b, rest);
      case Int(_) =>
        NoWord(t);
        NumberIsRead(v, rest);
      case Float(_) =>
        NoWord(t);
        NumberIsRead(v, rest);
      case Str(s) =>
        NoWord(t);
        StringIsRead(s, rest);
      case Arr(items) =>
        NoWord(t);
        assert t[1..] == PrintItems(items, [RBRACKET] + rest);
        ItemsAreRead(items, rest);
      case Obj(ms) =>
        NoWord(t);
        assert t[1..] == PrintMembers(ms, [RBRACE] + rest);
        MembersAreRead(ms, rest);
    }
  }

  lemma BoolIsRead(b: bool, rest: Text)
    ensures ReadValue((if b then TRUE_TEXT else FALSE_TEXT) + rest) == Some(Read(Bool(b), rest))
  {
    var word := if b then TRUE_TEXT else FALSE_TEXT;
    WordIsRead(word, rest);
    var t := word + rest;
    SameStart(t, [0x6E, 0x75, 0x6C, 0x6C]);
    SameStart(t, [0x74, 0x72, 0x75, 0x65]);
  }

  lemma {:induction false} ItemsAreRead(items: seq<Value>, rest: Text)
    requires NormalItems(items)
    ensures var t := PrintItems(items, [RBRACKET] + rest);
            t != [] && if items == [] then t[0] == 0x5D && t[1..] == rest
            else t[0] != 0x5D && ReadItems(t) == Some(Read(items, rest))
    decreases items, 0
  {
    if items == [] {
      assert ([RBRACKET] + rest)[1..] == rest;
    } else {
      var after := AfterItem(items, [RBRACKET] + rest);
      ValueIsRead(items[0], after);
      FirstTellsKind(items[0], after);
      if |items| == 1 {
        assert after[1..] == rest && items == [items[0]];
      } else {
        ItemsAreRead(items[1..], rest);
        assert after[1..] == PrintItems(items[1..], [RBRACKET] + rest);
        assert items == [items[0]] + items[1..];
      }
    }
  }

  lemma MemberIsRead(m: Member, after: Text)
    requires NormalMember(m) && ReadValue(Print(m.value, after)) == Some(Read(m.value, after))
    ensures var t := PrintString(m.key.text, [COLON] + Print(m.value, after));
            t[0] == 0x22 && ReadMember(t) == Some(Read(m, after))
  {
    StringIsRead(m.key.text, [COLON] + Print(m.value, after));
    assert ([COLON] + Print(m.value, after))[1..] == Print(m.value, after);
    hide PrintString, ReadChars, Print, ReadValue;
  }

  lemma {:induction false} MembersAreRead(ms: seq<Member>, rest: Text)
    requires NormalMembers(ms)
    ensures var t := PrintMembers(ms, [RBRACE] + rest);
            t != [] && if ms == [] then t[0] == 0x7D && t[1..] == rest
            else t[0] != 0x7D && ReadMembers(t) == Some(Read(ms, rest))
    decreases ms, 0
  {
    hide ReadMember, PrintString, Print, ReadValue, ReadChars, Normal;
    if ms == [] {
      assert ([RBRACE] + rest)[1..] == rest;
    } else {
      assert ms decreases to ms[0];
      var after := AfterMember(ms, [RBRACE] + rest);
      ValueIsRead(ms[0].value, after);
      MemberIsRead(ms[0], after);
      if |ms| == 1 {
        assert after[1..] == rest && ms == [ms[0]];
      } else {
        MembersAreRead(ms[1..], rest);
        assert after[1..] == PrintMembers(ms[1..], [RBRACE] + rest);
        assert ms == [ms[0]] + ms[1..];
      }
    }
  }

  // ----- The order of the keys -----------------------------------------------------------------

  /** In code point order: at the first difference the smaller one, or the text that ends there, comes first. */
  ghost predicate Precedes(a: Text, b: Text) {
    exists n :: 0 <= n <= |a| && n < |b| && a[..n] == b[..n] && (n == |a| || a[n] < b[n])
  }

  lemma FirstDecides(a: Text, b: Text)
    requires Precedes(a, b)
    ensures b != [] && (a == [] || a[0] < b[0] || (a[0] == b[0] && Precedes(a[1..], b[1..])))
  {
    var n :| 0 <= n <= |a| && n < |b| && a[..n] == b[..n] && (n == |a| || a[n] < b[n]);
    if n > 0 {
      assert a[0] == a[..n][0] && b[0] == b[..n][0];
      assert a[1..][..n - 1] == a[..n][1..] && b[1..][..n - 1] == b[..n][1..];
    }
  }

  lemma RestDecides(a: Text, b: Text)
    requires a != [] && b != [] && a[0] == b[0] && Precedes(a[1..], b[1..])
    ensures Precedes(a, b)
  {
    var n :| 0 <= n <= |a[1..]| && n < |b[1..]| && a[1..][..n] == b[1..][..n] && (n == |a[1..]| || a[1..][n] < b[1..][n]);
    assert a[..n + 1] == [a[0]] + a[1..][..n] && b[..n + 1] == [b[0]] + b[1..][..n];
  }

  lemma {:induction false} TextLessDecides(a: Text, b: Text)
    ensures TextLess(a, b) <==> Precedes(a, b)
  {
    if Precedes(a, b) { FirstDecides(a, b); }
    if a != [] && b != [] && a[0] == b[0] {
      TextLessDecides(a[1..], b[1..]);
      if Precedes(a[1..], b[1..]) { RestDecides(a, b); }
    } else if TextLess(a, b) {
      assert a[..0] == b[..0];
    }
  }

  /** The keys of every object inside the value ascend. */
  ghost predicate KeysAscend(v: Value)
    decreases v
  {
    match v
    case Arr(items) => forall i :: 0 <= i < |items| ==> KeysAscend(items[i])
    case Obj(ms) =>
      && (forall i :: 0 <= i < |ms| ==> ms[i].key.StrKey? && KeysAscend(ms[i].value))
      && forall i, j :: 0 <= i < j < |ms| ==> ms[i].key.StrKey? && ms[j].key.StrKey? && Precedes(ms[i].key.text, ms[j].key.text)
    case _ => true
  }

  lemma {:induction false} SortedKeysAscend(v: Value)
    requires Normal(v)
    ensures KeysAscend(SortKeys(v))
    decreases v
  {
    match v {
      case Arr(items) =>
        forall i | 0 <= i < |items| ensures KeysAscend(SortItems(items)[i]) { SortedKeysAscend(items[i]); }
      case Obj(ms) =>
        SortedValuesKeepKeys(ms);
        SortIsIncreasing(SortValues(ms));
        forall m | m in SortValues(ms) ensures KeysAscend(m.value) {
          var i :| 0 <= i < |ms| && SortValues(ms)[i] == m;
          SortValuesAt(ms, i);
          SortedKeysAscend(ms[i].value);
        }
        MembersAscend(Sort(SortValues(ms)), SortValues(ms));
      case _ =>
    }
  }

  lemma MembersAscend(ms: seq<Member>, sorted: seq<Member>)
    requires NormalMembers(ms) && Increasing(ms) && forall m :: m in ms ==> m in sorted
    requires forall m :: m in sorted ==> KeysAscend(m.value)
    ensures KeysAscend(Obj(ms))
  {
    forall i, j | 0 <= i < j < |ms| ensures ms[i].key.StrKey? && ms[j].key.StrKey? && Precedes(ms[i].key.text, ms[j].key.text) {
      assert NormalMember(ms[i]) && NormalMember(ms[j]);
      TextLessDecides(ms[i].key.text, ms[j].key.text);
    }
    forall i | 0 <= i < |ms| ensures ms[i].key.StrKey? && KeysAscend(ms[i].value) { assert ms[i] in ms && NormalMember(ms[i]); }
  }

  /** A value whose keys ascend is sorted already. */
  lemma {:induction false} AscendingIsSorted(v: Value)
    requires Normal(v) && KeysAscend(v)
    ensures SortKeys(v) == v
    decreases v
  {
    match v {
      case Arr(items) =>
        forall i | 0 <= i < |items| ensures SortItems(items)[i] == items[i] { AscendingIsSorted(items[i]); }
        assert SortItems(items) == items;
      case Obj(ms) =>
        forall i | 0 <= i < |ms| ensures SortValues(ms)[i] == ms[i] {
          SortValuesAt(ms, i);
          AscendingIsSorted(ms[i].value);
        }
        assert SortValues(ms) == ms;
        forall i, j | 0 <= i < j < |ms| ensures TextLess(ms[i].key.text, ms[j].key.text) {
          TextLessDecides(ms[i].key.text, ms[j].key.text);
        }
        SortIsIncreasing(ms);
        IncreasingIsUnique(Sort(ms), ms);
      case _ =>
    }
  }

  /**
    A canonical text is JSON without whitespace, and read back it is the normalised value,
    insertion order of members aside, with the keys of every object ascending.
    */
  lemma CanonicalTextIsRead(v: Value) returns (w: Value)
    requires Normalize(v).Ok?
    ensures CanonicalText(v).Ok? && ReadValue(CanonicalText(v).value) == Some(Read(w, []))
    ensures Normal(Normalize(v).value) && Normal(w) && KeysAscend(w) && Same(Normalize(v).value, w)
  {
    NormalizeIsNormal(v);
    w := SortKeys(Normalize(v).value);
    ValueIsRead(w, []);
    SortedKeysAscend(Normalize(v).value);
    AscendingIsSorted(w);
    SortKeysDecidesSame(Normalize(v).value, w);
  }

  /** Only quotes, backslashes and controls below 0x20 are escaped, and with the short escape if there is one. */
  lemma EscapesOnlyWhatItMust(c: CodePoint)
    ensures |Escape(c)| == (if c in {0x22, 0x5C, 0x08, 0x09, 0x0A, 0x0C, 0x0D} then 2 else if c < 0x20 then 6 else 1)
  {
  }
}
