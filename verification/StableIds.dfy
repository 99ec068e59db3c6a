/**
  Identifiers of the profile fixtures: slugs of free text, and numbered event ids.

  Case folding goes character by character and is a parameter, as is what counts as a
  space; all that is assumed is that spaces do not fold to letters or digits.
  */
module StableIds {

  type Fold = char -> string
  type Spaces = char -> bool

  predicate IdChar(c: char) { 'a' <= c <= 'z' || '0' <= c <= '9' }

  predicate NoIdChars(s: string) { forall i :: 0 <= i < |s| ==> !IdChar(s[i]) }

  ghost predicate FoldsSpaces(fold: Fold, isSpace: Spaces) { forall c :: isSpace(c) ==> NoIdChars(fold(c)) }

  function Folded(fold: Fold, s: string): string {
    if s == "" then "" else fold(s[0]) + Folded(fold, s[1..])
  }

  function DropGap(s: string): (r: string)
    ensures |r| <= |s|
  {
    if s == "" || IdChar(s[0]) then s else DropGap(s[1..])
  }

  /** Every run of other characters becomes one dash. */
  function Dashed(s: string): string
    decreases |s|
  {
    if s == "" then ""
    else if IdChar(s[0]) then [s[0]] + Dashed(s[1..])
    else "-" + Dashed(DropGap(s[1..]))
  }

  function StripLeft(s: string): string { if s != "" && s[0] == '-' then StripLeft(s[1..]) else s }

  function StripRight(s: string): string { if s != "" && s[|s| - 1] == '-' then StripRight(s[..|s| - 1]) else s }

  function StableId(fold: Fold, s: string): string {
    var slug := StripRight(StripLeft(Dashed(Folded(fold, s))));
    if slug == "" then "fixture" else slug
  }

  /** str.strip() */
  function Strip(isSpace: Spaces, s: string): string {
    if s == "" then ""
    else if isSpace(s[0]) then Strip(isSpace, s[1..])
    else if isSpace(s[|s| - 1]) then Strip(isSpace, s[..|s| - 1])
    else s
  }

  // ----- Outer whitespace does not matter ------------------------------------------------

  lemma {:induction false} FoldedConcat(fold: Fold, a: string, b: string)
    ensures Folded(fold, a + b) == Folded(fold, a) + Folded(fold, b)
  {
    if a == "" {
      assert a + b == b;
    } else {
      assert (a + b)[0] == a[0] && (a + b)[1..] == a[1..] + b;
      FoldedConcat(fold, a[1..], b);
    }
  }

  lemma {:induction false} DropGapConcat(gap: string, s: string)
    requires NoIdChars(gap)
    ensures DropGap(gap + s) == DropGap(s)
  {
    if gap == "" {
      assert gap + s == s;
    } else {
      assert (gap + s)[0] == gap[0] && (gap + s)[1..] == gap[1..] + s;
      DropGapConcat(gap[1..], s);
    }
  }

  lemma {:induction false} LeadingGap(gap: string, s: string)
    requires NoIdChars(gap)
    ensures StripLeft(Dashed(gap + s)) == StripLeft(Dashed(s))
  {
    if gap == "" {
      assert gap + s == s;
    } else {
      assert (gap + s)[0] == gap[0] && (gap + s)[1..] == gap[1..] + s;
      DropGapConcat(gap[1..], s);
      DashOrNot(s);
      assert ("-" + Dashed(DropGap(s)))[1..] == Dashed(DropGap(s));
    }
  }

  lemma DashOrNot(s: string)
    ensures StripLeft(Dashed(DropGap(s))) == StripLeft(Dashed(s))
  {
    if s != "" && !IdChar(s[0]) {
      assert ("-" + Dashed(DropGap(s[1..])))[1..] == Dashed(DropGap(s[1..]));
    }
  }

  lemma {:induction false} GapIsADash(gap: string)
    requires NoIdChars(gap)
    ensures Dashed(gap) == if gap == "" then "" else "-"
  {
    if gap != "" {
      DropGapConcat(gap[1..], "");
      assert gap[1..] + "" == gap[1..];
    }
  }

  lemma {:induction false} DropGapThen(s: string, gap: string)
    requires NoIdChars(gap)
    ensures DropGap(s + gap) == if DropGap(s) == "" then "" else DropGap(s) + gap
  {
    if s == "" {
      DropGapConcat(gap, "");
      assert s + gap == gap && gap + "" == gap;
    } else {
      assert (s + gap)[0] == s[0] && (s + gap)[1..] == s[1..] + gap;
      if !IdChar(s[0]) { DropGapThen(s[1..], gap); }
    }
  }

  /** A trailing gap adds at most one dash. */
  lemma {:induction false} TrailingGap(s: string, gap: string)
    requires NoIdChars(gap)
    ensures Dashed(s + gap) == Dashed(s) || Dashed(s + gap) == Dashed(s) + "-"
    decreases |s|
  {
    if s == "" {
      assert s + gap == gap;
      GapIsADash(gap);
    } else {
      assert (s + gap)[0] == s[0] && (s + gap)[1..] == s[1..] + gap;
      if IdChar(s[0]) {
        TrailingGap(s[1..], gap);
      } else {
        DropGapThen(s[1..], gap);
        TrailingGap(DropGap(s[1..]), gap);
      }
    }
  }

  lemma {:induction false} StripsLastDash(s: string)
    ensures StripRight(StripLeft(s + "-")) == StripRight(StripLeft(s))
  {
    if s == "" {
      assert s + "-" == "-" && "-"[1..] == "";
    } else if s[0] == '-' {
      assert (s + "-")[1..] == s[1..] + "-";
      StripsLastDash(s[1..]);
    } else {
      assert (s + "-")[..|s|] == s;
    }
  }

  lemma PaddingIsIgnored(fold: Fold, before: string, s: string, after: string)
    requires NoIdChars(Folded(fold, before)) && NoIdChars(Folded(fold, after))
    ensures StableId(fold, before + s + after) == StableId(fold, s)
  {
    FoldedConcat(fold, before, s + after);
    FoldedConcat(fold, s, after);
    assert before + s + after == before + (s + after);
    LeadingGap(Folded(fold, before), Folded(fold, s) + Folded(fold, after));
    TrailingGap(Folded(fold, s), Folded(fold, after));
    StripsLastDash(Dashed(Folded(fold, s)));
  }

  /** Text that differs only in outer whitespace has the same slug. */
  lemma {:induction false} StripKeepsStableId(fold: Fold, isSpace: Spaces, s: string)
    requires FoldsSpaces(fold, isSpace)
    ensures StableId(fold, Strip(isSpace, s)) == StableId(fold, s)
    decreases |s|
  {
    if s != "" {
      if isSpace(s[0]) {
        StripKeepsStableId(fold, isSpace, s[1..]);
        PaddingIsIgnored(fold, [s[0]], s[1..], "");
        assert [s[0]] + s[1..] + "" == s;
      } else if isSpace(s[|s| - 1]) {
        StripKeepsStableId(fold, isSpace, s[..|s| - 1]);
        PaddingIsIgnored(fold, "", s[..|s| - 1], [s[|s| - 1]]);
        assert "" + s[..|s| - 1] + [s[|s| - 1]] == s;
      }
    }
  }

  lemma SameWhenStripped(fold: Fold, isSpace: Spaces, a: string, b: string)
    requires FoldsSpaces(fold, isSpace) && Strip(isSpace, a) == Strip(isSpace, b)
    ensures StableId(fold, a) == StableId(fold, b)
  {
    StripKeepsStableId(fold, isSpace, a);
    StripKeepsStableId(fold, isSpace, b);
  }

  // ----- What a slug is, and what stripping leaves ------------------------------------------

  /** How many letters and digits a text begins with. */
  function WordEnd(s: string): (n: nat)
    ensures n <= |s| && (forall i :: 0 <= i < n ==> IdChar(s[i])) && (n < |s| ==> !IdChar(s[n]))
  {
    if s != "" && IdChar(s[0]) then 1 + WordEnd(s[1..]) else 0
  }

  /** The runs of letters and digits in a text. */
  function Words(s: string): seq<string>
    decreases |s|
  {
    var n := WordEnd(s);
    if s == "" then [] else if n == 0 then Words(s[1..]) else [s[..n]] + Words(s[n..])
  }

  function Joined(words: seq<string>): string {
    if words == [] then "" else if |words| == 1 then words[0] else words[0] + "-" + Joined(words[1..])
  }

  lemma {:induction false} GapHasNoWords(s: string)
    ensures Words(DropGap(s)) == Words(s) && (DropGap(s) == "" || IdChar(DropGap(s)[0]))
    decreases |s|
  {
    if s != "" && !IdChar(s[0]) { GapHasNoWords(s[1..]); }
  }

  lemma {:induction false} WordIsKept(word: string, rest: string)
    requires forall i :: 0 <= i < |word| ==> IdChar(word[i])
    ensures Dashed(word + rest) == word + Dashed(rest)
    decreases |word|
  {
    if word == "" {
      assert word + rest == rest;
    } else {
      assert (word + rest)[0] == word[0] && (word + rest)[1..] == word[1..] + rest;
      WordIsKept(word[1..], rest);
      assert word == [word[0]] + word[1..];
    }
  }

  /** From its first word on, a text becomes its words joined by dashes, and a dash for what is left. */
  lemma {:induction false} DashedIsJoined(s: string)
    requires s == "" || IdChar(s[0])
    ensures Dashed(s) == Joined(Words(s)) || Dashed(s) == Joined(Words(s)) + "-"
    decreases |s|
  {
    if s != "" {
      var n := WordEnd(s);
      var word, rest := s[..n], s[n..];
      assert s == word + rest && n > 0;
      WordIsKept(word, rest);
      if rest == "" {
        assert Words(s) == [word] && word + Dashed(rest) == word;
      } else {
        var next := DropGap(rest[1..]);
        GapHasNoWords(rest[1..]);
        DashedIsJoined(next);
        assert Words(rest) == Words(next) && Words(s) == [word] + Words(next);
        JoinOneMore(word, Words(next), Dashed(next), Dashed(s));
        assert next == "" ==> Words(next) == [];
        assert next != "" ==> Words(next) != [];
      }
    }
  }

  lemma JoinOneMore(word: string, words: seq<string>, dashed: string, all: string)
    requires all == word + ("-" + dashed)
    ensures words != [] && dashed == Joined(words) ==> all == Joined([word] + words)
    ensures words != [] && dashed == Joined(words) + "-" ==> all == Joined([word] + words) + "-"
    ensures words == [] && dashed == "" ==> all == Joined([word] + words) + "-"
  {
    assert words != [] ==> ([word] + words)[1..] == words;
    assert word + ("-" + Joined(words)) == word + "-" + Joined(words);
    assert word + ("-" + (Joined(words) + "-")) == word + "-" + Joined(words) + "-";
  }

  lemma {:induction false} WordsAreWords(s: string)
    ensures forall i :: 0 <= i < |Words(s)| ==> Words(s)[i] != "" && forall j :: 0 <= j < |Words(s)[i]| ==> IdChar(Words(s)[i][j])
    decreases |s|
  {
    if s != "" {
      var n := WordEnd(s);
      WordsAreWords(if n == 0 then s[1..] else s[n..]);
    }
  }

  lemma {:induction false} JoinedEnds(words: seq<string>)
    requires forall i :: 0 <= i < |words| ==> words[i] != "" && forall j :: 0 <= j < |words[i]| ==> IdChar(words[i][j])
    ensures words != [] ==> var r := Joined(words); r != "" && r[0] != '-' && r[|r| - 1] != '-'
  {
    if |words| > 1 {
      JoinedEnds(words[1..]);
      assert words[0] != "" && IdChar(words[0][0]);
    } else if |words| == 1 {
      assert IdChar(words[0][0]) && IdChar(words[0][|words[0]| - 1]);
    }
  }

  lemma StripsDashes(s: string)
    requires s == "" || (s[0] != '-' && s[|s| - 1] != '-')
    ensures StripRight(StripLeft(s)) == s && StripRight(StripLeft(s + "-")) == s
  {
    StripsLastDash(s);
  }

  /** A slug is the words of the folded text joined by dashes, or a default if there are none. */
  lemma SlugIsItsWords(fold: Fold, s: string)
    ensures var words := Words(Folded(fold, s)); StableId(fold, s) == if words == [] then "fixture" else Joined(words)
  {
    var folded := Folded(fold, s);
    GapHasNoWords(folded);
    var text := DropGap(folded);
    DashedIsJoined(text);
    WordsAreWords(text);
    JoinedEnds(Words(text));
    StripsDashes(Joined(Words(text)));
    DashOrNot(folded);
  }

  /** What is left when the spaces around a text are taken away: it is not empty and neither begins nor ends with one. */
  ghost predicate Trimmed(isSpace: Spaces, s: string, t: string) {
    && t != "" && !isSpace(t[0]) && !isSpace(t[|t| - 1])
    && exists before, after :: s == before + t + after && AllSpaces(isSpace, before) && AllSpaces(isSpace, after)
  }

  ghost predicate AllSpaces(isSpace: Spaces, s: string) { forall i :: 0 <= i < |s| ==> isSpace(s[i]) }

  /** A text is what is left of it in the middle of two runs of whitespace. */
  ghost predicate Leaves(isSpace: Spaces, s: string, t: string, before: string, after: string) {
    s == before + t + after && AllSpaces(isSpace, before) && AllSpaces(isSpace, after)
  }

  lemma SpaceFirst(isSpace: Spaces, s: string, t: string, before: string, after: string)
    requires s != "" && isSpace(s[0]) && Leaves(isSpace, s[1..], t, before, after)
    ensures Leaves(isSpace, s, t, [s[0]] + before, after)
  {
    assert s == [s[0]] + s[1..];
    assert [s[0]] + (before + t + after) == [s[0]] + before + t + after;
  }

  lemma SpaceLast(isSpace: Spaces, s: string, t: string, before: string, after: string)
    requires s != "" && isSpace(s[|s| - 1]) && Leaves(isSpace, s[..|s| - 1], t, before, after)
    ensures Leaves(isSpace, s, t, before, after + [s[|s| - 1]])
  {
    assert s == s[..|s| - 1] + [s[|s| - 1]];
    assert before + t + after + [s[|s| - 1]] == before + t + (after + [s[|s| - 1]]);
  }

  lemma {:induction false} StripLeaves(isSpace: Spaces, s: string) returns (before: string, after: string)
    ensures Leaves(isSpace, s, Strip(isSpace, s), before, after)
    ensures var t := Strip(isSpace, s); t != "" ==> !isSpace(t[0]) && !isSpace(t[|t| - 1])
    decreases |s|
  {
    before, after := "", "";
    if s == "" {
    } else if isSpace(s[0]) {
      hide Leaves;
      before, after := StripLeaves(isSpace, s[1..]);
      SpaceFirst(isSpace, s, Strip(isSpace, s), before, after);
      before := [s[0]] + before;
    } else if isSpace(s[|s| - 1]) {
      hide Leaves;
      before, after := StripLeaves(isSpace, s[..|s| - 1]);
      SpaceLast(isSpace, s, Strip(isSpace, s), before, after);
      after := after + [s[|s| - 1]];
    }
  }

  lemma {:induction false} StripFinds(isSpace: Spaces, before: string, t: string, after: string)
    requires AllSpaces(isSpace, before) && AllSpaces(isSpace, after) && (t == "" || (!isSpace(t[0]) && !isSpace(t[|t| - 1])))
    ensures Strip(isSpace, before + t + after) == t
    decreases |before| + |after|
  {
    var s := before + t + after;
    if before != "" {
      assert s[1..] == before[1..] + t + after;
      StripFinds(isSpace, before[1..], t, after);
    } else if after != "" {
      if t == "" {
        assert s[1..] == "" + t + after[1..];
        StripFinds(isSpace, "", t, after[1..]);
      } else {
        assert s[..|s| - 1] == "" + t + after[..|after| - 1];
        StripFinds(isSpace, "", t, after[..|after| - 1]);
      }
    } else {
      assert s == t;
    }
  }

  /** Stripping leaves exactly what is left of a text when the spaces around it are taken away; nothing if it is all spaces. */
  lemma StripDecides(isSpace: Spaces, s: string, t: string)
    ensures Trimmed(isSpace, s, t) <==> t != "" && t == Strip(isSpace, s)
    ensures Strip(isSpace, s) == "" <==> AllSpaces(isSpace, s)
  {
    var before, after := StripLeaves(isSpace, s);
    if Trimmed(isSpace, s, t) {
      var b, a :| s == b + t + a && AllSpaces(isSpace, b) && AllSpaces(isSpace, a);
      StripFinds(isSpace, b, t, a);
    }
    if AllSpaces(isSpace, s) {
      StripFinds(isSpace, s, "", "");
      assert s + "" + "" == s;
    }
  }

  // ----- Numbered ids ------------------------------------------------------------------------

  function Digit(d: nat): char
    requires d < 10
  {
    '0' + d as char
  }

  function Decimal(n: nat): string { (if n < 10 then "" else Decimal(n / 10)) + [Digit(n % 10)] }

  /** The format {:03d}. */
  function Padded3(n: nat): string {
    var s := Decimal(n);
    if |s| == 1 then "00" + s else if |s| == 2 then "0" + s else s
  }

  function Value(s: string): int { if s == "" then 0 else 10 * Value(s[..|s| - 1]) + (s[|s| - 1] as int - '0' as int) }

  lemma {:induction false} DecimalReadsBack(n: nat)
    ensures Value(Decimal(n)) == n
  {
    var s := Decimal(n);
    if n < 10 {
      assert s == [Digit(n)];
    } else {
      DecimalReadsBack(n / 10);
      assert s[..|s| - 1] == Decimal(n / 10);
    }
  }

  lemma {:induction false} LeadingZero(s: string)
    ensures Value("0" + s) == Value(s)
  {
    if s == "" {
      assert "0" + s == "0";
    } else {
      assert ("0" + s)[..|s|] == "0" + s[..|s| - 1];
      LeadingZero(s[..|s| - 1]);
    }
  }

  lemma Padded3ReadsBack(n: nat)
    ensures Value(Padded3(n)) == n
  {
    DecimalReadsBack(n);
    LeadingZero(Decimal(n));
    LeadingZero("0" + Decimal(n));
    assert "0" + ("0" + Decimal(n)) == "00" + Decimal(n);
  }

  function EventId(advantage: string, no: nat): string { advantage + "-event-" + Padded3(no) }

  /** Different numbers give different ids, beyond three digits too. */
  lemma EventIdsDiffer(advantage: string, a: nat, b: nat)
    requires EventId(advantage, a) == EventId(advantage, b)
    ensures a == b
  {
    var prefix := advantage + "-event-";
    assert EventId(advantage, a)[|prefix|..] == Padded3(a);
    assert EventId(advantage, b)[|prefix|..] == Padded3(b);
    Padded3ReadsBack(a);
    Padded3ReadsBack(b);
  }

  /** An event id ends in its number, in at least three digits and no more than it takes. */
  lemma EventIdEndsInItsNumber(advantage: string, no: nat)
    ensures var digits := Padded3(no);
            && EventId(advantage, no) == advantage + "-event-" + digits && Value(digits) == no
            && |digits| >= 3 && (|digits| > 3 ==> no >= 1000) && forall i :: 0 <= i < |digits| ==> '0' <= digits[i] <= '9'
  {
    Padded3ReadsBack(no);
    DecimalIsDigits(no);
  }

  lemma {:induction false} DecimalIsDigits(n: nat)
    ensures |Decimal(n)| >= 1 && forall i :: 0 <= i < |Decimal(n)| ==> '0' <= Decimal(n)[i] <= '9'
    ensures |Decimal(n)| > 1 ==> n >= 10
    ensures |Decimal(n)| > 2 ==> n >= 100
    ensures |Decimal(n)| > 3 ==> n >= 1000
  {
    if n >= 10 { DecimalIsDigits(n / 10); }
  }
}
