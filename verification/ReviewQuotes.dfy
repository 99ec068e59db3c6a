/**
  The quotes an automatic review cites: up to three windows of the text, around the start
  of its first, middle and last run of non-space characters. What counts as a space is a
  parameter.
  */
module ReviewQuotes {
  import opened Basics
  import opened EventTypes
  import opened ReviewEvidence
  import CanonicalJson

  const BEFORE := 40
  const WIDTH := 160

  /** The enders a window is cut at, in the order they are looked for: the ideographic full stop, the fullwidth ! and ?, the line feed. */
  const ENDERS: Text := [0x3002, 0xFF01, 0xFF1F, 0x0A]

  type Spaces = CanonicalJson.CodePoint -> bool

  // ----- The windows -----------------------------------------------------------------

  predicate StartsRun(text: Text, isSpace: Spaces, i: nat)
    requires i < |text|
  {
    !isSpace(text[i]) && (i == 0 || isSpace(text[i - 1]))
  }

  /** Where runs of non-space characters start, below n. */
  function RunStarts(text: Text, isSpace: Spaces, n: nat): (starts: seq<nat>)
    requires n <= |text|
    ensures forall s: nat :: s in starts <==> s < n && StartsRun(text, isSpace, s)
    ensures forall i :: 0 <= i < |starts| ==> starts[i] < n
    ensures forall i, j :: 0 <= i < j < |starts| ==> starts[i] < starts[j]
  {
    if n == 0 then []
    else RunStarts(text, isSpace, n - 1) + if StartsRun(text, isSpace, n - 1) then [n - 1] else []
  }

  function SkipSpaces(text: Text, isSpace: Spaces, from: nat): (at: nat)
    requires from <= |text|
    ensures from <= at <= |text|
    decreases |text| - from
  {
    if from < |text| && isSpace(text[from]) then SkipSpaces(text, isSpace, from + 1) else from
  }

  function TrimSpaces(text: Text, isSpace: Spaces, start: nat, end: nat): (at: nat)
    requires start <= end <= |text|
    ensures start <= at <= end
  {
    if start < end && isSpace(text[end - 1]) then TrimSpaces(text, isSpace, start, end - 1) else end
  }

  /** str.find of one character. */
  function Find(text: Text, c: CanonicalJson.CodePoint, start: nat, end: nat): (r: Option<nat>)
    requires end <= |text|
    ensures r.Some? ==> start <= r.value < end && text[r.value] == c && forall i :: start <= i < r.value ==> text[i] != c
    ensures r.None? ==> forall i :: start <= i < end ==> text[i] != c
    decreases end - start
  {
    if start >= end then None
    else if text[start] == c then Some(start)
    else Find(text, c, start + 1, end)
  }

  /** Just past the first ender that occurs, taken in their order; else the end of the window. */
  function Cut(text: Text, enders: Text, start: nat, end: nat): nat
    requires end <= |text|
  {
    if enders == [] then end
    else
      var found := Find(text, enders[0], start, end);
      if found.Some? then found.value + 1 else Cut(text, enders[1..], start, end)
  }

  function WindowStart(text: Text, isSpace: Spaces, start: nat): nat
    requires start <= |text|
  {
    SkipSpaces(text, isSpace, if start < BEFORE then 0 else start - BEFORE)
  }

  function WindowEnd(text: Text, isSpace: Spaces, start: nat): nat
    requires start < |text| && !isSpace(text[start])
  {
    WindowIsAround(text, isSpace, start);
    var from := WindowStart(text, isSpace, start);
    TrimSpaces(text, isSpace, from, Cut(text, ENDERS, start, Least(|text|, from + WIDTH)))
  }

  function Least(a: nat, b: nat): nat { if a < b then a else b }

  function Window(text: Text, isSpace: Spaces, start: nat): Span
    requires start < |text| && !isSpace(text[start])
  {
    Span(WindowStart(text, isSpace, start), WindowEnd(text, isSpace, start))
  }

  // ----- A window holds its candidate character ---------------------------------------

  lemma {:induction false} SkipStopsBefore(text: Text, isSpace: Spaces, from: nat, at: nat)
    requires from <= at < |text| && !isSpace(text[at])
    ensures from <= SkipSpaces(text, isSpace, from) <= at
    decreases at - from
  {
    if isSpace(text[from]) { SkipStopsBefore(text, isSpace, from + 1, at); }
  }

  lemma {:induction false} TrimStopsAfter(text: Text, isSpace: Spaces, start: nat, end: nat, at: nat)
    requires start <= at < end <= |text| && !isSpace(text[at])
    ensures at < TrimSpaces(text, isSpace, start, end) <= end
  {
    if isSpace(text[end - 1]) { TrimStopsAfter(text, isSpace, start, end - 1, at); }
  }

  lemma {:induction false} CutIsInside(text: Text, enders: Text, start: nat, end: nat)
    requires start < end <= |text|
    ensures start < Cut(text, enders, start, end) <= end
  {
    if enders != [] { CutIsInside(text, enders[1..], start, end); }
  }

  lemma WindowIsAround(text: Text, isSpace: Spaces, start: nat)
    requires start < |text| && !isSpace(text[start])
    ensures var from := WindowStart(text, isSpace, start);
            from <= start < Cut(text, ENDERS, start, Least(|text|, from + WIDTH)) <= Least(|text|, from + WIDTH)
  {
    SkipStopsBefore(text, isSpace, if start < BEFORE then 0 else start - BEFORE, start);
    CutIsInside(text, ENDERS, start, Least(|text|, WindowStart(text, isSpace, start) + WIDTH));
  }

  /** The window is a proper slice of at most 160 characters that contains the candidate character. */
  lemma WindowHoldsCandidate(text: Text, isSpace: Spaces, start: nat)
    requires start < |text| && !isSpace(text[start])
    ensures var w := Window(text, isSpace, start);
            0 <= w.start <= start < w.end <= |text| && w.end - w.start <= WIDTH
  {
    WindowIsAround(text, isSpace, start);
    var from := WindowStart(text, isSpace, start);
    TrimStopsAfter(text, isSpace, from, Cut(text, ENDERS, start, Least(|text|, from + WIDTH)), start);
  }

  // ----- Later candidates end no earlier -------------------------------------------------

  lemma {:induction false} SkipIsMonotone(text: Text, isSpace: Spaces, a: nat, b: nat)
    requires a <= b <= |text|
    ensures SkipSpaces(text, isSpace, a) <= SkipSpaces(text, isSpace, b)
    decreases |text| - a
  {
    if a < b {
      if isSpace(text[a]) { SkipIsMonotone(text, isSpace, a + 1, b); }
    }
  }

  lemma {:induction false} CutIsMonotone(text: Text, enders: Text, a: nat, aEnd: nat, b: nat, bEnd: nat)
    requires a <= b < bEnd <= |text| && a < aEnd <= bEnd
    ensures Cut(text, enders, a, aEnd) <= Cut(text, enders, b, bEnd)
  {
    if enders != [] {
      var inA, inB := Find(text, enders[0], a, aEnd), Find(text, enders[0], b, bEnd);
      CutIsInside(text, enders, b, bEnd);
      CutIsInside(text, enders[1..], a, aEnd);
      CutIsMonotone(text, enders[1..], a, aEnd, b, bEnd);
      if inA.Some? && b <= inA.value { assert inB.Some? && inB.value == inA.value; }
    }
  }

  lemma {:induction false} TrimIsMonotone(text: Text, isSpace: Spaces, a: nat, aAt: nat, aEnd: nat, b: nat, bAt: nat, bEnd: nat)
    requires a <= aAt < aEnd <= bEnd <= |text| && b <= bAt < bEnd && !isSpace(text[aAt]) && !isSpace(text[bAt])
    ensures TrimSpaces(text, isSpace, a, aEnd) <= TrimSpaces(text, isSpace, b, bEnd)
    decreases bEnd
  {
    if isSpace(text[bEnd - 1]) {
      TrimIsMonotone(text, isSpace, a, aAt, if aEnd < bEnd then aEnd else aEnd - 1, b, bAt, bEnd - 1);
    }
  }

  lemma WindowEndsInOrder(text: Text, isSpace: Spaces, a: nat, b: nat)
    requires a <= b < |text| && !isSpace(text[a]) && !isSpace(text[b])
    ensures WindowEnd(text, isSpace, a) <= WindowEnd(text, isSpace, b)
  {
    WindowIsAround(text, isSpace, a);
    WindowIsAround(text, isSpace, b);
    var fromA, fromB := WindowStart(text, isSpace, a), WindowStart(text, isSpace, b);
    SkipIsMonotone(text, isSpace, if a < BEFORE then 0 else a - BEFORE, if b < BEFORE then 0 else b - BEFORE);
    var endA, endB := Least(|text|, fromA + WIDTH), Least(|text|, fromB + WIDTH);
    CutIsMonotone(text, ENDERS, a, endA, b, endB);
    TrimIsMonotone(text, isSpace, fromA, a, Cut(text, ENDERS, a, endA), fromB, b, Cut(text, ENDERS, b, endB));
  }

  // ----- The quotes -----------------------------------------------------------------------

  datatype Cited = Cited(quotes: seq<Text>, offsets: seq<Span>)

  predicate Candidate(text: Text, isSpace: Spaces, s: nat) { s < |text| && !isSpace(text[s]) }

  predicate AllCandidates(text: Text, isSpace: Spaces, starts: seq<nat>) {
    forall i :: 0 <= i < |starts| ==> Candidate(text, isSpace, starts[i])
  }

  function Cite(text: Text, isSpace: Spaces, starts: seq<nat>): Cited
    requires AllCandidates(text, isSpace, starts)
  {
    if starts == [] then Cited([], [])
    else
      var before := Cite(text, isSpace, starts[..|starts| - 1]);
      AddWindow(text, isSpace, before, starts[|starts| - 1])
  }

  /** A window whose text is already quoted is not quoted again. */
  function AddWindow(text: Text, isSpace: Spaces, cited: Cited, start: nat): Cited
    requires start < |text| && !isSpace(text[start])
  {
    WindowHoldsCandidate(text, isSpace, start);
    var w := Window(text, isSpace, start);
    var quote := text[w.start..w.end];
    if quote in cited.quotes then cited else Cited(cited.quotes + [quote], cited.offsets + [w])
  }

  function Candidates(starts: seq<nat>): (picked: seq<nat>)
    ensures forall s :: s in picked ==> s in starts
    ensures |picked| <= 3 && (picked == [] <==> starts == [])
    ensures (forall i, j :: 0 <= i < j < |starts| ==> starts[i] < starts[j]) ==>
              forall i, j :: 0 <= i < j < |picked| ==> picked[i] <= picked[j]
  {
    if starts == [] then [] else [starts[0], starts[|starts| / 2], starts[|starts| - 1]]
  }

  function CandidateStarts(text: Text, isSpace: Spaces): (starts: seq<nat>)
    ensures AllCandidates(text, isSpace, starts) && InOrder(starts) && |starts| <= 3
  {
    var starts := Candidates(RunStarts(text, isSpace, |text|));
    assert forall i :: 0 <= i < |starts| ==> starts[i] in starts;
    starts
  }

  function Quoted(text: Text, isSpace: Spaces): Cited { Cite(text, isSpace, CandidateStarts(text, isSpace)) }

  method SkipSpacesLoop(text: Text, isSpace: Spaces, from: nat) returns (at: nat)
    requires from <= |text|
    ensures at == SkipSpaces(text, isSpace, from)
  {
    at := from;
    while at < |text| && isSpace(text[at])
      invariant from <= at <= |text| && SkipSpaces(text, isSpace, at) == SkipSpaces(text, isSpace, from)
      decreases |text| - at
    {
      at := at + 1;
    }
  }

  method TrimSpacesLoop(text: Text, isSpace: Spaces, start: nat, end: nat) returns (at: nat)
    requires start <= end <= |text|
    ensures at == TrimSpaces(text, isSpace, start, end)
  {
    at := end;
    while at > start && isSpace(text[at - 1])
      invariant start <= at <= end && TrimSpaces(text, isSpace, start, at) == TrimSpaces(text, isSpace, start, end)
    {
      at := at - 1;
    }
  }

  method CutAtEnder(text: Text, start: nat, end: nat) returns (at: nat)
    requires end <= |text|
    ensures at == Cut(text, ENDERS, start, end)
  {
    var enders := ENDERS;
    for i := 0 to |enders|
      invariant Cut(text, ENDERS, start, end) == Cut(text, enders[i..], start, end)
    {
      var boundary := Find(text, enders[i], start, end);
      if boundary.Some? { return boundary.value + 1; }
      assert enders[i..][1..] == enders[i + 1..];
    }
    return end;
  }

  method FindWindow(text: Text, isSpace: Spaces, start: nat) returns (windowStart: nat, windowEnd: nat)
    requires Candidate(text, isSpace, start)
    ensures Span(windowStart, windowEnd) == Window(text, isSpace, start)
  {
    WindowIsAround(text, isSpace, start);
    windowStart := SkipSpacesLoop(text, isSpace, if start < BEFORE then 0 else start - BEFORE);
    windowEnd := CutAtEnder(text, start, Least(|text|, windowStart + WIDTH));
    windowEnd := TrimSpacesLoop(text, isSpace, windowStart, windowEnd);
  }

  method ExperienceReviewQuotes(text: Text, isSpace: Spaces) returns (quotes: seq<Text>, offsets: seq<Span>)
    ensures Cited(quotes, offsets) == Quoted(text, isSpace)
  {
    var starts := CandidateStarts(text, isSpace);
    quotes, offsets := [], [];
    if starts == [] { return; }
    for i := 0 to |starts|
      invariant AllCandidates(text, isSpace, starts[..i])
      invariant Cited(quotes, offsets) == Cite(text, isSpace, starts[..i])
    {
      assert Candidate(text, isSpace, starts[i]);
      assert starts[..i + 1][..i] == starts[..i];
      WindowHoldsCandidate(text, isSpace, starts[i]);
      var windowStart, windowEnd := FindWindow(text, isSpace, starts[i]);
      var quote := text[windowStart..windowEnd];
      if quote != [] && quote !in quotes {
        quotes := quotes + [quote];
        offsets := offsets + [Span(windowStart, windowEnd)];
      }
    }
    assert starts[..|starts|] == starts;
  }

  // ----- What the quotes are --------------------------------------------------------------

  ghost predicate AllDistinct(quotes: seq<Text>) { forall i, j :: 0 <= i < j < |quotes| ==> quotes[i] != quotes[j] }

  ghost predicate FromWindow(text: Text, isSpace: Spaces, starts: seq<nat>, quote: Text, offset: Span)
    requires AllCandidates(text, isSpace, starts)
  {
    && IsSlice(text, quote, offset) && 1 <= |quote| <= WIDTH
    && exists k :: 0 <= k < |starts| && offset == Window(text, isSpace, starts[k])
  }

  ghost predicate CoveredBy(text: Text, isSpace: Spaces, s: nat, quotes: seq<Text>)
    requires Candidate(text, isSpace, s)
  {
    var w := Window(text, isSpace, s);
    0 <= w.start <= s < w.end <= |text| && text[w.start..w.end] in quotes
  }

  ghost predicate WellCited(text: Text, isSpace: Spaces, starts: seq<nat>, c: Cited)
    requires AllCandidates(text, isSpace, starts)
  {
    && |c.quotes| == |c.offsets| <= |starts|
    && AllDistinct(c.quotes)
    && (forall i :: 0 <= i < |c.quotes| ==> FromWindow(text, isSpace, starts, c.quotes[i], c.offsets[i]))
    && (forall k :: 0 <= k < |starts| ==> CoveredBy(text, isSpace, starts[k], c.quotes))
  }

  lemma {:induction false} CiteIsSound(text: Text, isSpace: Spaces, starts: seq<nat>)
    requires AllCandidates(text, isSpace, starts)
    ensures WellCited(text, isSpace, starts, Cite(text, isSpace, starts))
  {
    if starts != [] {
      var before, last := starts[..|starts| - 1], starts[|starts| - 1];
      CiteIsSound(text, isSpace, before);
      assert Candidate(text, isSpace, last) && before + [last] == starts;
      OneMoreWindow(text, isSpace, before, Cite(text, isSpace, before), last);
    }
  }

  lemma OneMoreWindow(text: Text, isSpace: Spaces, before: seq<nat>, b: Cited, last: nat)
    requires AllCandidates(text, isSpace, before) && WellCited(text, isSpace, before, b) && Candidate(text, isSpace, last)
    ensures AllCandidates(text, isSpace, before + [last])
    ensures WellCited(text, isSpace, before + [last], AddWindow(text, isSpace, b, last))
  {
    AddedQuotes(text, isSpace, before, b, last);
    AddedCoverage(text, isSpace, before, b, last);
    hide FromWindow, CoveredBy;
    WindowHoldsCandidate(text, isSpace, last);
  }

  lemma AddedQuotes(text: Text, isSpace: Spaces, before: seq<nat>, b: Cited, last: nat)
    requires AllCandidates(text, isSpace, before) && WellCited(text, isSpace, before, b) && Candidate(text, isSpace, last)
    ensures var starts, c := before + [last], AddWindow(text, isSpace, b, last);
            && |c.quotes| == |c.offsets|
            && forall i :: 0 <= i < |c.quotes| ==> FromWindow(text, isSpace, starts, c.quotes[i], c.offsets[i])
  {
    WindowHoldsCandidate(text, isSpace, last);
    hide WindowStart, WindowEnd, CoveredBy;
    var starts, c := before + [last], AddWindow(text, isSpace, b, last);
    forall i | 0 <= i < |c.quotes| ensures FromWindow(text, isSpace, starts, c.quotes[i], c.offsets[i]) {
      if i < |b.quotes| {
        assert FromWindow(text, isSpace, before, b.quotes[i], b.offsets[i]);
        var k :| 0 <= k < |before| && b.offsets[i] == Window(text, isSpace, before[k]);
        assert starts[k] == before[k];
      } else {
        assert starts[|before|] == last;
      }
    }
  }

  lemma AddedCoverage(text: Text, isSpace: Spaces, before: seq<nat>, b: Cited, last: nat)
    requires AllCandidates(text, isSpace, before) && WellCited(text, isSpace, before, b) && Candidate(text, isSpace, last)
    ensures var starts, c := before + [last], AddWindow(text, isSpace, b, last);
            forall k :: 0 <= k < |starts| ==> CoveredBy(text, isSpace, starts[k], c.quotes)
  {
    WindowHoldsCandidate(text, isSpace, last);
    hide WindowStart, WindowEnd, FromWindow;
    var starts, c := before + [last], AddWindow(text, isSpace, b, last);
    forall k | 0 <= k < |starts| ensures CoveredBy(text, isSpace, starts[k], c.quotes) {
      if k < |before| { assert CoveredBy(text, isSpace, before[k], b.quotes); }
    }
  }

  /** At most three distinct quotes, each the exact slice its offset names; every candidate character is in one of them. */
  lemma QuotesAreSlices(text: Text, isSpace: Spaces)
    ensures var c := Quoted(text, isSpace);
            var starts := CandidateStarts(text, isSpace);
            && |starts| <= 3 && WellCited(text, isSpace, starts, c)
            && (c.quotes == [] <==> starts == [])
  {
    var starts := CandidateStarts(text, isSpace);
    CiteIsSound(text, isSpace, starts);
    if starts != [] { assert CoveredBy(text, isSpace, starts[0], Quoted(text, isSpace).quotes); }
  }

  lemma {:induction false} SomeRunStarts(text: Text, isSpace: Spaces, i: nat)
    requires i < |text| && !isSpace(text[i])
    ensures RunStarts(text, isSpace, |text|) != []
  {
    if StartsRun(text, isSpace, i) {
      assert i in RunStarts(text, isSpace, |text|);
    } else {
      SomeRunStarts(text, isSpace, i - 1);
    }
  }

  ghost predicate Blank(text: Text, isSpace: Spaces) { forall i :: 0 <= i < |text| ==> isSpace(text[i]) }

  lemma BlankHasNoCandidates(text: Text, isSpace: Spaces)
    ensures Blank(text, isSpace) <==> CandidateStarts(text, isSpace) == []
  {
    var starts := CandidateStarts(text, isSpace);
    if starts != [] { assert Candidate(text, isSpace, starts[0]); }
    if i :| 0 <= i < |text| && !isSpace(text[i]) { SomeRunStarts(text, isSpace, i); }
  }

  ghost predicate InOrder(starts: seq<nat>) { forall i, j :: 0 <= i < j < |starts| ==> starts[i] <= starts[j] }

  // ----- When the quotes pass the evidence checks ---------------------------------------------

  function WindowText(text: Text, isSpace: Spaces, s: nat): Text
    requires Candidate(text, isSpace, s)
  {
    WindowHoldsCandidate(text, isSpace, s);
    text[WindowStart(text, isSpace, s)..WindowEnd(text, isSpace, s)]
  }

  /** The window around this start reads unlike those around all earlier ones. */
  ghost predicate IsNew(text: Text, isSpace: Spaces, starts: seq<nat>, i: nat)
    requires AllCandidates(text, isSpace, starts) && i < |starts|
  {
    forall j :: 0 <= j < i ==> WindowText(text, isSpace, starts[j]) != WindowText(text, isSpace, starts[i])
  }

  ghost predicate NewInRange(text: Text, isSpace: Spaces, starts: seq<nat>)
    requires AllCandidates(text, isSpace, starts)
  {
    forall i :: 0 <= i < |starts| && IsNew(text, isSpace, starts, i) ==> WindowEnd(text, isSpace, starts[i]) <= MAX_INTEGER
  }

  /** Around the first, middle and last run of the text, every window that reads unlike the earlier ones ends within the integer range. */
  ghost predicate NewWindowsInRange(text: Text, isSpace: Spaces) { NewInRange(text, isSpace, CandidateStarts(text, isSpace)) }

  /** A window: what it reads, and where it is. */
  datatype Item = Item(quote: Text, offset: Span)

  function Items(text: Text, isSpace: Spaces, starts: seq<nat>): (items: seq<Item>)
    requires AllCandidates(text, isSpace, starts)
    ensures |items| == |starts|
  {
    seq(|starts|, i requires 0 <= i < |starts| => Item(WindowText(text, isSpace, starts[i]), Window(text, isSpace, starts[i])))
  }

  /** Of several items with one quote, the first. */
  function Firsts(items: seq<Item>): Cited {
    if items == [] then Cited([], [])
    else
      var before, last := Firsts(items[..|items| - 1]), items[|items| - 1];
      if last.quote in before.quotes then before else Cited(before.quotes + [last.quote], before.offsets + [last.offset])
  }

  lemma {:induction false} CiteTakesFirsts(text: Text, isSpace: Spaces, starts: seq<nat>)
    requires AllCandidates(text, isSpace, starts)
    ensures Cite(text, isSpace, starts) == Firsts(Items(text, isSpace, starts))
  {
    if starts != [] {
      var n := |starts| - 1;
      assert Candidate(text, isSpace, starts[n]);
      assert Items(text, isSpace, starts)[..n] == Items(text, isSpace, starts[..n]);
      CiteTakesFirsts(text, isSpace, starts[..n]);
    }
  }

  ghost predicate IsFirst(items: seq<Item>, i: nat)
    requires i < |items|
  {
    forall j :: 0 <= j < i ==> items[j].quote != items[i].quote
  }

  ghost predicate FirstWith(items: seq<Item>, offset: Span) { exists i :: 0 <= i < |items| && IsFirst(items, i) && items[i].offset == offset }

  ghost predicate QuotesOf(items: seq<Item>, c: Cited) { forall q :: q in c.quotes <==> exists i :: 0 <= i < |items| && items[i].quote == q }

  ghost predicate OnlyFirsts(items: seq<Item>, c: Cited) { forall k :: 0 <= k < |c.offsets| ==> FirstWith(items, c.offsets[k]) }

  ghost predicate AllFirsts(items: seq<Item>, c: Cited) {
    forall i :: 0 <= i < |items| && IsFirst(items, i) ==> items[i].offset in c.offsets
  }

  ghost predicate TheFirsts(items: seq<Item>, c: Cited) { QuotesOf(items, c) && OnlyFirsts(items, c) && AllFirsts(items, c) }

  /** The offsets kept are those of the first items, all of them and no others. */
  lemma {:induction false} FirstsAreFirst(items: seq<Item>)
    ensures TheFirsts(items, Firsts(items))
  {
    if items != [] {
      FirstsAreFirst(items[..|items| - 1]);
      OneMoreItem(items, Firsts(items[..|items| - 1]));
    }
  }

  function WithItem(b: Cited, last: Item): Cited {
    if last.quote in b.quotes then b else Cited(b.quotes + [last.quote], b.offsets + [last.offset])
  }

  lemma OneMoreItem(items: seq<Item>, b: Cited)
    requires items != [] && TheFirsts(items[..|items| - 1], b)
    ensures TheFirsts(items, WithItem(b, items[|items| - 1]))
  {
    OneMoreQuote(items, b);
    LastIsFirst(items, b);
    hide QuotesOf, OnlyFirsts, AllFirsts, WithItem;
    OneMoreOffset(items, b);
    OneMoreFirst(items, b);
  }

  lemma OneMoreQuote(items: seq<Item>, b: Cited)
    requires items != [] && QuotesOf(items[..|items| - 1], b)
    ensures QuotesOf(items, WithItem(b, items[|items| - 1]))
  {
    var n := |items| - 1;
    var before, c := items[..n], WithItem(b, items[n]);
    forall q ensures q in c.quotes <==> exists i :: 0 <= i < |items| && items[i].quote == q {
      if i :| 0 <= i < |items| && items[i].quote == q && i < n { assert before[i].quote == q; }
      if i :| 0 <= i < n && before[i].quote == q { assert items[i].quote == q; }
    }
  }

  lemma LastIsFirst(items: seq<Item>, b: Cited)
    requires items != [] && QuotesOf(items[..|items| - 1], b)
    ensures IsFirst(items, |items| - 1) <==> items[|items| - 1].quote !in b.quotes
  {
    var n := |items| - 1;
    assert forall i :: 0 <= i < n ==> items[..n][i] == items[i];
  }

  lemma SameFirstBefore(items: seq<Item>, n: nat, i: nat)
    requires i < n <= |items|
    ensures IsFirst(items[..n], i) <==> IsFirst(items, i)
  {
    assert forall j :: 0 <= j <= i ==> items[..n][j] == items[j];
  }

  lemma OneMoreOffset(items: seq<Item>, b: Cited)
    requires items != [] && OnlyFirsts(items[..|items| - 1], b)
    requires IsFirst(items, |items| - 1) <==> items[|items| - 1].quote !in b.quotes
    ensures OnlyFirsts(items, WithItem(b, items[|items| - 1]))
  {
    var n := |items| - 1;
    var before, c := items[..n], WithItem(b, items[n]);
    hide IsFirst;
    forall k | 0 <= k < |c.offsets| ensures FirstWith(items, c.offsets[k]) {
      if k < |b.offsets| {
        assert FirstWith(before, b.offsets[k]);
        var i :| 0 <= i < n && IsFirst(before, i) && before[i].offset == b.offsets[k];
        SameFirstBefore(items, n, i);
        assert IsFirst(items, i) && items[i].offset == c.offsets[k];
      } else {
        assert IsFirst(items, n) && items[n].offset == c.offsets[k];
      }
    }
  }

  lemma OneMoreFirst(items: seq<Item>, b: Cited)
    requires items != [] && AllFirsts(items[..|items| - 1], b)
    requires IsFirst(items, |items| - 1) <==> items[|items| - 1].quote !in b.quotes
    ensures AllFirsts(items, WithItem(b, items[|items| - 1]))
  {
    var n := |items| - 1;
    var before, c := items[..n], WithItem(b, items[n]);
    hide IsFirst;
    forall i | 0 <= i < |items| && IsFirst(items, i) ensures items[i].offset in c.offsets {
      if i < n {
        SameFirstBefore(items, n, i);
        assert before[i].offset in b.offsets;
      }
    }
  }

  /**
    The quotes pass the evidence checks exactly when the text can be encoded and the hash
    is its own, it is not blank, and its new windows end within the integer range.
    */
  lemma QuotesPassTheEvidenceChecks(text: Text, isSpace: Spaces, hash: Digest)
    ensures var c := Quoted(text, isSpace);
            ReviewEvidenceError(text, hash, c.quotes, c.offsets) == None
            <==> Encodable(text) && hash == Sha256(OfText(text)) && !Blank(text, isSpace) && NewWindowsInRange(text, isSpace)
  {
    var c := Quoted(text, isSpace);
    ReviewEvidenceAccepted(text, hash, c.quotes, c.offsets);
    QuotesAreSlices(text, isSpace);
    BlankHasNoCandidates(text, isSpace);
    QuotesAreSliceOf(text, isSpace);
    SoundWhenInRange(text, c);
    CitedInRange(text, isSpace);
  }

  ghost predicate AllInRange(offsets: seq<Span>) { forall k :: 0 <= k < |offsets| ==> offsets[k].end <= MAX_INTEGER }

  ghost predicate FirstInRange(items: seq<Item>) { forall i :: 0 <= i < |items| && IsFirst(items, i) ==> items[i].offset.end <= MAX_INTEGER }

  lemma CitedInRange(text: Text, isSpace: Spaces)
    ensures AllInRange(Quoted(text, isSpace).offsets) <==> NewWindowsInRange(text, isSpace)
  {
    var starts := CandidateStarts(text, isSpace);
    var items := Items(text, isSpace, starts);
    CiteTakesFirsts(text, isSpace, starts);
    FirstsAreFirst(items);
    hide AllInRange, FirstInRange, NewInRange, TheFirsts, CandidateStarts, Items, Firsts, Cite;
    FirstsInRange(items, Firsts(items));
    NewIsFirst(text, isSpace, starts);
  }

  lemma NewIsFirst(text: Text, isSpace: Spaces, starts: seq<nat>)
    requires AllCandidates(text, isSpace, starts)
    ensures NewInRange(text, isSpace, starts) <==> FirstInRange(Items(text, isSpace, starts))
  {
    var items := Items(text, isSpace, starts);
    hide Items, IsFirst, IsNew, WindowEnd;
    forall i | 0 <= i < |starts|
      ensures IsNew(text, isSpace, starts, i) <==> IsFirst(items, i)
      ensures items[i].offset.end == WindowEnd(text, isSpace, starts[i])
    {
      SameFirsts(text, isSpace, starts, i);
    }
  }

  lemma SameFirsts(text: Text, isSpace: Spaces, starts: seq<nat>, i: nat)
    requires AllCandidates(text, isSpace, starts) && i < |starts|
    ensures IsNew(text, isSpace, starts, i) <==> IsFirst(Items(text, isSpace, starts), i)
    ensures Items(text, isSpace, starts)[i].offset.end == WindowEnd(text, isSpace, starts[i])
  {
    assert Candidate(text, isSpace, starts[i]);
    var items := Items(text, isSpace, starts);
    assert forall j :: 0 <= j <= i ==> items[j].quote == WindowText(text, isSpace, starts[j]);
  }

  lemma FirstsInRange(items: seq<Item>, c: Cited)
    requires TheFirsts(items, c)
    ensures AllInRange(c.offsets) <==> FirstInRange(items)
  {
    if FirstInRange(items) {
      forall k | 0 <= k < |c.offsets| ensures c.offsets[k].end <= MAX_INTEGER { assert FirstWith(items, c.offsets[k]); }
    }
  }

  ghost predicate SlicesOf(text: Text, c: Cited) {
    && |c.quotes| == |c.offsets| <= 3
    && forall i :: 0 <= i < |c.quotes| ==> IsSlice(text, c.quotes[i], c.offsets[i]) && 1 <= |c.quotes[i]| <= WIDTH
  }

  lemma QuotesAreSliceOf(text: Text, isSpace: Spaces)
    ensures SlicesOf(text, Quoted(text, isSpace))
  {
    var c := Quoted(text, isSpace);
    QuotesAreSlices(text, isSpace);
    forall i | 0 <= i < |c.quotes| ensures IsSlice(text, c.quotes[i], c.offsets[i]) && 1 <= |c.quotes[i]| <= WIDTH {
      assert FromWindow(text, isSpace, CandidateStarts(text, isSpace), c.quotes[i], c.offsets[i]);
    }
  }

  lemma SoundWhenInRange(text: Text, c: Cited)
    requires SlicesOf(text, c)
    ensures SoundEvidence(text, c.quotes, c.offsets)
            <==> c.quotes != [] && AllInRange(c.offsets)
  {
  }

  /** It is enough that the window around the last run ends within the range: no earlier window ends later. */
  lemma LastWindowSuffices(text: Text, isSpace: Spaces)
    requires Encodable(text) && !Blank(text, isSpace)
    ensures CandidateStarts(text, isSpace) != []
    ensures var starts, c := CandidateStarts(text, isSpace), Quoted(text, isSpace);
            WindowEnd(text, isSpace, starts[|starts| - 1]) <= MAX_INTEGER
            ==> ReviewEvidenceError(text, Sha256(OfText(text)), c.quotes, c.offsets) == None
  {
    BlankHasNoCandidates(text, isSpace);
    QuotesPassTheEvidenceChecks(text, isSpace, Sha256(OfText(text)));
    var starts := CandidateStarts(text, isSpace);
    assert Candidate(text, isSpace, starts[|starts| - 1]);
    hide WindowStart, WindowEnd, CandidateStarts;
    forall i | 0 <= i < |starts| ensures WindowEnd(text, isSpace, starts[i]) <= WindowEnd(text, isSpace, starts[|starts| - 1]) {
      assert Candidate(text, isSpace, starts[i]);
      WindowEndsInOrder(text, isSpace, starts[i], starts[|starts| - 1]);
    }
  }

  /** Every encodable text of at most 2147483647 characters that is not blank has acceptable quotes. */
  lemma OrdinaryTextsPass(text: Text, isSpace: Spaces)
    requires |text| <= MAX_INTEGER && Encodable(text) && !Blank(text, isSpace)
    ensures var c := Quoted(text, isSpace);
            ReviewEvidenceError(text, Sha256(OfText(text)), c.quotes, c.offsets) == None
  {
    LastWindowSuffices(text, isSpace);
    var starts := CandidateStarts(text, isSpace);
    assert Candidate(text, isSpace, starts[|starts| - 1]);
    WindowHoldsCandidate(text, isSpace, starts[|starts| - 1]);
  }

  /** A text whose first character comes after 2147483647 spaces has a quote no review may cite. */
  lemma AnOverlongTextFails(hash: Digest) returns (text: Text, isSpace: Spaces)
    ensures Encodable(text) && !Blank(text, isSpace)
    ensures var c := Quoted(text, isSpace); ReviewEvidenceError(text, hash, c.quotes, c.offsets) != None
  {
    isSpace := (c: CanonicalJson.CodePoint) => c == 0x20;
    text := seq(MAX_INTEGER, _ => 0x20) + [0x61];
    assert text[MAX_INTEGER] == 0x61;
    BlankHasNoCandidates(text, isSpace);
    var starts := CandidateStarts(text, isSpace);
    assert Candidate(text, isSpace, starts[0]) && starts[0] == MAX_INTEGER;
    WindowHoldsCandidate(text, isSpace, starts[0]);
    assert IsNew(text, isSpace, starts, 0);
    QuotesPassTheEvidenceChecks(text, isSpace, hash);
  }

  /** One isolated surrogate, quoted whole: the quote is in range, and still no review may cite it. */
  lemma ASurrogateFails(isSpace: Spaces, hash: Digest) returns (text: Text)
    requires !isSpace(0xD800)
    ensures Quoted(text, isSpace) == Cited([text], [Span(0, 1)]) && !Blank(text, isSpace) && NewWindowsInRange(text, isSpace)
    ensures ReviewEvidenceError(text, hash, Quoted(text, isSpace).quotes, Quoted(text, isSpace).offsets) == Some(TextNotEncodable)
  {
    text := [0xD800];
    BlankHasNoCandidates(text, isSpace);
    QuotesAreSlices(text, isSpace);
    QuotesAreSliceOf(text, isSpace);
    var c := Quoted(text, isSpace);
    OnlySlice(text, c);
    CitedInRange(text, isSpace);
    QuoteTextsSound(c.quotes);
    OffsetsSound(c.offsets);
  }

  /** Of a text of one character there is one quote: the text. */
  lemma OnlySlice(text: Text, c: Cited)
    requires |text| == 1 && SlicesOf(text, c) && AllDistinct(c.quotes) && c.quotes != []
    ensures c == Cited([text], [Span(0, 1)])
  {
    assert forall i :: 0 <= i < |c.quotes| ==> IsSlice(text, c.quotes[i], c.offsets[i]) && c.quotes[i] == text;
    AtMostOne(c.quotes, text);
  }

  lemma AtMostOne(quotes: seq<Text>, text: Text)
    requires forall i :: 0 <= i < |quotes| ==> quotes[i] == text
    ensures AllDistinct(quotes) ==> |quotes| <= 1
  {
    if |quotes| > 1 { assert quotes[0] == quotes[1]; }
  }
}
