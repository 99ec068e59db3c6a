/**
  Which windows an automatic review quotes, stated by what is in the text: which runs of
  non-space characters are the candidates, where a window begins, where it is cut and what
  is trimmed, and in which order the windows are cited.
  */
module QuoteWindows {
  import opened Basics
  import opened EventTypes
  import opened ReviewQuotes
  import CanonicalJson

  // ----- The candidates ------------------------------------------------------------------

  /** A run of non-space characters begins here. */
  predicate RunAt(text: Text, isSpace: Spaces, i: int) {
    0 <= i < |text| && !isSpace(text[i]) && (i == 0 || isSpace(text[i - 1]))
  }

  function RunsBelow(text: Text, isSpace: Spaces, n: int): set<int> { set i | 0 <= i < n && RunAt(text, isSpace, i) }

  /** The first run has none before it, the middle one half of all, rounded down, and the last one all others. */
  ghost predicate FirstMiddleLast(text: Text, isSpace: Spaces, starts: seq<nat>) {
    var runs := RunsBelow(text, isSpace, |text|);
    if runs == {} then starts == []
    else
      && |starts| == 3 && (forall k :: 0 <= k < 3 ==> RunAt(text, isSpace, starts[k]))
      && |RunsBelow(text, isSpace, starts[0])| == 0 && |RunsBelow(text, isSpace, starts[1])| == |runs| / 2
      && |RunsBelow(text, isSpace, starts[2])| == |runs| - 1
  }

  lemma {:induction false} StartsAreCounted(text: Text, isSpace: Spaces, n: nat)
    requires n <= |text|
    ensures var starts := RunStarts(text, isSpace, n);
            && |RunsBelow(text, isSpace, n)| == |starts|
            && forall k :: 0 <= k < |starts| ==> RunAt(text, isSpace, starts[k]) && |RunsBelow(text, isSpace, starts[k])| == k
  {
    if n == 0 {
      assert RunsBelow(text, isSpace, 0) == {};
    } else {
      StartsAreCounted(text, isSpace, n - 1);
      var at := if RunAt(text, isSpace, n - 1) then {n - 1} else {};
      assert RunsBelow(text, isSpace, n) == RunsBelow(text, isSpace, n - 1) + at;
      assert RunsBelow(text, isSpace, n - 1) !! at;
    }
  }

  lemma CandidatesDecide(text: Text, isSpace: Spaces)
    ensures FirstMiddleLast(text, isSpace, CandidateStarts(text, isSpace))
  {
    StartsAreCounted(text, isSpace, |text|);
  }

  // ----- One window ------------------------------------------------------------------------

  /** What a window is cut at, in the order it is looked for: an ideographic full stop, a fullwidth ! or ?, a line feed. */
  function Ender(k: int): CanonicalJson.CodePoint
    requires 0 <= k < 4
  {
    if k == 0 then 0x3002 else if k == 1 then 0xFF01 else if k == 2 then 0xFF1F else 0x0A
  }

  predicate Occurs(text: Text, c: CanonicalJson.CodePoint, start: nat, end: nat)
    requires end <= |text|
  {
    exists i :: start <= i < end && text[i] == c
  }

  /** Just past the first place of the foremost ender that occurs from the candidate on; at the limit if none does. */
  ghost predicate CutAt(text: Text, start: nat, limit: nat, cut: nat)
    requires limit <= |text|
  {
    if exists k :: 0 <= k < 4 && Occurs(text, Ender(k), start, limit) then
      exists k :: 0 <= k < 4 && start < cut <= limit && text[cut - 1] == Ender(k) && !Occurs(text, Ender(k), start, cut - 1)
                  && forall j :: 0 <= j < k ==> !Occurs(text, Ender(j), start, limit)
    else cut == limit
  }

  predicate AllSpaces(text: Text, isSpace: Spaces, start: nat, end: nat)
    requires end <= |text|
  {
    forall i :: start <= i < end ==> isSpace(text[i])
  }

  /**
    The window begins at the first character that is no space from 40 before the candidate
    on. It is cut within 160 characters of its beginning, and spaces before the cut are
    trimmed.
    */
  ghost predicate IsWindow(text: Text, isSpace: Spaces, start: nat, w: Span) {
    var from := if start < 40 then 0 else start - 40;
    && from <= w.start < w.end <= |text| && w.start <= start < |text|
    && AllSpaces(text, isSpace, from, w.start) && !isSpace(text[w.start])
    && exists cut: nat ::
         && w.end <= cut <= |text|
         && CutAt(text, start, if |text| < w.start + 160 then |text| else w.start + 160, cut)
         && !isSpace(text[w.end - 1]) && AllSpaces(text, isSpace, w.end, cut)
  }

  lemma {:induction false} SkipDecides(text: Text, isSpace: Spaces, from: nat)
    requires from <= |text|
    ensures var at := SkipSpaces(text, isSpace, from);
            AllSpaces(text, isSpace, from, at) && (at < |text| ==> !isSpace(text[at]))
    decreases |text| - from
  {
    if from < |text| && isSpace(text[from]) { SkipDecides(text, isSpace, from + 1); }
  }

  lemma {:induction false} TrimDecides(text: Text, isSpace: Spaces, start: nat, end: nat)
    requires start <= end <= |text|
    ensures var at := TrimSpaces(text, isSpace, start, end);
            AllSpaces(text, isSpace, at, end) && (at > start ==> !isSpace(text[at - 1]))
  {
    if start < end && isSpace(text[end - 1]) { TrimDecides(text, isSpace, start, end - 1); }
  }

  lemma CutDecides(text: Text, start: nat, limit: nat)
    requires limit <= |text|
    ensures CutAt(text, start, limit, Cut(text, ENDERS, start, limit))
  {
    var cut := Cut(text, ENDERS, start, limit);
    assert forall k :: 0 <= k < 4 ==> ENDERS[k] == Ender(k);
    assert ENDERS[1..] == [0xFF01, 0xFF1F, 0x0A] && ENDERS[1..][1..] == [0xFF1F, 0x0A] && ENDERS[1..][1..][1..] == [0x0A];
    EnderDecides(text, 0, ENDERS, start, limit);
    EnderDecides(text, 1, ENDERS[1..], start, limit);
    EnderDecides(text, 2, ENDERS[1..][1..], start, limit);
    EnderDecides(text, 3, ENDERS[1..][1..][1..], start, limit);
    hide Cut, Find, Ender, Occurs;
  }

  lemma EnderDecides(text: Text, k: int, enders: Text, start: nat, limit: nat)
    requires limit <= |text| && 0 <= k < 4 && enders != [] && enders[0] == Ender(k)
    ensures var cut := Cut(text, enders, start, limit);
            if Occurs(text, Ender(k), start, limit) then start < cut <= limit && text[cut - 1] == Ender(k) && !Occurs(text, Ender(k), start, cut - 1)
            else cut == Cut(text, enders[1..], start, limit)
    ensures Cut(text, [], start, limit) == limit
  {
  }

  /** Every window is as described. */
  lemma WindowDecides(text: Text, isSpace: Spaces, start: nat)
    requires start < |text| && !isSpace(text[start])
    ensures IsWindow(text, isSpace, start, Window(text, isSpace, start))
  {
    WindowIsAround(text, isSpace, start);
    WindowHoldsCandidate(text, isSpace, start);
    var from := WindowStart(text, isSpace, start);
    var limit := Least(|text|, from + WIDTH);
    var cut := Cut(text, ENDERS, start, limit);
    SkipDecides(text, isSpace, if start < BEFORE then 0 else start - BEFORE);
    CutDecides(text, start, limit);
    TrimDecides(text, isSpace, from, cut);
    hide SkipSpaces, TrimSpaces, Cut, CutAt;
  }

  // ----- In which order -----------------------------------------------------------------------

  ghost predicate EndBy(text: Text, isSpace: Spaces, starts: seq<nat>, bound: int) {
    forall k :: 0 <= k < |starts| ==> Candidate(text, isSpace, starts[k]) && WindowEnd(text, isSpace, starts[k]) <= bound
  }

  ghost predicate EndsInOrder(offsets: seq<Span>, bound: int) {
    && (forall i :: 0 <= i < |offsets| ==> offsets[i].end <= bound)
    && forall i, j :: 0 <= i < j < |offsets| ==> offsets[i].end <= offsets[j].end
  }

  lemma {:induction false} CitedInOrder(text: Text, isSpace: Spaces, starts: seq<nat>, bound: int)
    requires AllCandidates(text, isSpace, starts) && InOrder(starts) && EndBy(text, isSpace, starts, bound)
    ensures EndsInOrder(Cite(text, isSpace, starts).offsets, bound)
  {
    if starts != [] {
      var before, last := starts[..|starts| - 1], starts[|starts| - 1];
      assert Candidate(text, isSpace, last);
      forall k | 0 <= k < |before| ensures Candidate(text, isSpace, before[k]) && WindowEnd(text, isSpace, before[k]) <= WindowEnd(text, isSpace, last) {
        assert Candidate(text, isSpace, starts[k]);
        WindowEndsInOrder(text, isSpace, before[k], last);
      }
      CitedInOrder(text, isSpace, before, WindowEnd(text, isSpace, last));
      WindowHoldsCandidate(text, isSpace, last);
      hide WindowEnd, WindowStart;
    }
  }

  /** The windows are cited in the order of their candidates. */
  lemma QuotesInOrder(text: Text, isSpace: Spaces)
    ensures var offsets := Quoted(text, isSpace).offsets; forall i, j :: 0 <= i < j < |offsets| ==> offsets[i].end <= offsets[j].end
  {
    var starts := CandidateStarts(text, isSpace);
    forall k | 0 <= k < |starts| ensures Candidate(text, isSpace, starts[k]) && WindowEnd(text, isSpace, starts[k]) <= |text| {
      assert Candidate(text, isSpace, starts[k]);
      WindowHoldsCandidate(text, isSpace, starts[k]);
    }
    CitedInOrder(text, isSpace, starts, |text|);
  }
}
