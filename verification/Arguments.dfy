/**
  What an operation demands of its arguments before it opens its transaction, stated
  without reference to the checks, and that the checks demand exactly that.
  */
module Arguments {
  import opened Basics
  import opened EventTypes
  import opened EventSpec
  import opened ReviewEvidence

  // ----- Folding case -------------------------------------------------------------------

  /** One letter in either case, or one and the same character. */
  predicate SameLetter(a: char, b: char) {
    || a == b
    || ('A' <= a <= 'Z' && b as int == a as int + 32)
    || ('A' <= b <= 'Z' && a as int == b as int + 32)
  }

  /** Two texts fold to one exactly when they differ at most in the case of ASCII letters. */
  lemma FoldDecides(s: string, t: string)
    ensures CaseFold(s) == CaseFold(t) <==> |s| == |t| && forall i :: 0 <= i < |s| ==> SameLetter(s[i], t[i])
  {
    if CaseFold(s) == CaseFold(t) {
      assert |CaseFold(s)| == |s| && |CaseFold(t)| == |t|;
      forall i | 0 <= i < |s| ensures SameLetter(s[i], t[i]) { assert CaseFold(s)[i] == CaseFold(t)[i]; }
    }
  }

  // ----- Questions ------------------------------------------------------------------------

  /** Option i is the recommended one, up to case. */
  ghost predicate Recommends(q: QuestionInput, i: int) {
    0 <= i < |q.options| && CaseFold(q.options[i].id) == CaseFold(q.recommended)
  }

  /** Two to five options with distinct ids and distinct labels, up to case, and one of them recommended. */
  ghost predicate QuestionFits(q: QuestionInput) {
    && 2 <= |q.options| <= 5
    && (forall i, j :: 0 <= i < j < |q.options| ==> CaseFold(q.options[i].id) != CaseFold(q.options[j].id))
    && (forall i, j :: 0 <= i < j < |q.options| ==> CaseFold(q.options[i].labelText) != CaseFold(q.options[j].labelText))
    && exists i :: Recommends(q, i)
  }

  lemma {:induction false} MatchingFinds(fold: string -> string, options: seq<QuestionOption>, wanted: string)
    requires forall i, j :: 0 <= i < j < |options| ==> fold(options[i].id) != fold(options[j].id)
    ensures forall i :: 0 <= i < |options| && fold(options[i].id) == fold(wanted) ==> Matching(fold, options, wanted) == [options[i].id]
    ensures (forall i :: 0 <= i < |options| ==> fold(options[i].id) != fold(wanted)) ==> Matching(fold, options, wanted) == []
  {
    if options != [] {
      var rest := options[1..];
      assert forall i :: 0 <= i < |rest| ==> rest[i] == options[i + 1];
      MatchingFinds(fold, rest, wanted);
      assert forall i :: 1 <= i < |options| ==> options[i] == rest[i - 1];
    }
  }

  lemma FoldedDistinct(q: QuestionInput)
    ensures HasDuplicates(FoldedIds(CaseFold, q.options)) <==>
              !forall i, j :: 0 <= i < j < |q.options| ==> CaseFold(q.options[i].id) != CaseFold(q.options[j].id)
    ensures HasDuplicates(FoldedLabels(CaseFold, q.options)) <==>
              !forall i, j :: 0 <= i < j < |q.options| ==> CaseFold(q.options[i].labelText) != CaseFold(q.options[j].labelText)
  {
    hide CaseFold;
    var ids, labels := FoldedIds(CaseFold, q.options), FoldedLabels(CaseFold, q.options);
    assert |ids| == |q.options| == |labels|;
    assert forall i :: 0 <= i < |q.options| ==> ids[i] == CaseFold(q.options[i].id) && labels[i] == CaseFold(q.options[i].labelText);
  }

  /** The question checks accept exactly such questions, and spell the recommended id as its option does. */
  lemma QuestionChecksDecide(q: QuestionInput)
    ensures QuestionInputError(CaseFold, q).None? <==> QuestionFits(q)
    ensures QuestionFits(q) ==> forall i :: Recommends(q, i) ==> RecommendedId(CaseFold, q) == q.options[i].id
  {
    hide CaseFold, HasDuplicates;
    FoldedDistinct(q);
    if forall i, j :: 0 <= i < j < |q.options| ==> CaseFold(q.options[i].id) != CaseFold(q.options[j].id) {
      MatchingFinds(CaseFold, q.options, q.recommended);
      if forall i :: !Recommends(q, i) {
        forall i | 0 <= i < |q.options| ensures CaseFold(q.options[i].id) != CaseFold(q.recommended) { assert !Recommends(q, i); }
      }
    }
  }

  // ----- Every operation ---------------------------------------------------------------------

  /** An outline binding is given whole or not at all. */
  predicate OutlineWhole(o: Outline) {
    || o == Outline("", "", "", 0, "")
    || (o.commit != "" && o.version != "" && o.artifact != "" && o.revision != 0 && o.hash != "")
  }

  /** One to 64 seeds, none named twice. */
  predicate ArcSeedsFit(ids: seq<string>) {
    1 <= |ids| <= 64 && forall i, j :: 0 <= i < j < |ids| ==> ids[i] != ids[j]
  }

  /** As many offsets as quotes, one to 64; each quote the exact, bounded slice its offset names; a text with a UTF-8 form that has this hash. */
  predicate EvidenceFits(text: Text, hash: Digest, quotes: seq<Text>, offsets: seq<Span>) {
    && 1 <= |quotes| <= 64 && |offsets| == |quotes|
    && (forall i :: 0 <= i < |quotes| ==>
          && 1 <= |quotes[i]| <= 4096 && 0 <= offsets[i].start < offsets[i].end <= |text| && offsets[i].end <= 2_147_483_647
          && text[offsets[i].start..offsets[i].end] == quotes[i])
    && (forall i :: 0 <= i < |text| ==> !(0xD800 <= text[i] <= 0xDFFF))
    && hash == Sha256(OfText(text))
  }

  ghost predicate ArgumentsFit(op: Op) {
    match op
    case CreateSeed(p) => p.rev == 1 && OutlineWhole(p.outline)
    case CreateArc(p) => p.rev == 1 && ArcSeedsFit(p.seedIds)
    case AdvanceSeedStatus(_, target, _) => target == Expanded || target == Generated
    case RecordReview(p, text) => EvidenceFits(text, p.assistantHash, p.quotes, p.offsets)
    case RecordObservedReview(p, text) => EvidenceFits(text, p.assistantHash, p.quotes, p.offsets)
    case OpenQuestion(_, q, ttl) => QuestionFits(q) && 60 <= ttl <= 604_800
    case _ => true
  }

  /** The checks an operation makes on its arguments accept exactly those that fit. */
  lemma ArgumentsDecide(op: Op)
    ensures ArgumentError(op).None? <==> ArgumentsFit(op)
  {
    hide QuestionFits, EvidenceFits, ReviewEvidenceError, ObservedEvidenceError, QuestionInputError;
    match op {
      case RecordReview(p, text) => EvidenceDecides(text, p.assistantHash, p.quotes, p.offsets);
      case RecordObservedReview(p, text) => EvidenceDecides(text, p.assistantHash, p.quotes, p.offsets);
      case OpenQuestion(_, q, _) => QuestionChecksDecide(q);
      case _ =>
    }
  }

  lemma EvidenceDecides(text: Text, hash: Digest, quotes: seq<Text>, offsets: seq<Span>)
    ensures ReviewEvidenceError(text, hash, quotes, offsets).None? <==> EvidenceFits(text, hash, quotes, offsets)
    ensures ObservedEvidenceError(text, hash, quotes, offsets).None? <==> EvidenceFits(text, hash, quotes, offsets)
  {
    hide ReviewEvidenceError, ObservedEvidenceError;
    ReviewEvidenceAccepted(text, hash, quotes, offsets);
    ObservedEvidenceAccepted(text, hash, quotes, offsets);
  }
}
