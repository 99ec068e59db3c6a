/** The evidence checks a review passes before it reaches its transaction. */
module ReviewEvidence {
  import opened Basics
  import opened EventTypes
  import CanonicalJson

  const MAX_INTEGER := 2_147_483_647
  const MAX_QUOTE := 4096
  const MAX_ITEMS := 64

  /** The list check: every quote verbatim, non-empty and bounded; at least one, at most 64. */
  function QuoteListError(quotes: seq<Text>): Option<Error> {
    match QuoteTextError(quotes)
    case Some(e) => Some(e)
    case None =>
      if quotes == [] then Some(FieldRequired)
      else if |quotes| > MAX_ITEMS then Some(ListTooLong)
      else None
  }

  function QuoteTextError(quotes: seq<Text>): Option<Error> {
    if quotes == [] then None
    else if quotes[0] == [] then Some(FieldRequired)
    else if |quotes[0]| > MAX_QUOTE then Some(FieldTooLong)
    else QuoteTextError(quotes[1..])
  }

  predicate IntegerInRange(n: int) { 0 <= n <= MAX_INTEGER }

  function OffsetListError(offsets: seq<Span>): Option<Error> {
    if offsets == [] then None
    else if !IntegerInRange(offsets[0].start) || !IntegerInRange(offsets[0].end) then Some(IntegerRange)
    else if offsets[0].end <= offsets[0].start then Some(ReviewOffsetRange)
    else OffsetListError(offsets[1..])
  }

  /** The quote is the exact slice of the source that its offset names. */
  predicate IsSlice(source: Text, quote: Text, offset: Span) {
    0 <= offset.start < offset.end <= |source| && source[offset.start..offset.end] == quote
  }

  function SliceError(source: Text, quotes: seq<Text>, offsets: seq<Span>): Option<Error> {
    if quotes == [] || offsets == [] then None
    else if !IsSlice(source, quotes[0], offsets[0]) then Some(ReviewQuoteMismatch)
    else SliceError(source, quotes[1..], offsets[1..])
  }

  /** The text has a UTF-8 form: it holds no isolated surrogate. */
  predicate Encodable(source: Text) { forall i :: 0 <= i < |source| ==> !CanonicalJson.IsSurrogate(source[i]) }

  /** Encodes the text and compares its hash. */
  function TextHashError(source: Text, hash: Digest): Option<Error> {
    if !Encodable(source) then Some(TextNotEncodable)
    else if Sha256(OfText(source)) != hash then Some(AssistantHashMismatch)
    else None
  }

  /** The evidence part of a review payload: None means the evidence is accepted. */
  function ReviewEvidenceError(source: Text, hash: Digest, quotes: seq<Text>, offsets: seq<Span>): Option<Error> {
    match QuoteListError(quotes)
    case Some(e) => Some(e)
    case None =>
      match OffsetListError(offsets)
      case Some(e) => Some(e)
      case None =>
        if |quotes| != |offsets| then Some(ReviewEvidenceCount)
        else if TextHashError(source, hash).Some? then TextHashError(source, hash)
        else SliceError(source, quotes, offsets)
  }

  /** The observed-review variant hashes first and indexes the quotes while it reads the offsets. */
  function ObservedEvidenceError(source: Text, hash: Digest, quotes: seq<Text>, offsets: seq<Span>): Option<Error> {
    if TextHashError(source, hash).Some? then TextHashError(source, hash)
    else
      match QuoteListError(quotes)
      case Some(e) => Some(e)
      case None =>
        match ObservedOffsetError(source, quotes, offsets)
        case Some(e) => Some(e)
        case None => if |quotes| != |offsets| then Some(ReviewEvidenceCount) else None
  }

  function ObservedOffsetError(source: Text, quotes: seq<Text>, offsets: seq<Span>): Option<Error> {
    if offsets == [] then None
    else
      var o := offsets[0];
      if !IntegerInRange(o.start) || !IntegerInRange(o.end) then Some(IntegerRange)
      else if o.end <= o.start || o.end > |source| then Some(ReviewQuoteMismatch)
      else if quotes == [] then Some(ReviewIndexOutOfRange)
      else if source[o.start..o.end] != quotes[0] then Some(ReviewQuoteMismatch)
      else ObservedOffsetError(source, quotes[1..], offsets[1..])
  }

  /** What accepted evidence means, stated without reference to the order of the checks. */
  predicate SoundEvidence(source: Text, quotes: seq<Text>, offsets: seq<Span>) {
    && 1 <= |quotes| <= MAX_ITEMS
    && |quotes| == |offsets|
    && (forall i :: 0 <= i < |quotes| ==> 1 <= |quotes[i]| <= MAX_QUOTE)
    && (forall i :: 0 <= i < |offsets| ==>
          offsets[i].end <= MAX_INTEGER && IsSlice(source, quotes[i], offsets[i]))
  }

  lemma {:induction false} QuoteTextsSound(quotes: seq<Text>)
    ensures QuoteTextError(quotes) == None <==> forall i :: 0 <= i < |quotes| ==> 1 <= |quotes[i]| <= MAX_QUOTE
  {
    if quotes != [] {
      QuoteTextsSound(quotes[1..]);
      assert forall i :: 1 <= i < |quotes| ==> quotes[i] == quotes[1..][i - 1];
      assert quotes[0] == [] <==> |quotes[0]| == 0;
    }
  }

  lemma {:induction false} OffsetsSound(offsets: seq<Span>)
    ensures OffsetListError(offsets) == None
            <==> forall i :: 0 <= i < |offsets| ==> 0 <= offsets[i].start < offsets[i].end <= MAX_INTEGER
  {
    if offsets != [] {
      OffsetsSound(offsets[1..]);
      assert forall i :: 1 <= i < |offsets| ==> offsets[i] == offsets[1..][i - 1];
    }
  }

  lemma {:induction false} SlicesSound(source: Text, quotes: seq<Text>, offsets: seq<Span>)
    requires |quotes| == |offsets|
    ensures SliceError(source, quotes, offsets) == None
            <==> forall i :: 0 <= i < |quotes| ==> IsSlice(source, quotes[i], offsets[i])
  {
    if quotes != [] {
      SlicesSound(source, quotes[1..], offsets[1..]);
      assert forall i :: 1 <= i < |quotes| ==> quotes[i] == quotes[1..][i - 1] && offsets[i] == offsets[1..][i - 1];
    }
  }

  lemma {:induction false} ObservedOffsetsSound(source: Text, quotes: seq<Text>, offsets: seq<Span>)
    ensures ObservedOffsetError(source, quotes, offsets) == None
            <==> |offsets| <= |quotes|
                 && forall i :: 0 <= i < |offsets| ==> offsets[i].end <= MAX_INTEGER && IsSlice(source, quotes[i], offsets[i])
  {
    if offsets != [] {
      if quotes != [] {
        ObservedOffsetsSound(source, quotes[1..], offsets[1..]);
        assert forall i :: 1 <= i < |quotes| ==> quotes[i] == quotes[1..][i - 1];
        assert forall i :: 1 <= i < |offsets| ==> offsets[i] == offsets[1..][i - 1];
      }
    }
  }

  /** A review's evidence is accepted exactly when it is sound and the source text has a UTF-8 form, whose hash is given. */
  lemma ReviewEvidenceAccepted(source: Text, hash: Digest, quotes: seq<Text>, offsets: seq<Span>)
    ensures ReviewEvidenceError(source, hash, quotes, offsets) == None
            <==> SoundEvidence(source, quotes, offsets) && Encodable(source) && hash == Sha256(OfText(source))
  {
    QuoteTextsSound(quotes);
    OffsetsSound(offsets);
    if |quotes| == |offsets| { SlicesSound(source, quotes, offsets); }
  }

  /** The two review kinds accept the same evidence, though they check it in different orders. */
  lemma ObservedEvidenceAccepted(source: Text, hash: Digest, quotes: seq<Text>, offsets: seq<Span>)
    ensures ObservedEvidenceError(source, hash, quotes, offsets) == None
            <==> ReviewEvidenceError(source, hash, quotes, offsets) == None
  {
    ReviewEvidenceAccepted(source, hash, quotes, offsets);
    QuoteTextsSound(quotes);
    ObservedOffsetsSound(source, quotes, offsets);
  }
}
