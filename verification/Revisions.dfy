/**
  What the two revision counters and the idempotency log promise over whole runs.

  The control revision orders writers. The binding revision stamps manifests: as long as
  it stands still, every locked manifest that was read is still the one to be read.
  */
module Revisions {
  import opened Basics
  import opened EventTypes
  import opened EventSpec
  import opened EventLedger
  import opened LedgerOps
  import opened Manifest
  import opened Runs
  import opened Arguments

  // ----- The control revision ---------------------------------------------------------

  /** Answers that change the question for good: a selection, a cancellation, an expiry. */
  predicate Decides(body: Body) {
    body.AnswerBody? && (body.action in {Expired, Cancelled} || (body.action == Selected && body.why != AlreadyAnswered))
  }

  /** The operations that advance the control revision but not the binding revision. */
  predicate ControlOnly(op: Op, body: Body) { ReviewOp(op) || (op.AnswerQuestion? && Decides(body)) }

  lemma WhichAdvance(t: Tables, op: Op, env: Env)
    requires ArgumentError(op).None? && Apply(t, op, env).Ok?
    ensures var a := Apply(t, op, env).value;
            && (a.bind ==> a.advance)
            && (a.advance && !a.bind <==> ControlOnly(op, a.body))
  {
    Frame(t, op, env);
    if op.AnswerQuestion? {
      WhichAnswersAdvance(t, op.manifestHash, op.answer, env.now);
    } else {
      hide Apply;
    }
  }

  lemma WhichAnswersAdvance(t: Tables, h: Digest, answer: string, now: nat)
    requires AnswerSpec(t, h, answer, now).Ok?
    ensures var a := AnswerSpec(t, h, answer, now).value;
            !a.bind && (a.advance <==> Decides(a.body))
  {
  }

  /** How many calls of a run committed and advanced the control revision alone. */
  ghost function ControlOnlyCommits(s: State, calls: seq<Call>): nat
    decreases |calls|
  {
    if calls == [] then 0
    else
      var c := calls[0];
      (if Committed(s, c) && ControlOnly(c.op, Apply(s.tables, c.op, c.env).value.body) then 1 else 0)
      + ControlOnlyCommits(Step(s, c).state, calls[1..])
  }

  /** The gap between the counters grows by one for every review operation and every deciding answer, and by nothing else. */
  lemma {:induction false} GapCountsControlOnly(s: State, calls: seq<Call>)
    requires s.binding <= s.control
    ensures Run(s, calls).binding <= Run(s, calls).control
    ensures Run(s, calls).control - Run(s, calls).binding == s.control - s.binding + ControlOnlyCommits(s, calls)
    decreases |calls|
  {
    if calls != [] {
      StepGap(s, calls[0]);
      GapCountsControlOnly(Step(s, calls[0]).state, calls[1..]);
    }
  }

  lemma StepGap(s: State, c: Call)
    requires s.binding <= s.control
    ensures var s' := Step(s, c).state;
            s'.control - s'.binding == s.control - s.binding
              + if Committed(s, c) && ControlOnly(c.op, Apply(s.tables, c.op, c.env).value.body) then 1 else 0
  {
    StepCommits(s, c);
    if Committed(s, c) { WhichAdvance(s.tables, c.op, c.env); }
  }

  /** An advancing commit: the revision its client expected, and the revision it reported. */
  datatype Win = Win(expected: nat, revision: nat)

  ghost function Wins(s: State, calls: seq<Call>): seq<Win>
    decreases |calls|
  {
    if calls == [] then []
    else
      var c := calls[0];
      var next := Step(s, c);
      (if Committed(s, c) && next.state.control != s.control then [Win(c.expected, next.result.value.controlRevision)] else [])
      + Wins(next.state, calls[1..])
  }

  /** The advancing commits of a run take consecutive revisions: each expects the revision the one before it reported. */
  lemma {:induction false} WinsAreConsecutive(s: State, calls: seq<Call>)
    ensures s.control + |Wins(s, calls)| == Run(s, calls).control
    ensures forall i :: 0 <= i < |Wins(s, calls)| ==> Wins(s, calls)[i] == Win(s.control + i, s.control + i + 1)
    decreases |calls|
  {
    if calls != [] {
      StepCommits(s, calls[0]);
      WinsAreConsecutive(Step(s, calls[0]).state, calls[1..]);
    }
  }

  /** Of all the clients that expect one revision, at most one advances it. */
  lemma OneWinnerPerRevision(s: State, calls: seq<Call>, i: nat, j: nat)
    requires i < |Wins(s, calls)| && j < |Wins(s, calls)|
    requires Wins(s, calls)[i].expected == Wins(s, calls)[j].expected || Wins(s, calls)[i].revision == Wins(s, calls)[j].revision
    ensures i == j
  {
    WinsAreConsecutive(s, calls);
  }

  // ----- The idempotency log --------------------------------------------------------------

  /** A call that fails leaves every table, the log and both counters as they were. */
  lemma FailureChangesNothing(s: State, c: Call)
    requires Step(s, c).result.Err?
    ensures Step(s, c).state == s
  {
    StepCommits(s, c);
  }

  /** The two calls are of one operation. */
  ghost predicate SameOperation(a: Op, b: Op) {
    && (a.CreateSeed? <==> b.CreateSeed?) && (a.SupersedeSeed? <==> b.SupersedeSeed?)
    && (a.AdvanceSeedStatus? <==> b.AdvanceSeedStatus?) && (a.RetireSeed? <==> b.RetireSeed?)
    && (a.CreateArc? <==> b.CreateArc?) && (a.LockArc? <==> b.LockArc?)
    && (a.SupersedeArc? <==> b.SupersedeArc?) && (a.RetireArc? <==> b.RetireArc?)
    && (a.ProposeContract? <==> b.ProposeContract?) && (a.ProposeAndLockContract? <==> b.ProposeAndLockContract?)
    && (a.LockContract? <==> b.LockContract?) && (a.SupersedeContract? <==> b.SupersedeContract?)
    && (a.RetireContract? <==> b.RetireContract?)
    && (a.RecordReview? <==> b.RecordReview?) && (a.RetireReview? <==> b.RetireReview?)
    && (a.RecordObservedReview? <==> b.RecordObservedReview?)
    && (a.OpenQuestion? <==> b.OpenQuestion?) && (a.AnswerQuestion? <==> b.AnswerQuestion?)
    && (a.RetireExpiredQuestions? <==> b.RetireExpiredQuestions?) && (a.ClaimRuntimeRequest? <==> b.ClaimRuntimeRequest?)
  }

  /** Each operation has its own keys: two calls share a place in the log exactly when they are of one operation under one key. */
  lemma KeysArePerOperation(c: Call, d: Call)
    ensures LogKeyOf(c) == LogKeyOf(d) <==> c.key == d.key && SameOperation(c.op, d.op)
  {
  }

  /** One request twice: everything the caller hands in, but not the text a review quotes from, nor the case of a recommended id. */
  ghost predicate SameRequest(a: Op, b: Op) {
    match a
    case RecordReview(p, _) => b.RecordReview? && b.review == p
    case RecordObservedReview(p, _) => b.RecordObservedReview? && b.observed == p
    case OpenQuestion(manifest, q, ttl) =>
      && b.OpenQuestion? && b.manifest == manifest && b.ttl == ttl
      && b.question == q.(recommended := b.question.recommended) && CaseFold(b.question.recommended) == CaseFold(q.recommended)
    case _ => b == a
  }

  /** The request hash tells requests apart exactly so. */
  lemma RequestsDecide(a: Op, b: Op)
    requires ArgumentsFit(a) && ArgumentsFit(b) && SameOperation(a, b)
    ensures RequestHash(a) == RequestHash(b) <==> SameRequest(a, b)
  {
    hide CaseFold, QuestionFits, EvidenceFits;
    if a.OpenQuestion? { QuestionsDecide(a.question, b.question); }
  }

  lemma QuestionsDecide(q: QuestionInput, r: QuestionInput)
    requires QuestionFits(q) && QuestionFits(r)
    ensures QuestionInputError(CaseFold, q).None? && QuestionInputError(CaseFold, r).None?
    ensures q.options == r.options ==> (RecommendedId(CaseFold, q) == RecommendedId(CaseFold, r) <==> CaseFold(q.recommended) == CaseFold(r.recommended))
  {
    hide CaseFold, RecommendedId, QuestionInputError;
    QuestionChecksDecide(q);
    QuestionChecksDecide(r);
    var i :| Recommends(q, i);
    var j :| Recommends(r, j);
    if q.options == r.options && CaseFold(q.recommended) == CaseFold(r.recommended) { assert Recommends(r, i); }
  }

  /**
    Once a call has committed, any later call of the same operation under the same key
    returns the first response and changes nothing if it makes the same request, whatever
    revision it expects and whatever happened in between. If it makes another, it fails,
    and changes nothing.
    */
  lemma RetriesReplay(s: State, c: Call, r: Response, between: seq<Call>, d: Call)
    requires Inv(s) && Step(s, c).result == Ok(r)
    requires d.key == c.key && SameOperation(d.op, c.op) && ArgumentsFit(d.op)
    ensures var s' := Run(Step(s, c).state, between);
            Step(s', d) == Stepped(s', if SameRequest(c.op, d.op) then Ok(r) else Err(IdempotencyConflict))
  {
    hide Inv, ArgumentsFit, SameRequest, SameOperation, RequestHash, ArgumentError, Apply;
    StepKeeps(s, c);
    RunKeeps(Step(s, c).state, between);
    LoggedOnSuccess(s, c, r);
    KeysArePerOperation(c, d);
    ArgumentsDecide(c.op);
    ArgumentsDecide(d.op);
    CommittedIsValid(s, c);
    SameIsSame(c.op, d.op);
    RequestsDecide(c.op, d.op);
  }

  lemma SameIsSame(a: Op, b: Op)
    ensures SameOperation(a, b) <==> SameOperation(b, a)
  {
  }

  lemma LoggedOnSuccess(s: State, c: Call, r: Response)
    requires Step(s, c).result == Ok(r)
    ensures LogKeyOf(c) in Step(s, c).state.log
    ensures Step(s, c).state.log[LogKeyOf(c)] == LogEntry(RequestHash(c.op), r)
  {
  }

  // ----- The binding revision ------------------------------------------------------------------

  ghost predicate SameLockedState(s: State, s': State) {
    SameLocked(s.tables.seeds, s.tables.contracts, s'.tables.seeds, s'.tables.contracts)
  }

  lemma StepSameLocked(s: State, c: Call)
    requires Inv(s) && Step(s, c).state.binding == s.binding
    ensures SameLockedState(s, Step(s, c).state)
  {
    StepCommits(s, c);
    SameLockedReflexive(s.tables.seeds, s.tables.contracts);
    if Committed(s, c) { UnboundSameLocked(s.tables, c.op, c.env); }
  }

  lemma {:induction false} RunSameLocked(s: State, calls: seq<Call>)
    requires Inv(s) && Run(s, calls).binding == s.binding
    ensures SameLockedState(s, Run(s, calls))
    decreases |calls|
  {
    hide Inv, Step, TablesKept, SameLockedState;
    if calls == [] {
      SameLockedItself(s);
    } else {
      var next := Step(s, calls[0]).state;
      StepKeeps(s, calls[0]);
      RunKeeps(next, calls[1..]);
      StepSameLocked(s, calls[0]);
      RunSameLocked(next, calls[1..]);
      SameLockedThrough(s, next, Run(s, calls));
    }
  }

  lemma SameLockedItself(s: State)
    requires Inv(s)
    ensures SameLockedState(s, s)
  {
    SameLockedReflexive(s.tables.seeds, s.tables.contracts);
  }

  lemma SameLockedThrough(a: State, b: State, c: State)
    requires SameLockedState(a, b) && SameLockedState(b, c)
    ensures SameLockedState(a, c)
  {
    SameLockedTransitive(a.tables.seeds, a.tables.contracts, b.tables.seeds, b.tables.contracts, c.tables.seeds, c.tables.contracts);
  }

  ghost function ManifestIn(s: State, refs: seq<RowKey>): Result<EventTypes.Manifest, Error> {
    LockedManifest(s.tables.seeds, s.tables.contracts, s.binding, refs)
  }

  /** On a run that leaves the binding revision where it was, every locked manifest is what it was. */
  lemma BindingStampsManifests(s: State, calls: seq<Call>, refs: seq<RowKey>)
    requires Inv(s) && Run(s, calls).binding == s.binding
    ensures ManifestIn(s, refs).Ok? <==> ManifestIn(Run(s, calls), refs).Ok?
    ensures ManifestIn(s, refs).Ok? ==> ManifestIn(s, refs) == ManifestIn(Run(s, calls), refs)
  {
    RunKeeps(s, calls);
    RunSameLocked(s, calls);
    SameLockedSameManifest(s.tables.seeds, s.tables.contracts, Run(s, calls).tables.seeds, Run(s, calls).tables.contracts,
                           s.binding, refs);
  }

  // ----- Gate tokens --------------------------------------------------------------------------------

  /**
    Revalidates a gate token: the references, the manifest hash and the revision it was
    issued at. Whether the accepted outline is still exact is the caller's `outlineExact`.
    */
  ghost function ValidateToken(
    s: State, refs: seq<RowKey>, hash: Digest, revision: nat, outlineExact: Outline -> bool): Result<EventTypes.Manifest, Error>
  {
    match ManifestIn(s, refs)
    case Err(e) => Err(e)
    case Ok(m) =>
      if m.body.outline.Some? && !outlineExact(m.body.outline.value) then Err(OutlineBindingDrift)
      else if m.controlRevision != revision then Err(StaleControl)
      else if m.hash != hash then Err(ManifestHashMismatch)
      else Ok(m)
  }

  lemma ManifestIsStamped(s: State, refs: seq<RowKey>)
    ensures ManifestIn(s, refs).Ok? ==>
              ManifestIn(s, refs).value.controlRevision == s.binding
              && ManifestIn(s, refs).value.hash == Sha256(OfLockedManifest(ManifestIn(s, refs).value.body))
  {
  }

  /**
    A token issued earlier in a run is accepted exactly when the binding revision has not
    moved and the outline is still exact; it then stands for the manifest it was issued for.
    */
  lemma TokensOutliveUnboundChanges(s: State, calls: seq<Call>, refs: seq<RowKey>, m: EventTypes.Manifest, outlineExact: Outline -> bool)
    requires Inv(s) && ManifestIn(s, refs) == Ok(m)
    ensures var s' := Run(s, calls);
            var checked := ValidateToken(s', refs, m.hash, m.controlRevision, outlineExact);
            && (checked.Ok? <==> s'.binding == s.binding && (m.body.outline.Some? ==> outlineExact(m.body.outline.value)))
            && (checked.Ok? ==> checked.value == m)
  {
    var s' := Run(s, calls);
    ManifestIsStamped(s, refs);
    ManifestIsStamped(s', refs);
    if s'.binding == s.binding { BindingStampsManifests(s, calls, refs); }
  }

  /** Reviews, answers and runtime claims never invalidate a token. */
  lemma InteractionKeepsTokens(s: State, c: Call)
    requires c.op.AnswerQuestion? || ReviewOp(c.op) || c.op.ClaimRuntimeRequest?
    ensures Step(s, c).state.binding == s.binding
  {
    StepCommits(s, c);
    if Committed(s, c) { Frame(s.tables, c.op, c.env); }
  }

  // ----- Opening a question ---------------------------------------------------------------------------

  /** The arguments of open_question: the references it is about and the hash the caller holds for them. */
  datatype Asking = Asking(refs: seq<RowKey>, hash: Digest, question: QuestionInput, ttl: int, key: string, expected: nat, env: Env)

  function OpenCall(a: Asking, manifest: SeedManifest): Call {
    Call(OpenQuestion(manifest, a.question, a.ttl), a.key, a.expected, a.env)
  }

  /** The first half of open_question: it reads the seeds, and fails on what it finds there. */
  ghost function AskRead(s: State, a: Asking): Result<SeedManifest, Error> {
    match SeedManifestOf(s.tables.seeds, a.refs)
    case Err(e) => Err(e)
    case Ok(manifest) => if Sha256(OfSeedManifest(manifest)) != a.hash then Err(QuestionManifestMismatch) else Ok(manifest)
  }

  /** open_question reads the seeds in one state; only its transaction, in a later state s, looks at the idempotency key. */
  ghost function Ask(read: State, s: State, a: Asking): Stepped {
    match AskRead(read, a)
    case Err(e) => Stepped(s, Err(e))
    case Ok(manifest) => Step(s, OpenCall(a, manifest))
  }

  ghost predicate NoneRetired(seeds: Seeds, refs: seq<RowKey>) {
    forall k :: k in refs ==> k in seeds && seeds[k].status != SeedRetired
  }

  /** The seed manifest reads nothing that changes: it stands until one of its seeds retires. */
  lemma {:induction false} SeedEntriesStand(seeds: Seeds, seeds': Seeds, refs: seq<RowKey>)
    requires SeedsKept(seeds, seeds') && SeedEntries(seeds, refs).Ok?
    ensures SeedEntries(seeds', refs) ==
              if NoneRetired(seeds', refs) then SeedEntries(seeds, refs) else Err(SeedAlreadyRetired)
  {
    if refs != [] {
      SeedEntriesStand(seeds, seeds', refs[1..]);
      assert SeedKept(seeds[refs[0]], seeds'[refs[0]]);
      assert refs == [refs[0]] + refs[1..];
    }
  }

  lemma SeedManifestStands(seeds: Seeds, seeds': Seeds, refs: seq<RowKey>)
    requires SeedsKept(seeds, seeds') && SeedManifestOf(seeds, refs).Ok?
    ensures SeedManifestOf(seeds', refs) ==
              if NoneRetired(seeds', refs) then SeedManifestOf(seeds, refs) else Err(SeedAlreadyRetired)
  {
    SeedEntriesStand(seeds, seeds', refs);
  }

  /** What a retry repeats: everything but the revision it expects and what it reads from outside. */
  ghost predicate Retries(b: Asking, a: Asking) { b == a.(expected := b.expected, env := b.env) }

  /**
    Other calls may come in between the two halves of open_question, the first time and on
    the retry. A retry of a committed open_question replays the first response exactly if
    none of its seeds has retired when it reads them, and raises otherwise; it never changes
    anything.
    */
  lemma AskReplaysWhileSeedsLive(
    s: State, meanwhile: seq<Call>, a: Asking, r: Response, between: seq<Call>, b: Asking, meanwhile': seq<Call>)
    requires Inv(s) && Ask(s, Run(s, meanwhile), a).result == Ok(r) && Retries(b, a)
    ensures var read := Run(Ask(s, Run(s, meanwhile), a).state, between);
            var now := Run(read, meanwhile');
            Ask(read, now, b) == Stepped(now, if NoneRetired(read.tables.seeds, a.refs) then Ok(r) else Err(SeedAlreadyRetired))
  {
    var manifest := AskRead(s, a).value;
    var first := Run(s, meanwhile);
    var done := Step(first, OpenCall(a, manifest)).state;
    var read := Run(done, between);
    hide Inv, Step, TablesKept, ArgumentsFit, ArgumentError, SameOperation, SameRequest, OpenCall;
    RunKeeps(s, meanwhile);
    StepKeeps(first, OpenCall(a, manifest));
    RunKeeps(done, between);
    LaterTransitive(s, first, done);
    LaterTransitive(s, done, read);
    LaterKeepsSeeds(s, read);
    SeedManifestStands(s.tables.seeds, read.tables.seeds, a.refs);
    RunSplits(done, between, meanwhile');
    CommittedIsValid(first, OpenCall(a, manifest));
    RetriedCall(a, b, manifest);
    RetriesReplay(first, OpenCall(a, manifest), r, between + meanwhile', OpenCall(b, manifest));
  }

  lemma RetriedCall(a: Asking, b: Asking, manifest: SeedManifest)
    requires Retries(b, a) && ArgumentError(OpenCall(a, manifest).op).None?
    ensures var c, d := OpenCall(a, manifest), OpenCall(b, manifest);
            d.key == c.key && SameOperation(d.op, c.op) && ArgumentsFit(d.op) && SameRequest(c.op, d.op)
  {
    ArgumentsDecide(OpenCall(a, manifest).op);
    hide ArgumentsFit, ArgumentError;
  }

  lemma LaterKeepsSeeds(s: State, s': State)
    requires Later(s, s')
    ensures SeedsKept(s.tables.seeds, s'.tables.seeds)
  {
  }

  lemma CommittedIsValid(s: State, c: Call)
    requires Step(s, c).result.Ok?
    ensures ArgumentError(c.op).None?
  {
  }
}
