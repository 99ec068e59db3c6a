/**
  Rows, payloads, requests and responses of the event-experience control plane.

  A payload keeps the fields some operation reads; the remaining fields travel as one
  uninterpreted `details` text. Column values that copy a payload field are read from the
  payload. Times are natural numbers handed in by the caller.
  */
module EventTypes {
  import opened Basics
  import CanonicalJson

  /** A text under review: code points, isolated surrogates included. */
  type Text = CanonicalJson.Text

  /** A required text: never empty. */
  type Id = s: string | s != "" witness "x"

  /** Primary key of the seed and arc tables: identity and revision. */
  datatype RowKey = RowKey(id: string, rev: nat)

  /** SHA-256 over a canonical value, as a free constructor: it is injective and nothing else. */
  datatype Digest = Sha256(of: Hashed)

  datatype Hashed =
    | OfSeed(seed: SeedPayload)
    | OfArc(arc: ArcPayload, bindings: seq<SeedBinding>)
    | OfContract(contract: ContractPayload)
    | OfReview(review: ReviewPayload)
    | OfObservedReview(observed: ObservedPayload)
    | OfQuestion(question: QuestionPayload)
    | OfSeedManifest(seeds: SeedManifest)
    | OfLockedManifest(locked: ManifestBody)
    | OfRequest(op: Op)
    | OfRuntimeRequest(runtime: string)
    | OfText(text: Text)
    | OfExternal(bytes: string)

  datatype Retirement = Retirement(at: nat, reason: string)

  // ----- Seeds ------------------------------------------------------------------

  datatype SeedStatus = Seeded | ExperienceLocked | Expanded | Generated | SeedRetired

  /** The statuses in which a seed is bound to a locked contract. */
  predicate LockedType(s: SeedStatus) { s in {ExperienceLocked, Expanded, Generated} }

  datatype Context = Context(chain: string, branch: string, artifactId: string, artifactRevision: nat)

  datatype Outline = Outline(commit: string, version: string, artifact: string, revision: nat, hash: string) {
    predicate Any() { commit != "" || version != "" || artifact != "" || revision != 0 || hash != "" }

    predicate All() { commit != "" && version != "" && artifact != "" && revision != 0 && hash != "" }

    predicate Complete() { Any() ==> All() }
  }

  datatype SeedPayload = SeedPayload(
    id: string, rev: nat, context: Context, order: nat, outline: Outline,
    supersedes: Option<nat>, details: string)
  {
    function Key(): RowKey { RowKey(id, rev) }
  }

  /** A replacement seed as a caller supplies it; identity and revision come from the table. */
  datatype SeedInput = SeedInput(
    context: Context, order: nat, outline: Outline, supersedes: Option<nat>, details: string)

  datatype SeedRow = SeedRow(
    payload: SeedPayload, hash: Digest, status: SeedStatus,
    contractId: Option<string>, contractHash: Option<Digest>,
    supersedes: Option<nat>, retirement: Option<Retirement>)

  datatype SeedBinding = SeedBinding(key: RowKey, hash: Digest)

  // ----- Arcs and contracts -------------------------------------------------------

  datatype DocStatus = Proposed | Locked | Retired

  predicate Active(s: DocStatus) { s != Retired }

  datatype ArcPayload = ArcPayload(
    id: string, rev: nat, context: Context, seedIds: seq<string>, supersedes: Option<nat>, details: string)
  {
    function Key(): RowKey { RowKey(id, rev) }
  }

  datatype ArcInput = ArcInput(context: Context, seedIds: seq<string>, supersedes: Option<nat>, details: string)

  datatype ArcRow = ArcRow(
    payload: ArcPayload, bindings: seq<SeedBinding>, hash: Digest, status: DocStatus,
    supersedes: Option<nat>, lockedAt: Option<nat>, retirement: Option<Retirement>)

  datatype Intent = Intent(id: string, rev: nat, hash: Digest)

  /** The experience fields whose provenance a locked contract must carry. */
  datatype ExperienceField =
    | EntryReaderState | TargetReaderState | PrimaryEmotion | EmotionalTurn | Intensity | EmotionCurve
    | Mechanisms | ReaderKnowledgePosition | ViewpointCharacterState | PayoffOrReveal | Aftertaste
    | AntiExperiences | SuccessSignals

  /** One provenance entry: an object with so many fields, or something else. */
  datatype Evidence = NotAnObject | Fields(count: nat)

  /** What a contract says about its seed; a silent field is not checked. */
  datatype Claims = Claims(
    chain: Option<string>, branch: Option<string>, artifactId: Option<string>,
    artifactRevision: Option<nat>, seedDetails: Option<string>)

  datatype ContractInput = ContractInput(
    id: Id, seed: RowKey, rev: Option<nat>, supersedes: string, claims: Claims,
    intent: Intent, provenance: map<ExperienceField, Evidence>, details: string)

  datatype ContractPayload = ContractPayload(
    id: Id, rev: nat, seed: RowKey, context: Context, seedDetails: string, supersedes: string,
    intent: Intent, provenance: map<ExperienceField, Evidence>, details: string)

  datatype ContractRow = ContractRow(
    payload: ContractPayload, hash: Digest, status: DocStatus,
    supersedes: Option<string>, lockedAt: Option<nat>, retirement: Option<Retirement>)

  // ----- Reviews --------------------------------------------------------------------

  datatype ReviewStatus = Recorded | Superseded | ReviewRetired

  datatype Span = Span(start: int, end: int)

  datatype ReviewPayload = ReviewPayload(
    id: string, rev: nat, proposal: string, receipt: string, assistantHash: Digest,
    contractId: string, contractHash: Digest, artifactRevision: nat,
    quotes: seq<Text>, offsets: seq<Span>, supersedes: string, details: string)

  datatype ReviewRow = ReviewRow(
    payload: ReviewPayload, hash: Digest, status: ReviewStatus, retirement: Option<Retirement>)

  datatype ObservedPayload = ObservedPayload(
    id: string, rev: nat, artifactId: string, artifactRevision: nat, branch: string,
    sourceCommit: string, sourceHash: Digest, assistantHash: Digest,
    quotes: seq<Text>, offsets: seq<Span>, supersedes: string, details: string)

  datatype ObservedRow = ObservedRow(payload: ObservedPayload, hash: Digest, status: ReviewStatus)

  /** What the continuity tables hold for a source commit. */
  datatype AcceptedSource = AcceptedSource(
    accepted: bool, artifactId: string, branch: string, artifactRevision: nat, contentHash: Digest)

  // ----- Questions -------------------------------------------------------------------

  datatype QuestionStatus = AwaitingAnswer | AwaitingEventExperience | Answered | QuestionRetired

  predicate Open(s: QuestionStatus) { s in {AwaitingAnswer, AwaitingEventExperience} }

  datatype QuestionOption = QuestionOption(id: string, labelText: string, value: string)

  datatype QuestionInput = QuestionInput(
    text: string, options: seq<QuestionOption>, recommended: string, rationale: string)

  datatype QuestionPayload = QuestionPayload(
    manifest: Digest, text: string, options: seq<QuestionOption>, recommended: string,
    rationale: string, bindings: seq<SeedBinding>)

  datatype QuestionRow = QuestionRow(
    payload: QuestionPayload, hash: Digest, status: QuestionStatus, attempts: nat,
    selected: Option<string>, selectedAt: Option<nat>, expiresAt: nat)

  // ----- Manifests --------------------------------------------------------------------

  datatype SeedEntry = SeedEntry(
    key: RowKey, seedHash: Digest, order: nat, context: Context, outline: Option<Outline>)

  datatype SeedManifest = SeedManifest(context: Context, outline: Option<Outline>, entries: seq<SeedEntry>)

  datatype LockedEntry = LockedEntry(
    key: RowKey, seedHash: Digest, order: nat, contractId: string, contractRev: nat, contractHash: Digest,
    context: Context, outline: Option<Outline>, intent: Intent)

  datatype ManifestBody = ManifestBody(
    context: Context, outline: Option<Outline>, intent: Intent, entries: seq<LockedEntry>)

  /** A locked manifest, stamped with the binding revision it was read at. */
  datatype Manifest = Manifest(body: ManifestBody, hash: Digest, controlRevision: nat)

  // ----- Requests ----------------------------------------------------------------------

  datatype Op =
    | CreateSeed(seed: SeedPayload)
    | SupersedeSeed(seedId: string, replacement: SeedInput, reason: string)
    | CreateArc(arc: ArcPayload)
    | LockArc(arcKey: RowKey, expectedHash: Option<Digest>)
    | SupersedeArc(arcId: string, newArc: ArcInput, reason: string, lock: bool)
    | RetireArc(arcKey: RowKey, reason: string)
    | ProposeContract(contract: ContractInput)
    | ProposeAndLockContract(contract: ContractInput)
    | LockContract(contractId: string, expectedHash: Option<Digest>)
    | SupersedeContract(contractId: string, contract: ContractInput, reason: string, lock: bool)
    | RetireContract(contractId: string, reason: string)
    | AdvanceSeedStatus(seedKey: RowKey, target: SeedStatus, contractHash: Digest)
    | RetireSeed(seedKey: RowKey, reason: string)
    | RecordReview(review: ReviewPayload, text: Text)
    | RetireReview(reviewId: string, reason: string)
    | RecordObservedReview(observed: ObservedPayload, text: Text)
    | OpenQuestion(manifest: SeedManifest, question: QuestionInput, ttl: int)
    | RetireExpiredQuestions(observedAt: Option<nat>)
    | ClaimRuntimeRequest(request: string)
    | AnswerQuestion(manifestHash: Digest, answer: string)

  datatype OpName =
    | CreateSeedOp | SupersedeSeedOp | CreateArcOp | LockArcOp | SupersedeArcOp | RetireArcOp
    | ProposeContractOp | ProposeAndLockContractOp | LockContractOp | SupersedeContractOp | RetireContractOp
    | AdvanceSeedStatusOp | RetireSeedOp | RecordReviewOp | RetireReviewOp | RecordObservedReviewOp
    | OpenQuestionOp | RetireExpiredQuestionsOp | ClaimRuntimeRequestOp | AnswerQuestionOp

  function Name(op: Op): OpName {
    match op
    case CreateSeed(_) => CreateSeedOp
    case SupersedeSeed(_, _, _) => SupersedeSeedOp
    case CreateArc(_) => CreateArcOp
    case LockArc(_, _) => LockArcOp
    case SupersedeArc(_, _, _, _) => SupersedeArcOp
    case RetireArc(_, _) => RetireArcOp
    case ProposeContract(_) => ProposeContractOp
    case ProposeAndLockContract(_) => ProposeAndLockContractOp
    case LockContract(_, _) => LockContractOp
    case SupersedeContract(_, _, _, _) => SupersedeContractOp
    case RetireContract(_, _) => RetireContractOp
    case AdvanceSeedStatus(_, _, _) => AdvanceSeedStatusOp
    case RetireSeed(_, _) => RetireSeedOp
    case RecordReview(_, _) => RecordReviewOp
    case RetireReview(_, _) => RetireReviewOp
    case RecordObservedReview(_, _) => RecordObservedReviewOp
    case OpenQuestion(_, _, _) => OpenQuestionOp
    case RetireExpiredQuestions(_) => RetireExpiredQuestionsOp
    case ClaimRuntimeRequest(_) => ClaimRuntimeRequestOp
    case AnswerQuestion(_, _) => AnswerQuestionOp
  }

  // ----- Responses -----------------------------------------------------------------------

  datatype Counts = Counts(seeds: nat, arcs: nat, contracts: nat)

  datatype Action = Expired | Selected | Cancelled | Repeat | AwaitingExplicitChoice

  datatype Reason =
    | TtlExpired | AlreadyAnswered | ExplicitCancel | RepeatedOnce | LimitReached
    | RecommendedDelegation | ExplicitChoice

  datatype Body =
    | SeedBody(seed: SeedRow, supersededSeed: Option<nat>)
    | ArcBody(arc: ArcRow, supersededArc: Option<nat>)
    | ContractBody(contract: ContractRow, supersededContract: Option<string>)
    | ReviewBody(review: ReviewRow)
    | ObservedBody(observed: ObservedRow)
    | AskBody(asked: QuestionRow)
    | AnswerBody(action: Action, why: Reason, question: QuestionRow,
                 option: Option<QuestionOption>, retired: Option<Counts>)
    | ExpiredBody(manifests: set<Digest>, retiredTotals: Counts, observedAt: nat)
    | ClaimBody(requestHash: Digest)

  datatype Response = Response(body: Body, controlRevision: nat)

  datatype Error =
    | IdempotencyConflict | StaleControl
    | FieldRequired | FieldTooLong | ListTooLong | IntegerRange
    | SeedRevision | SeedNotFound | SeedExists | SeedAlreadyRetired | SeedSupersessionMismatch
    | SeedIdentityMismatch | DependencyOrderConflict | OutlineBindingIncomplete
    | SeedNotLockable | SeedRevisionRequired | SeedStatusInvalid | SeedTransition
    | DuplicateSeed | ArcRevision | ArcNotFound | ArcExists | ArcActive | ArcRetired | ArcNotProposed
    | ArcNotLatest | ArcHashMismatch | ArcChainMismatch | ArcSupersessionMismatch
    | ArcSeedMismatch | ArcSeedContextMismatch | ArcBindingMissing | ArcBindingInvalid | ArcBindingStale
    | ContractNotFound | ContractExists | ContractActive | ContractRevision | ContractSupersessionRequired
    | ContractSeedContextMismatch | ContractNotProposed | ContractHashMismatch | ContractAlreadyRetired
    | ContractSupersessionMismatch | ContractIdReused | ContractBindingInvalid
    | ProvenanceIncomplete | ProvenanceInvalid
    | ReviewEvidenceCount | ReviewOffsetRange | ReviewQuoteMismatch | ReviewIndexOutOfRange
    | TextNotEncodable | AssistantHashMismatch | ReviewContractNotLocked | ReviewArtifactMismatch | ReviewNotFound
    | ReviewNotActive | ReviewContractMismatch | ReviewLineageMismatch | ReviewRevision
    | ReviewIdReused | ReviewExists | ObservedSourceNotFound | ObservedSourceDrift
    | ManifestEmpty | ManifestDuplicate | ManifestContextMismatch | ManifestOutlineMismatch
    | ManifestIntentMismatch | ManifestHashMismatch | ContractRequired | OutlineBindingDrift
    | QuestionOptionCount | QuestionOptionDuplicate | QuestionLabelDuplicate | QuestionRecommendation
    | QuestionManifestMismatch | QuestionBindingStale | QuestionContractExists | QuestionExists
    | QuestionNotFound | QuestionAlreadyRetired | QuestionAlreadyAnswered

  // ----- The whole control state ------------------------------------------------------------

  datatype Tables = Tables(
    seeds: map<RowKey, SeedRow>, contracts: map<string, ContractRow>, arcs: map<RowKey, ArcRow>,
    reviews: map<string, ReviewRow>, observed: map<string, ObservedRow>, questions: map<Digest, QuestionRow>)

  datatype LogKey = LogKey(operation: OpName, key: string)

  datatype LogEntry = LogEntry(request: Digest, response: Response)

  datatype State = State(tables: Tables, log: map<LogKey, LogEntry>, control: nat, binding: nat)

  /** What a call reads from outside the database: the clock and the continuity tables. */
  datatype Env = Env(now: nat, source: Option<AcceptedSource>)

  datatype Call = Call(op: Op, key: string, expected: nat, env: Env)
}
