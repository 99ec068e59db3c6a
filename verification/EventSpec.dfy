/**
  What each operation does to the tables, as functions of the tables before it.

  Every function mirrors one operation's transaction: the same checks in the same order,
  then the new tables. A failing check yields an error and no tables: the transaction is
  rolled back. EventService proves the statement-by-statement service against this.
  */
module EventSpec {
  import opened Basics
  import opened EventTypes
  import opened ReviewEvidence

  /** A transaction's effect, and which of the two revision counters it advances. */
  datatype Applied = Applied(tables: Tables, body: Body, advance: bool, bind: bool)

  type Outcome = Result<Applied, Error>

  // ----- Row lookups -------------------------------------------------------------------

  predicate IsLatest(keys: set<RowKey>, id: string, rev: nat) {
    RowKey(id, rev) in keys && forall k :: k in keys && k.id == id ==> k.rev <= rev
  }

  lemma LatestExists(keys: set<RowKey>, id: string)
    requires exists k :: k in keys && k.id == id
    ensures exists rev: nat :: IsLatest(keys, id, rev)
  {
    var k :| k in keys && k.id == id;
    var rest := keys - {k};
    if exists j :: j in rest && j.id == id {
      LatestExists(rest, id);
      var r: nat :| IsLatest(rest, id, r);
      assert IsLatest(keys, id, if r < k.rev then k.rev else r);
    } else {
      assert IsLatest(keys, id, k.rev);
    }
  }

  /** SELECT ... WHERE id=? ORDER BY revision DESC LIMIT 1 */
  ghost function Latest(keys: set<RowKey>, id: string): (r: Option<nat>)
    ensures r.None? <==> forall k :: k in keys ==> k.id != id
    ensures r.Some? ==> IsLatest(keys, id, r.value)
  {
    if exists k :: k in keys && k.id == id then
      LatestExists(keys, id);
      var rev: nat :| IsLatest(keys, id, rev);
      Some(rev)
    else None
  }

  function LiveSeeds(seeds: map<RowKey, SeedRow>): set<RowKey> {
    set k | k in seeds && seeds[k].status != SeedRetired
  }

  /** Some live seed, other than those named `except`, occupies this place in the chain. */
  predicate Occupied(seeds: map<RowKey, SeedRow>, chain: string, order: nat, except: Option<string>) {
    exists k :: k in seeds && seeds[k].status != SeedRetired
                && seeds[k].payload.context.chain == chain && seeds[k].payload.order == order
                && except != Some(k.id)
  }

  function ActiveOn(contracts: map<string, ContractRow>, ks: set<RowKey>): set<string> {
    set c | c in contracts && contracts[c].payload.seed in ks && Active(contracts[c].status)
  }

  function ProposedOn(contracts: map<string, ContractRow>, ks: set<RowKey>): set<string> {
    set c | c in contracts && contracts[c].payload.seed in ks && contracts[c].status == Proposed
  }

  // ----- Row updates ---------------------------------------------------------------------

  function RetireSeedRows(seeds: map<RowKey, SeedRow>, ks: set<RowKey>, mark: Retirement): map<RowKey, SeedRow> {
    map k | k in seeds :: if k in ks then seeds[k].(status := SeedRetired, retirement := Some(mark)) else seeds[k]
  }

  function RetireContractRows(contracts: map<string, ContractRow>, cs: set<string>, mark: Retirement): map<string, ContractRow> {
    map c | c in contracts :: if c in cs then contracts[c].(status := Retired, retirement := Some(mark)) else contracts[c]
  }

  function RetireArcRows(arcs: map<RowKey, ArcRow>, ks: set<RowKey>, mark: Retirement): map<RowKey, ArcRow> {
    map k | k in arcs :: if k in ks then arcs[k].(status := Retired, retirement := Some(mark)) else arcs[k]
  }

  function NewSeedRow(p: SeedPayload, supersedes: Option<nat>): SeedRow {
    SeedRow(p, Sha256(OfSeed(p)), Seeded, None, None, supersedes, None)
  }

  function BindSeed(row: SeedRow, contractId: string, hash: Digest): SeedRow {
    row.(status := ExperienceLocked, contractId := Some(contractId), contractHash := Some(hash))
  }

  function UnbindSeed(row: SeedRow): SeedRow {
    row.(status := Seeded, contractId := None, contractHash := None)
  }

  // ----- Seeds -----------------------------------------------------------------------------

  function CreateSeedSpec(t: Tables, p: SeedPayload): Outcome {
    if Occupied(t.seeds, p.context.chain, p.order, None) then Err(DependencyOrderConflict)
    else if p.Key() in t.seeds then Err(SeedExists)
    else
      var row := NewSeedRow(p, None);
      Ok(Applied(t.(seeds := t.seeds[p.Key() := row]), SeedBody(row, None), true, true))
  }

  function Replacement(id: string, rev: nat, input: SeedInput): SeedPayload {
    SeedPayload(id, rev + 1, input.context, input.order, input.outline, Some(rev), input.details)
  }

  ghost function SupersedeSeedSpec(t: Tables, id: string, input: SeedInput, reason: string, now: nat): Outcome {
    match Latest(t.seeds.Keys, id)
    case None => Err(SeedNotFound)
    case Some(rev) =>
      var key := RowKey(id, rev);
      var previous := t.seeds[key];
      var p := Replacement(id, rev, input);
      if previous.status == SeedRetired then Err(SeedAlreadyRetired)
      else if input.supersedes.Some? && input.supersedes.value != rev then Err(SeedSupersessionMismatch)
      else if !input.outline.Complete() then Err(OutlineBindingIncomplete)
      else if p.context.chain != previous.payload.context.chain
           || p.context.branch != previous.payload.context.branch
           || p.context.artifactId != previous.payload.context.artifactId then Err(SeedIdentityMismatch)
      else if Occupied(t.seeds, p.context.chain, p.order, Some(id)) then Err(DependencyOrderConflict)
      else
        var mark := Retirement(now, reason);
        var row := NewSeedRow(p, Some(rev));
        Ok(Applied(
             t.(seeds := RetireSeedRows(t.seeds, {key}, mark)[p.Key() := row],
                contracts := RetireContractRows(t.contracts, ActiveOn(t.contracts, {key}), mark)),
             SeedBody(row, Some(rev)), true, true))
  }

  function RetireSeedSpec(t: Tables, key: RowKey, reason: string, now: nat): Outcome {
    if key !in t.seeds then Err(SeedNotFound)
    else if t.seeds[key].status == SeedRetired then Err(SeedAlreadyRetired)
    else
      var mark := Retirement(now, reason);
      var seeds := RetireSeedRows(t.seeds, {key}, mark);
      Ok(Applied(
           t.(seeds := seeds,
              contracts := RetireContractRows(t.contracts, ActiveOn(t.contracts, {key}), mark)),
           SeedBody(seeds[key], None), true, true))
  }

  predicate AllowedTransition(current: SeedStatus, target: SeedStatus) {
    (current == ExperienceLocked && target == Expanded) || (current == Expanded && target == Generated)
  }

  function AdvanceSeedSpec(t: Tables, key: RowKey, target: SeedStatus, hash: Digest): Outcome {
    if key !in t.seeds then Err(SeedNotFound)
    else
      var row := t.seeds[key];
      if !AllowedTransition(row.status, target) then Err(SeedTransition)
      else if row.contractHash != Some(hash) then Err(ContractHashMismatch)
      else if row.contractId.None? || row.contractId.value !in t.contracts
           || t.contracts[row.contractId.value].status != Locked
           || t.contracts[row.contractId.value].hash != hash then Err(ContractBindingInvalid)
      else
        var advanced := row.(status := target);
        Ok(Applied(t.(seeds := t.seeds[key := advanced]), SeedBody(advanced, None), true, true))
  }

  // ----- Arcs ---------------------------------------------------------------------------------

  /** Binds each named seed to its latest live revision, or finds the first one that cannot be bound. */
  ghost function BindArcSeeds(seeds: map<RowKey, SeedRow>, ids: seq<string>, context: Context): Result<seq<SeedBinding>, Error> {
    if ids == [] then Ok([])
    else
      match Latest(LiveSeeds(seeds), ids[0])
      case None => Err(ArcSeedMismatch)
      case Some(rev) =>
        var row := seeds[RowKey(ids[0], rev)];
        if row.payload.context.chain != context.chain then Err(ArcSeedMismatch)
        else if row.payload.context != context then Err(ArcSeedContextMismatch)
        else
          match BindArcSeeds(seeds, ids[1..], context)
          case Err(e) => Err(e)
          case Ok(rest) => Ok([SeedBinding(RowKey(ids[0], rev), row.hash)] + rest)
  }

  /** The first binding of an arc that no longer names a live seed of its chain. */
  function ArcBindingError(seeds: map<RowKey, SeedRow>, ids: seq<string>, bindings: seq<SeedBinding>, chain: string): Option<Error> {
    if |bindings| != |ids| then Some(ArcBindingMissing)
    else if bindings == [] then None
    else
      var b := bindings[0];
      if b.key.id != ids[0] then Some(ArcBindingInvalid)
      else if b.key !in seeds || seeds[b.key].status == SeedRetired || seeds[b.key].hash != b.hash
           || seeds[b.key].payload.context.chain != chain then Some(ArcBindingStale)
      else ArcBindingError(seeds, ids[1..], bindings[1..], chain)
  }

  predicate ActiveArcIn(arcs: map<RowKey, ArcRow>, context: Context) {
    exists k :: k in arcs && Active(arcs[k].status) && arcs[k].payload.context == context
  }

  ghost function CreateArcSpec(t: Tables, p: ArcPayload): Outcome {
    match BindArcSeeds(t.seeds, p.seedIds, p.context)
    case Err(e) => Err(e)
    case Ok(bindings) =>
      if ActiveArcIn(t.arcs, p.context) then Err(ArcActive)
      else if p.Key() in t.arcs then Err(ArcExists)
      else
        var row := ArcRow(p, bindings, Sha256(OfArc(p, bindings)), Proposed, None, None, None);
        Ok(Applied(t.(arcs := t.arcs[p.Key() := row]), ArcBody(row, None), true, true))
  }

  function LockArcSpec(t: Tables, key: RowKey, expected: Option<Digest>, now: nat): Outcome {
    if key !in t.arcs then Err(ArcNotFound)
    else
      var row := t.arcs[key];
      if row.status != Proposed then Err(ArcNotProposed)
      else if expected.Some? && row.hash != expected.value then Err(ArcHashMismatch)
      else
        match ArcBindingError(t.seeds, row.payload.seedIds, row.bindings, row.payload.context.chain)
        case Some(e) => Err(e)
        case None =>
          var locked := row.(status := Locked, lockedAt := Some(now));
          Ok(Applied(t.(arcs := t.arcs[key := locked]), ArcBody(locked, None), true, true))
  }

  predicate HasDuplicates(ids: seq<string>) { exists i, j :: 0 <= i < j < |ids| && ids[i] == ids[j] }

  function ArcInputError(seedIds: seq<string>): Option<Error> {
    if seedIds == [] then Some(FieldRequired)
    else if |seedIds| > MAX_ITEMS then Some(ListTooLong)
    else if HasDuplicates(seedIds) then Some(DuplicateSeed)
    else None
  }

  ghost function SupersedeArcSpec(t: Tables, id: string, input: ArcInput, reason: string, lock: bool, now: nat): Outcome {
    match Latest(t.arcs.Keys, id)
    case None => Err(ArcNotFound)
    case Some(rev) =>
      var key := RowKey(id, rev);
      var previous := t.arcs[key];
      if previous.status == Retired then Err(ArcRetired)
      else if input.supersedes.Some? && input.supersedes.value != rev then Err(ArcSupersessionMismatch)
      else if ArcInputError(input.seedIds).Some? then Err(ArcInputError(input.seedIds).value)
      else if input.context.chain != previous.payload.context.chain then Err(ArcChainMismatch)
      else
        match BindArcSeeds(t.seeds, input.seedIds, input.context)
        case Err(e) => Err(e)
        case Ok(bindings) =>
          var p := ArcPayload(id, rev + 1, input.context, input.seedIds, Some(rev), input.details);
          var row := ArcRow(p, bindings, Sha256(OfArc(p, bindings)), if lock then Locked else Proposed,
                            Some(rev), if lock then Some(now) else None, None);
          Ok(Applied(
               t.(arcs := RetireArcRows(t.arcs, {key}, Retirement(now, reason))[p.Key() := row]),
               ArcBody(row, Some(rev)), true, true))
  }

  function RetireArcSpec(t: Tables, key: RowKey, reason: string, now: nat): Outcome {
    if key !in t.arcs then Err(ArcNotFound)
    else if t.arcs[key].status == Retired then Err(ArcRetired)
    else if exists k :: k in t.arcs && k.id == key.id && k.rev > key.rev then Err(ArcNotLatest)
    else
      var arcs := RetireArcRows(t.arcs, {key}, Retirement(now, reason));
      Ok(Applied(t.(arcs := arcs), ArcBody(arcs[key], None), true, true))
  }

  // ----- Contracts --------------------------------------------------------------------------------

  predicate Agrees<T(==)>(claim: Option<T>, actual: T) { claim.Some? ==> claim.value == actual }

  predicate ClaimsMatch(claims: Claims, p: SeedPayload) {
    && Agrees(claims.chain, p.context.chain)
    && Agrees(claims.branch, p.context.branch)
    && Agrees(claims.artifactId, p.context.artifactId)
    && Agrees(claims.artifactRevision, p.context.artifactRevision)
    && Agrees(claims.seedDetails, p.details)
  }

  /** A contract copies its identity and context from the seed; what it claims must agree. */
  function ContractPayloadOf(input: ContractInput, seed: SeedPayload, supersedes: string, rev: Option<nat>): Result<ContractPayload, Error> {
    if !ClaimsMatch(input.claims, seed) then Err(ContractSeedContextMismatch)
    else
      var revision := if rev.Some? then rev.value else if input.rev.Some? then input.rev.value else 1;
      Ok(ContractPayload(
           input.id, revision, seed.Key(), seed.context, seed.details,
           if supersedes != "" then supersedes else input.supersedes,
           input.intent, input.provenance, input.details))
  }

  predicate MissingProvenance(provenance: map<ExperienceField, Evidence>) {
    exists f: ExperienceField :: f !in provenance
  }

  predicate EmptyProvenance(provenance: map<ExperienceField, Evidence>) {
    exists f: ExperienceField :: f in provenance && (provenance[f].NotAnObject? || provenance[f].count == 0)
  }

  /** Why a contract with this payload cannot be locked, if it cannot. */
  function LockError(p: ContractPayload): Option<Error> {
    if MissingProvenance(p.provenance) then Some(ProvenanceIncomplete)
    else if EmptyProvenance(p.provenance) then Some(ProvenanceInvalid)
    else None
  }

  /** The primary key or the partial unique index on active contracts rejects the insertion. */
  predicate InsertRejected(contracts: map<string, ContractRow>, row: ContractRow) {
    || row.payload.id in contracts
    || (Active(row.status) && ActiveOn(contracts, {row.payload.seed}) != {})
  }

  function NewContractRow(p: ContractPayload, status: DocStatus, supersedes: Option<string>, now: nat): ContractRow {
    ContractRow(p, Sha256(OfContract(p)), status, supersedes, if status == Locked then Some(now) else None, None)
  }

  function OptionalId(id: string): Option<string> { if id == "" then None else Some(id) }

  predicate HasContract(contracts: map<string, ContractRow>, key: RowKey) {
    exists c :: c in contracts && contracts[c].payload.seed == key
  }

  function ProposeContractSpec(t: Tables, input: ContractInput, now: nat): Outcome {
    var key := input.seed;
    if key !in t.seeds then Err(SeedNotFound)
    else if t.seeds[key].status == SeedRetired then Err(SeedAlreadyRetired)
    else if ActiveOn(t.contracts, {key}) != {} then Err(ContractActive)
    else
      match ContractPayloadOf(input, t.seeds[key].payload, "", None)
      case Err(e) => Err(e)
      case Ok(p) =>
        if p.rev != 1 then Err(ContractRevision)
        else if HasContract(t.contracts, key) then Err(ContractSupersessionRequired)
        else
          var row := NewContractRow(p, Proposed, OptionalId(p.supersedes), now);
          if InsertRejected(t.contracts, row) then Err(ContractExists)
          else Ok(Applied(t.(contracts := t.contracts[p.id := row]), ContractBody(row, None), true, true))
  }

  function ProposeAndLockSpec(t: Tables, input: ContractInput, now: nat): Outcome {
    var key := input.seed;
    if key !in t.seeds then Err(SeedNotFound)
    else if t.seeds[key].status != Seeded then Err(SeedNotLockable)
    else if HasContract(t.contracts, key) then Err(ContractSupersessionRequired)
    else
      match ContractPayloadOf(input, t.seeds[key].payload, "", None)
      case Err(e) => Err(e)
      case Ok(p) =>
        if p.rev != 1 then Err(ContractRevision)
        else if LockError(p).Some? then Err(LockError(p).value)
        else
          var row := NewContractRow(p, Locked, None, now);
          if InsertRejected(t.contracts, row) then Err(ContractExists)
          else
            Ok(Applied(
                 t.(contracts := t.contracts[p.id := row],
                    seeds := t.seeds[key := BindSeed(t.seeds[key], p.id, row.hash)]),
                 ContractBody(row, None), true, true))
  }

  function LockContractSpec(t: Tables, id: string, expected: Option<Digest>, now: nat): Outcome {
    if id !in t.contracts then Err(ContractNotFound)
    else
      var row := t.contracts[id];
      var key := row.payload.seed;
      if row.status != Proposed then Err(ContractNotProposed)
      else if expected.Some? && row.hash != expected.value then Err(ContractHashMismatch)
      else if LockError(row.payload).Some? then Err(LockError(row.payload).value)
      else if key !in t.seeds then Err(SeedNotFound)
      else if t.seeds[key].status !in {Seeded, ExperienceLocked} then Err(SeedNotLockable)
      else
        var locked := row.(status := Locked, lockedAt := Some(now));
        Ok(Applied(
             t.(contracts := t.contracts[id := locked],
                seeds := t.seeds[key := BindSeed(t.seeds[key], id, row.hash)]),
             ContractBody(locked, None), true, true))
  }

  function SupersedeContractSpec(t: Tables, id: string, input: ContractInput, reason: string, lock: bool, now: nat): Outcome {
    if id !in t.contracts then Err(ContractNotFound)
    else
      var previous := t.contracts[id];
      var key := previous.payload.seed;
      var expected := previous.payload.rev + 1;
      if previous.status == Retired then Err(ContractAlreadyRetired)
      else if key !in t.seeds then Err(SeedNotFound)
      else if t.seeds[key].status in {Expanded, Generated, SeedRetired} then Err(SeedRevisionRequired)
      else if input.supersedes !in {"", id} then Err(ContractSupersessionMismatch)
      else if input.rev.Some? && input.rev.value != expected then Err(ContractRevision)
      else
        match ContractPayloadOf(input, t.seeds[key].payload, id, Some(expected))
        case Err(e) => Err(e)
        case Ok(p) =>
          if lock && LockError(p).Some? then Err(LockError(p).value)
          else if p.id == id then Err(ContractIdReused)
          else
            var retired := RetireContractRows(t.contracts, {id}, Retirement(now, reason));
            var row := NewContractRow(p, if lock then Locked else Proposed, Some(id), now);
            if InsertRejected(retired, row) then Err(ContractExists)
            else
              var seed := t.seeds[key];
              Ok(Applied(
                   t.(contracts := retired[p.id := row],
                      seeds := t.seeds[key := if lock then BindSeed(seed, p.id, row.hash) else UnbindSeed(seed)]),
                   ContractBody(row, Some(id)), true, true))
  }

  function RetireContractSpec(t: Tables, id: string, reason: string, now: nat): Outcome {
    if id !in t.contracts then Err(ContractNotFound)
    else
      var row := t.contracts[id];
      var key := row.payload.seed;
      if row.status == Retired then Err(ContractAlreadyRetired)
      else if key !in t.seeds then Err(SeedNotFound)
      else if t.seeds[key].status in {Expanded, Generated} then Err(SeedRevisionRequired)
      else
        // The seed row is reset with no look at its status: WHERE experience_contract_id=?
        var contracts := RetireContractRows(t.contracts, {id}, Retirement(now, reason));
        var seeds := if t.seeds[key].contractId == Some(id) then t.seeds[key := UnbindSeed(t.seeds[key])] else t.seeds;
        Ok(Applied(t.(contracts := contracts, seeds := seeds), ContractBody(contracts[id], None), true, true))
  }

  // ----- Reviews -----------------------------------------------------------------------------------

  /** Why this payload cannot supersede the review it names, if it cannot. */
  function ReviewSupersessionError(reviews: map<string, ReviewRow>, p: ReviewPayload): Option<Error> {
    if p.supersedes !in reviews then Some(ReviewNotFound)
    else
      var previous := reviews[p.supersedes];
      if previous.status != Recorded then Some(ReviewNotActive)
      else if previous.payload.contractId != p.contractId then Some(ReviewContractMismatch)
      else if previous.payload.proposal != p.proposal || previous.payload.receipt != p.receipt
           || previous.payload.assistantHash != p.assistantHash
           || previous.payload.artifactRevision != p.artifactRevision then Some(ReviewLineageMismatch)
      else if p.rev != previous.payload.rev + 1 then Some(ReviewRevision)
      else if p.id == p.supersedes then Some(ReviewIdReused)
      else None
  }

  function RecordReviewSpec(t: Tables, p: ReviewPayload): Outcome {
    if p.contractId !in t.contracts then Err(ContractNotFound)
    else
      var contract := t.contracts[p.contractId];
      if contract.hash != p.contractHash then Err(ContractHashMismatch)
      else if contract.lockedAt == None || contract.status == Proposed then Err(ReviewContractNotLocked)
      else if contract.payload.context.artifactRevision != p.artifactRevision then Err(ReviewArtifactMismatch)
      else if p.supersedes != "" && ReviewSupersessionError(t.reviews, p).Some? then
        Err(ReviewSupersessionError(t.reviews, p).value)
      else if p.supersedes == "" && p.rev != 1 then Err(ReviewRevision)
      else if p.id in t.reviews then Err(ReviewExists)
      else
        var row := ReviewRow(p, Sha256(OfReview(p)), Recorded, None);
        var earlier :=
          if p.supersedes == "" then t.reviews
          else t.reviews[p.supersedes := t.reviews[p.supersedes].(status := Superseded)];
        Ok(Applied(t.(reviews := earlier[p.id := row]), ReviewBody(row), true, false))
  }

  function RetireReviewSpec(t: Tables, id: string, reason: string, now: nat): Outcome {
    if id !in t.reviews then Err(ReviewNotFound)
    else if t.reviews[id].status != Recorded then Err(ReviewNotActive)
    else
      var row := t.reviews[id].(status := ReviewRetired, retirement := Some(Retirement(now, reason)));
      Ok(Applied(t.(reviews := t.reviews[id := row]), ReviewBody(row), true, false))
  }

  function RecordObservedSpec(t: Tables, p: ObservedPayload, source: Option<AcceptedSource>): Outcome {
    if source.None? then Err(ObservedSourceNotFound)
    else if !source.value.accepted || source.value.artifactId != p.artifactId || source.value.branch != p.branch
         || source.value.artifactRevision != p.artifactRevision || source.value.contentHash != p.sourceHash
    then Err(ObservedSourceDrift)
    else if p.supersedes != "" && (p.supersedes !in t.observed || t.observed[p.supersedes].status != Recorded)
    then Err(ReviewNotActive)
    else if p.supersedes != "" && !SameObservedLineage(t.observed[p.supersedes].payload, p) then Err(ReviewLineageMismatch)
    else if p.supersedes == "" && p.rev != 1 then Err(ReviewRevision)
    else if p.id in t.observed then Err(ReviewExists)
    else
      var row := ObservedRow(p, Sha256(OfObservedReview(p)), Recorded);
      var earlier :=
        if p.supersedes == "" then t.observed
        else t.observed[p.supersedes := t.observed[p.supersedes].(status := Superseded)];
      Ok(Applied(t.(observed := earlier[p.id := row]), ObservedBody(row), true, false))
  }

  predicate SameObservedLineage(previous: ObservedPayload, p: ObservedPayload) {
    && p.rev == previous.rev + 1
    && previous.artifactId == p.artifactId
    && previous.artifactRevision == p.artifactRevision
    && previous.branch == p.branch
    && previous.sourceCommit == p.sourceCommit
    && previous.sourceHash == p.sourceHash
    && previous.assistantHash == p.assistantHash
  }

  // ----- Questions -------------------------------------------------------------------------------------

  function BindingsOf(entries: seq<SeedEntry>): seq<SeedBinding> {
    seq(|entries|, i requires 0 <= i < |entries| => SeedBinding(entries[i].key, entries[i].seedHash))
  }

  /** The first bound seed that changed, left `seeded`, or already has a contract candidate. */
  function QuestionBindingError(t: Tables, bindings: seq<SeedBinding>): Option<Error> {
    if bindings == [] then None
    else
      var b := bindings[0];
      if b.key !in t.seeds then Some(SeedNotFound)
      else if t.seeds[b.key].hash != b.hash || t.seeds[b.key].status != Seeded then Some(QuestionBindingStale)
      else if ActiveOn(t.contracts, {b.key}) != {} then Some(QuestionContractExists)
      else QuestionBindingError(t, bindings[1..])
  }

  function QuestionPayloadOf(manifest: SeedManifest, q: QuestionInput, recommended: string): QuestionPayload {
    QuestionPayload(Sha256(OfSeedManifest(manifest)), q.text, q.options, recommended, q.rationale, BindingsOf(manifest.entries))
  }

  function OpenQuestionSpec(t: Tables, manifest: SeedManifest, q: QuestionInput, ttl: nat, now: nat): Outcome
    requires QuestionInputError(CaseFold, q).None?
  {
    var p := QuestionPayloadOf(manifest, q, RecommendedId(CaseFold, q));
    match QuestionBindingError(t, p.bindings)
    case Some(e) => Err(e)
    case None =>
      if p.manifest in t.questions then Err(QuestionExists)
      else
        var row := QuestionRow(p, Sha256(OfQuestion(p)), AwaitingAnswer, 0, None, None, now + ttl);
        Ok(Applied(t.(questions := t.questions[p.manifest := row]), AskBody(row), true, true))
  }

  // The casefold tables of Unicode are a parameter of what follows.

  function FoldedIds(fold: string -> string, options: seq<QuestionOption>): seq<string> {
    seq(|options|, i requires 0 <= i < |options| => fold(options[i].id))
  }

  function FoldedLabels(fold: string -> string, options: seq<QuestionOption>): seq<string> {
    seq(|options|, i requires 0 <= i < |options| => fold(options[i].labelText))
  }

  function Matching(fold: string -> string, options: seq<QuestionOption>, wanted: string): seq<string> {
    if options == [] then []
    else (if fold(options[0].id) == fold(wanted) then [options[0].id] else []) + Matching(fold, options[1..], wanted)
  }

  function QuestionInputError(fold: string -> string, q: QuestionInput): Option<Error> {
    if !(2 <= |q.options| <= 5) then Some(QuestionOptionCount)
    else if HasDuplicates(FoldedIds(fold, q.options)) then Some(QuestionOptionDuplicate)
    else if HasDuplicates(FoldedLabels(fold, q.options)) then Some(QuestionLabelDuplicate)
    else if |Matching(fold, q.options, q.recommended)| != 1 then Some(QuestionRecommendation)
    else None
  }

  /** The recommended option's own spelling of its id. */
  function RecommendedId(fold: string -> string, q: QuestionInput): string
    requires QuestionInputError(fold, q).None?
  {
    Matching(fold, q.options, q.recommended)[0]
  }

  /** The fold the service runs under: ASCII letters only. Nothing is proved about it but that it is a function. */
  function CaseFold(s: string): string {
    seq(|s|, i requires 0 <= i < |s| => if 'A' <= s[i] <= 'Z' then s[i] - 'A' + 'a' else s[i])
  }

  const RECOMMENDED_ANSWERS: set<string> :=
    {"按推荐答案", "采用推荐答案", "用推荐答案", "你来定", "模型决定", "按你的推荐"}

  const CANCEL_ANSWERS: set<string> :=
    {"cancel", "取消", "取消本轮", "取消事件体验", "放弃本轮事件"}

  /** The dictionary keyed by folded id: of several equal keys the last option wins. */
  function ById(fold: string -> string, options: seq<QuestionOption>, wanted: string): Option<QuestionOption> {
    if options == [] then None
    else
      var last := options[|options| - 1];
      if fold(last.id) == fold(wanted) then Some(last) else ById(fold, options[..|options| - 1], wanted)
  }

  function LetterIndex(answer: string): Option<nat> {
    if |answer| != 1 then None
    else if 'A' <= answer[0] <= 'E' then Some((answer[0] - 'A') as int)
    else if 'a' <= answer[0] <= 'e' then Some((answer[0] - 'a') as int)
    else None
  }

  function WithLabel(fold: string -> string, options: seq<QuestionOption>, wanted: string): seq<QuestionOption> {
    if options == [] then []
    else (if fold(options[0].labelText) == fold(wanted) then [options[0]] else []) + WithLabel(fold, options[1..], wanted)
  }

  /** The option an answer selects: by id, by letter, by exact label; a delegation names the recommended id. */
  function SelectOption(fold: string -> string, p: QuestionPayload, answer: string): Option<QuestionOption> {
    var wanted := if answer in RECOMMENDED_ANSWERS then p.recommended else answer;
    var byId := ById(fold, p.options, wanted);
    var letter := LetterIndex(answer);
    if byId.Some? then byId
    else if letter.Some? && letter.value < |p.options| then Some(p.options[letter.value])
    else
      var labelled := WithLabel(fold, p.options, answer);
      if |labelled| == 1 then Some(labelled[0]) else None
  }

  function SelectionReason(answer: string): Reason {
    if answer in RECOMMENDED_ANSWERS then RecommendedDelegation else ExplicitChoice
  }

  // ----- Cleaning up the candidates of a closed question --------------------------------------------------

  /** The bound seeds that are still what the question was about: same hash, still `seeded`. */
  function OpenCandidates(t: Tables, bindings: set<SeedBinding>): set<RowKey> {
    set b | b in bindings && b.key in t.seeds && t.seeds[b.key].hash == b.hash && t.seeds[b.key].status == Seeded :: b.key
  }

  function ProposedArcsOver(arcs: map<RowKey, ArcRow>, ks: set<RowKey>): set<RowKey> {
    set a | a in arcs && arcs[a].status == Proposed && Mentions(arcs[a], ks)
  }

  predicate Mentions(row: ArcRow, ks: set<RowKey>) {
    exists i :: 0 <= i < |row.bindings| && row.bindings[i].key in ks
  }

  function RetireCandidates(t: Tables, ks: set<RowKey>, mark: Retirement): Tables {
    t.(seeds := RetireSeedRows(t.seeds, ks, mark),
       contracts := RetireContractRows(t.contracts, ProposedOn(t.contracts, ks), mark),
       arcs := RetireArcRows(t.arcs, ProposedArcsOver(t.arcs, ks), mark))
  }

  function CandidateCounts(t: Tables, ks: set<RowKey>): Counts {
    Counts(|ks|, |ProposedArcsOver(t.arcs, ks)|, |ProposedOn(t.contracts, ks)|)
  }

  function Cleanup(t: Tables, bindings: set<SeedBinding>, mark: Retirement): Tables {
    RetireCandidates(t, OpenCandidates(t, bindings), mark)
  }

  function CleanupCounts(t: Tables, bindings: set<SeedBinding>): Counts { CandidateCounts(t, OpenCandidates(t, bindings)) }

  function AsSet(bindings: seq<SeedBinding>): set<SeedBinding> { set b | b in bindings }

  const TTL_EXPIRED := "event experience question TTL expired"
  const CANCELLED := "event experience question explicitly cancelled"

  // ----- Answering and expiring -------------------------------------------------------------------------------

  function CloseQuestion(t: Tables, h: Digest): Tables
    requires h in t.questions
  {
    t.(questions := t.questions[h := t.questions[h].(status := QuestionRetired)])
  }

  /** Closes a question and cleans up its candidates; only the control revision advances. */
  function CloseSpec(t: Tables, h: Digest, action: Action, why: Reason, mark: Retirement): Outcome
    requires h in t.questions
  {
    var bindings := AsSet(t.questions[h].payload.bindings);
    var closed := CloseQuestion(t, h);
    Ok(Applied(
         Cleanup(closed, bindings, mark),
         AnswerBody(action, why, closed.questions[h], None, Some(CleanupCounts(closed, bindings))),
         true, false))
  }

  function SelectSpec(t: Tables, h: Digest, row: QuestionRow, answer: string, option: QuestionOption, now: nat): Outcome {
    var answered := row.(status := Answered, selected := Some(option.id), selectedAt := Some(now));
    Ok(Applied(
         t.(questions := t.questions[h := answered]),
         AnswerBody(Selected, SelectionReason(answer), answered, Some(option), None),
         true, false))
  }

  function AnswerSpec(t: Tables, h: Digest, answer: string, now: nat): Outcome {
    if h !in t.questions then Err(QuestionNotFound)
    else
      var row := t.questions[h];
      if row.status == QuestionRetired then Err(QuestionAlreadyRetired)
      else if Open(row.status) && row.expiresAt <= now then
        CloseSpec(t, h, Expired, TtlExpired, Retirement(now, TTL_EXPIRED))
      else if row.status == Answered then
        AlreadyAnsweredSpec(t, row, answer)
      else if answer in CANCEL_ANSWERS then
        CloseSpec(t, h, Cancelled, ExplicitCancel, Retirement(now, CANCELLED))
      else
        match SelectOption(CaseFold, row.payload, answer)
        case None => InvalidAnswerSpec(t, h, row)
        case Some(option) => SelectSpec(t, h, row, answer, option, now)
  }

  function SelectedOption(options: seq<QuestionOption>, id: string): Option<QuestionOption> {
    if options == [] then None
    else if options[0].id == id then Some(options[0])
    else SelectedOption(options[1..], id)
  }

  /** A repeated answer to an answered question is accepted when it selects the same option or nothing. */
  function AlreadyAnsweredSpec(t: Tables, row: QuestionRow, answer: string): Outcome {
    var chosen := if row.selected.Some? then SelectedOption(row.payload.options, row.selected.value) else None;
    var requested := SelectOption(CaseFold, row.payload, answer);
    if chosen.Some? && requested.Some? && requested.value.id != chosen.value.id then Err(QuestionAlreadyAnswered)
    else Ok(Applied(t, AnswerBody(Selected, AlreadyAnswered, row, chosen, None), false, false))
  }

  function InvalidAnswerSpec(t: Tables, h: Digest, row: QuestionRow): Outcome {
    var attempts := if row.attempts + 1 < 2 then row.attempts + 1 else 2;
    var next :=
      if row.attempts < 2 then row.(attempts := attempts, status := if attempts == 1 then AwaitingAnswer else AwaitingEventExperience)
      else row;
    Ok(Applied(
         t.(questions := t.questions[h := next]),
         AnswerBody(if attempts == 1 then Repeat else AwaitingExplicitChoice,
                    if attempts == 1 then RepeatedOnce else LimitReached, next, None, None),
         false, false))
  }

  function ExpiredAt(questions: map<Digest, QuestionRow>, now: nat): set<Digest> {
    set h | h in questions && Open(questions[h].status) && questions[h].expiresAt <= now
  }

  function CloseQuestions(questions: map<Digest, QuestionRow>, hs: set<Digest>): map<Digest, QuestionRow> {
    map h | h in questions :: if h in hs then questions[h].(status := QuestionRetired) else questions[h]
  }

  function BoundBy(questions: map<Digest, QuestionRow>, hs: set<Digest>): set<SeedBinding>
    requires hs <= questions.Keys
  {
    set h, b | h in hs && b in questions[h].payload.bindings :: b
  }

  function RetireExpiredSpec(t: Tables, observed: nat): Outcome {
    var hs := ExpiredAt(t.questions, observed);
    var closed := t.(questions := CloseQuestions(t.questions, hs));
    var bindings := BoundBy(t.questions, hs);
    Ok(Applied(
         Cleanup(closed, bindings, Retirement(observed, TTL_EXPIRED)),
         ExpiredBody(hs, CleanupCounts(closed, bindings), observed),
         hs != {}, hs != {}))
  }

  // ----- One call ------------------------------------------------------------------------------------------------

  const MIN_TTL := 60
  const MAX_TTL := 604_800

  /** The checks an operation makes on its arguments before it opens its transaction. */
  function ArgumentError(op: Op): Option<Error> {
    match op
    case CreateSeed(p) =>
      if !p.outline.Complete() then Some(OutlineBindingIncomplete)
      else if p.rev != 1 then Some(SeedRevision)
      else None
    case CreateArc(p) =>
      if ArcInputError(p.seedIds).Some? then ArcInputError(p.seedIds)
      else if p.rev != 1 then Some(ArcRevision)
      else None
    case AdvanceSeedStatus(_, target, _) => if target in {Expanded, Generated} then None else Some(SeedStatusInvalid)
    case RecordReview(p, text) => ReviewEvidenceError(text, p.assistantHash, p.quotes, p.offsets)
    case RecordObservedReview(p, text) => ObservedEvidenceError(text, p.assistantHash, p.quotes, p.offsets)
    case OpenQuestion(_, q, ttl) =>
      if QuestionInputError(CaseFold, q).Some? then QuestionInputError(CaseFold, q)
      else if !(MIN_TTL <= ttl <= MAX_TTL) then Some(IntegerRange)
      else None
    case _ => None
  }

  /** The body of an operation's transaction. */
  ghost function Apply(t: Tables, op: Op, env: Env): Outcome
    requires ArgumentError(op).None?
  {
    match op
    case CreateSeed(p) => CreateSeedSpec(t, p)
    case SupersedeSeed(id, input, reason) => SupersedeSeedSpec(t, id, input, reason, env.now)
    case CreateArc(p) => CreateArcSpec(t, p)
    case LockArc(key, expected) => LockArcSpec(t, key, expected, env.now)
    case SupersedeArc(id, input, reason, lock) => SupersedeArcSpec(t, id, input, reason, lock, env.now)
    case RetireArc(key, reason) => RetireArcSpec(t, key, reason, env.now)
    case ProposeContract(input) => ProposeContractSpec(t, input, env.now)
    case ProposeAndLockContract(input) => ProposeAndLockSpec(t, input, env.now)
    case LockContract(id, expected) => LockContractSpec(t, id, expected, env.now)
    case SupersedeContract(id, input, reason, lock) => SupersedeContractSpec(t, id, input, reason, lock, env.now)
    case RetireContract(id, reason) => RetireContractSpec(t, id, reason, env.now)
    case AdvanceSeedStatus(key, target, hash) => AdvanceSeedSpec(t, key, target, hash)
    case RetireSeed(key, reason) => RetireSeedSpec(t, key, reason, env.now)
    case RecordReview(p, _) => RecordReviewSpec(t, p)
    case RetireReview(id, reason) => RetireReviewSpec(t, id, reason, env.now)
    case RecordObservedReview(p, _) => RecordObservedSpec(t, p, env.source)
    case OpenQuestion(manifest, q, ttl) => OpenQuestionSpec(t, manifest, q, ttl, env.now)
    case RetireExpiredQuestions(observedAt) =>
      RetireExpiredSpec(t, if observedAt.Some? then observedAt.value else env.now)
    case ClaimRuntimeRequest(request) =>
      Ok(Applied(t, ClaimBody(Sha256(OfRuntimeRequest(request))), false, false))
    case AnswerQuestion(h, answer) => AnswerSpec(t, h, answer, env.now)
  }

  function LogKeyOf(c: Call): LogKey { LogKey(Name(c.op), c.key) }

  /** What a request hash covers: the normalised payload. The text a review quotes from is not part of it. */
  function Request(op: Op): Op {
    match op
    case OpenQuestion(manifest, q, ttl) =>
      if QuestionInputError(CaseFold, q).Some? then op
      else OpenQuestion(manifest, q.(recommended := RecommendedId(CaseFold, q)), ttl)
    case RecordReview(p, _) => RecordReview(p, [])
    case RecordObservedReview(p, _) => RecordObservedReview(p, [])
    case _ => op
  }

  function RequestHash(op: Op): Digest { Sha256(OfRequest(Request(op))) }

  datatype Stepped = Stepped(state: State, result: Result<Response, Error>)

  /** One call: argument checks, idempotent replay, compare-and-swap, the transaction, the log entry. */
  ghost function Step(s: State, c: Call): Stepped {
    if ArgumentError(c.op).Some? then Stepped(s, Err(ArgumentError(c.op).value))
    else if LogKeyOf(c) in s.log then
      var entry := s.log[LogKeyOf(c)];
      Stepped(s, if entry.request == RequestHash(c.op) then Ok(entry.response) else Err(IdempotencyConflict))
    else if s.control != c.expected then Stepped(s, Err(StaleControl))
    else Transaction(s, c)
  }

  ghost function Transaction(s: State, c: Call): Stepped
    requires ArgumentError(c.op).None?
  {
    match Apply(s.tables, c.op, c.env)
    case Err(e) => Stepped(s, Err(e))
    case Ok(a) => Commit(s, c, a)
  }

  function Commit(s: State, c: Call, a: Applied): Stepped {
    var control := s.control + if a.advance then 1 else 0;
    var binding := s.binding + if a.bind then 1 else 0;
    var response := Response(a.body, control);
    Stepped(State(a.tables, s.log[LogKeyOf(c) := LogEntry(RequestHash(c.op), response)], control, binding), Ok(response))
  }

  const EMPTY := State(Tables(map[], map[], map[], map[], map[], map[]), map[], 0, 0)

  /** The state a sequence of calls leads to. */
  ghost function Run(s: State, calls: seq<Call>): State
    decreases |calls|
  {
    if calls == [] then s else Run(Step(s, calls[0]).state, calls[1..])
  }
}
