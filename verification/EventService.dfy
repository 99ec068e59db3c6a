/**
  The service itself: its tables are fields, its operations change them statement by
  statement, and a failing operation is rolled back by the transaction around it.

  Every method is proved against the specification functions: the fields a call leaves
  behind and the result it returns are exactly those of Step.
  */
module EventService {
  import opened Basics
  import opened EventTypes
  import opened EventSpec
  import opened EventLedger
  import opened LedgerOps
  import opened QuestionMachine
  import opened CleanupSteps
  import opened Manifest
  import opened Runs
  import opened Revisions

  /** What a transaction body hands to the transaction: the response, and which counters to advance. */
  datatype Reply = Reply(body: Body, advance: bool, bind: bool)

  function Plain(body: Body): Result<Reply, Error> { Ok(Reply(body, true, true)) }

  /** Results of a loop over items: what is collected so far, followed by what the rest yields. */
  function Onto<T>(done: seq<T>, rest: Result<seq<T>, Error>): Result<seq<T>, Error> {
    match rest
    case Err(e) => Err(e)
    case Ok(xs) => Ok(done + xs)
  }

  lemma OntoNothing<T>(r: Result<seq<T>, Error>)
    ensures Onto([], r) == r
  {
    assert r.Ok? ==> [] + r.value == r.value;
  }

  lemma OntoOneMore<T>(done: seq<T>, x: T, rest: Result<seq<T>, Error>)
    ensures rest.Ok? ==> Onto(done, Ok([x] + rest.value)) == Onto(done + [x], rest)
  {
    assert rest.Ok? ==> done + ([x] + rest.value) == (done + [x]) + rest.value;
  }

  function ProposedArcs(arcs: Arcs): set<RowKey> { set a | a in arcs && arcs[a].status == Proposed }

  class EventExperienceService {
    var seeds: map<RowKey, SeedRow>
    var contracts: map<string, ContractRow>
    var arcs: map<RowKey, ArcRow>
    var reviews: map<string, ReviewRow>
    var observed: map<string, ObservedRow>
    var questions: map<Digest, QuestionRow>
    var log: map<LogKey, LogEntry>
    var control: nat
    var binding: nat

    function Rows(): Tables
      reads this
    {
      Tables(seeds, contracts, arcs, reviews, observed, questions)
    }

    function View(): State
      reads this
    {
      State(Rows(), log, control, binding)
    }

    /** The transaction body did what `o` says. After an error the tables may hold anything. */
    ghost predicate Did(o: Outcome, r: Result<Reply, Error>)
      reads this
    {
      match o
      case Err(e) => r == Err(e)
      case Ok(a) => r == Ok(Reply(a.body, a.advance, a.bind)) && Rows() == a.tables
    }

    constructor ()
      ensures View() == EMPTY
    {
      seeds, contracts, arcs, reviews, observed, questions := map[], map[], map[], map[], map[], map[];
      log, control, binding := map[], 0, 0;
    }

    // ----- Queries ------------------------------------------------------------------------

    method LatestRevision(keys: set<RowKey>, id: string) returns (r: Option<nat>)
      ensures r == Latest(keys, id)
    {
      r := None;
      var rest := keys;
      while rest != {}
        invariant rest <= keys
        invariant r.None? ==> forall k :: k in keys - rest ==> k.id != id
        invariant r.Some? ==> RowKey(id, r.value) in keys && forall k :: k in keys - rest && k.id == id ==> k.rev <= r.value
      {
        var k :| k in rest;
        rest := rest - {k};
        if k.id == id && (r.None? || r.value < k.rev) { r := Some(k.rev); }
      }
      assert r.Some? ==> IsLatest(keys, id, r.value);
    }

    method BindArcSeedsLoop(ids: seq<string>, context: Context) returns (r: Result<seq<SeedBinding>, Error>)
      ensures r == BindArcSeeds(seeds, ids, context)
    {
      var bindings: seq<SeedBinding> := [];
      OntoNothing(BindArcSeeds(seeds, ids, context));
      assert ids[0..] == ids;
      for i := 0 to |ids|
        invariant BindArcSeeds(seeds, ids, context) == Onto(bindings, BindArcSeeds(seeds, ids[i..], context))
      {
        var latest := LatestRevision(LiveSeeds(seeds), ids[i]);
        if latest.None? { return Err(ArcSeedMismatch); }
        var row := seeds[RowKey(ids[i], latest.value)];
        if row.payload.context.chain != context.chain { return Err(ArcSeedMismatch); }
        if row.payload.context != context { return Err(ArcSeedContextMismatch); }
        assert ids[i..][1..] == ids[i + 1..];
        OntoOneMore(bindings, SeedBinding(RowKey(ids[i], latest.value), row.hash), BindArcSeeds(seeds, ids[i + 1..], context));
        bindings := bindings + [SeedBinding(RowKey(ids[i], latest.value), row.hash)];
      }
      assert bindings + [] == bindings;
      return Ok(bindings);
    }

    method CheckArcBindings(ids: seq<string>, bindings: seq<SeedBinding>, chain: string) returns (r: Option<Error>)
      ensures r == ArcBindingError(seeds, ids, bindings, chain)
    {
      if |bindings| != |ids| { return Some(ArcBindingMissing); }
      for i := 0 to |bindings|
        invariant ArcBindingError(seeds, ids, bindings, chain) == ArcBindingError(seeds, ids[i..], bindings[i..], chain)
      {
        var b := bindings[i];
        if b.key.id != ids[i] { return Some(ArcBindingInvalid); }
        if b.key !in seeds || seeds[b.key].status == SeedRetired || seeds[b.key].hash != b.hash
           || seeds[b.key].payload.context.chain != chain { return Some(ArcBindingStale); }
        assert bindings[i..][1..] == bindings[i + 1..] && ids[i..][1..] == ids[i + 1..];
      }
      return None;
    }

    method CheckQuestionBindings(bindings: seq<SeedBinding>) returns (r: Option<Error>)
      ensures r == QuestionBindingError(Rows(), bindings)
    {
      for i := 0 to |bindings|
        invariant QuestionBindingError(Rows(), bindings) == QuestionBindingError(Rows(), bindings[i..])
      {
        var b := bindings[i];
        if b.key !in seeds { return Some(SeedNotFound); }
        if seeds[b.key].hash != b.hash || seeds[b.key].status != Seeded { return Some(QuestionBindingStale); }
        if ActiveOn(contracts, {b.key}) != {} { return Some(QuestionContractExists); }
        assert bindings[i..][1..] == bindings[i + 1..];
      }
      return None;
    }

    // ----- Seeds -----------------------------------------------------------------------------

    method DoCreateSeed(p: SeedPayload) returns (r: Result<Reply, Error>)
      modifies this`seeds
      ensures Did(CreateSeedSpec(old(Rows()), p), r)
    {
      if Occupied(seeds, p.context.chain, p.order, None) { return Err(DependencyOrderConflict); }
      if p.Key() in seeds { return Err(SeedExists); }
      seeds := seeds[p.Key() := NewSeedRow(p, None)];
      return Plain(SeedBody(seeds[p.Key()], None));
    }

    method DoSupersedeSeed(id: string, input: SeedInput, reason: string, now: nat) returns (r: Result<Reply, Error>)
      modifies this`seeds, this`contracts
      ensures Did(SupersedeSeedSpec(old(Rows()), id, input, reason, now), r)
    {
      var latest := LatestRevision(seeds.Keys, id);
      if latest.None? { return Err(SeedNotFound); }
      var rev := latest.value;
      var key := RowKey(id, rev);
      var previous := seeds[key];
      if previous.status == SeedRetired { return Err(SeedAlreadyRetired); }
      if input.supersedes.Some? && input.supersedes.value != rev { return Err(SeedSupersessionMismatch); }
      var p := Replacement(id, rev, input);
      if !p.outline.Complete() { return Err(OutlineBindingIncomplete); }
      if p.context.chain != previous.payload.context.chain
         || p.context.branch != previous.payload.context.branch
         || p.context.artifactId != previous.payload.context.artifactId { return Err(SeedIdentityMismatch); }
      if Occupied(seeds, p.context.chain, p.order, Some(id)) { return Err(DependencyOrderConflict); }
      var mark := Retirement(now, reason);
      seeds := RetireSeedRows(seeds, {key}, mark);
      contracts := RetireContractRows(contracts, ActiveOn(contracts, {key}), mark);
      seeds := seeds[p.Key() := NewSeedRow(p, Some(rev))];
      return Plain(SeedBody(seeds[p.Key()], Some(rev)));
    }

    method DoAdvanceSeed(key: RowKey, target: SeedStatus, hash: Digest) returns (r: Result<Reply, Error>)
      modifies this`seeds
      ensures Did(AdvanceSeedSpec(old(Rows()), key, target, hash), r)
    {
      if key !in seeds { return Err(SeedNotFound); }
      var row := seeds[key];
      if !AllowedTransition(row.status, target) { return Err(SeedTransition); }
      if row.contractHash != Some(hash) { return Err(ContractHashMismatch); }
      if row.contractId.None? || row.contractId.value !in contracts { return Err(ContractBindingInvalid); }
      var contract := contracts[row.contractId.value];
      if contract.status != Locked || contract.hash != hash { return Err(ContractBindingInvalid); }
      seeds := seeds[key := row.(status := target)];
      return Plain(SeedBody(seeds[key], None));
    }

    method DoRetireSeed(key: RowKey, reason: string, now: nat) returns (r: Result<Reply, Error>)
      modifies this`seeds, this`contracts
      ensures Did(RetireSeedSpec(old(Rows()), key, reason, now), r)
    {
      if key !in seeds { return Err(SeedNotFound); }
      if seeds[key].status == SeedRetired { return Err(SeedAlreadyRetired); }
      var mark := Retirement(now, reason);
      seeds := RetireSeedRows(seeds, {key}, mark);
      contracts := RetireContractRows(contracts, ActiveOn(contracts, {key}), mark);
      return Plain(SeedBody(seeds[key], None));
    }

    // ----- Arcs ---------------------------------------------------------------------------------

    method DoCreateArc(p: ArcPayload) returns (r: Result<Reply, Error>)
      modifies this`arcs
      ensures Did(CreateArcSpec(old(Rows()), p), r)
    {
      var bound := BindArcSeedsLoop(p.seedIds, p.context);
      if bound.Err? { return Err(bound.error); }
      if ActiveArcIn(arcs, p.context) { return Err(ArcActive); }
      if p.Key() in arcs { return Err(ArcExists); }
      arcs := arcs[p.Key() := ArcRow(p, bound.value, Sha256(OfArc(p, bound.value)), Proposed, None, None, None)];
      return Plain(ArcBody(arcs[p.Key()], None));
    }

    method DoLockArc(key: RowKey, expected: Option<Digest>, now: nat) returns (r: Result<Reply, Error>)
      modifies this`arcs
      ensures Did(LockArcSpec(old(Rows()), key, expected, now), r)
    {
      if key !in arcs { return Err(ArcNotFound); }
      var row := arcs[key];
      if row.status != Proposed { return Err(ArcNotProposed); }
      if expected.Some? && row.hash != expected.value { return Err(ArcHashMismatch); }
      var stale := CheckArcBindings(row.payload.seedIds, row.bindings, row.payload.context.chain);
      if stale.Some? { return Err(stale.value); }
      arcs := arcs[key := row.(status := Locked, lockedAt := Some(now))];
      return Plain(ArcBody(arcs[key], None));
    }

    method DoSupersedeArc(id: string, input: ArcInput, reason: string, lock: bool, now: nat) returns (r: Result<Reply, Error>)
      modifies this`arcs
      ensures Did(SupersedeArcSpec(old(Rows()), id, input, reason, lock, now), r)
    {
      var latest := LatestRevision(arcs.Keys, id);
      if latest.None? { return Err(ArcNotFound); }
      var rev := latest.value;
      var key := RowKey(id, rev);
      var previous := arcs[key];
      if previous.status == Retired { return Err(ArcRetired); }
      if input.supersedes.Some? && input.supersedes.value != rev { return Err(ArcSupersessionMismatch); }
      var invalid := ArcInputError(input.seedIds);
      if invalid.Some? { return Err(invalid.value); }
      if input.context.chain != previous.payload.context.chain { return Err(ArcChainMismatch); }
      var bound := BindArcSeedsLoop(input.seedIds, input.context);
      if bound.Err? { return Err(bound.error); }
      var p := ArcPayload(id, rev + 1, input.context, input.seedIds, Some(rev), input.details);
      arcs := RetireArcRows(arcs, {key}, Retirement(now, reason));
      arcs := arcs[p.Key() := ArcRow(p, bound.value, Sha256(OfArc(p, bound.value)), if lock then Locked else Proposed,
                                     Some(rev), if lock then Some(now) else None, None)];
      return Plain(ArcBody(arcs[p.Key()], Some(rev)));
    }

    method DoRetireArc(key: RowKey, reason: string, now: nat) returns (r: Result<Reply, Error>)
      modifies this`arcs
      ensures Did(RetireArcSpec(old(Rows()), key, reason, now), r)
    {
      if key !in arcs { return Err(ArcNotFound); }
      if arcs[key].status == Retired { return Err(ArcRetired); }
      if exists k :: k in arcs && k.id == key.id && k.rev > key.rev { return Err(ArcNotLatest); }
      arcs := RetireArcRows(arcs, {key}, Retirement(now, reason));
      return Plain(ArcBody(arcs[key], None));
    }

    // ----- Contracts ------------------------------------------------------------------------------

    /** INSERT INTO event_experience_contracts: refused by the primary key or the partial unique index. */
    method InsertContract(row: ContractRow) returns (inserted: bool)
      modifies this`contracts
      ensures inserted == !InsertRejected(old(contracts), row)
      ensures contracts == if inserted then old(contracts)[row.payload.id := row] else old(contracts)
    {
      inserted := !InsertRejected(contracts, row);
      if inserted { contracts := contracts[row.payload.id := row]; }
    }

    method DoProposeContract(input: ContractInput, now: nat) returns (r: Result<Reply, Error>)
      modifies this`contracts
      ensures Did(ProposeContractSpec(old(Rows()), input, now), r)
    {
      var key := input.seed;
      if key !in seeds { return Err(SeedNotFound); }
      if seeds[key].status == SeedRetired { return Err(SeedAlreadyRetired); }
      if ActiveOn(contracts, {key}) != {} { return Err(ContractActive); }
      var built := ContractPayloadOf(input, seeds[key].payload, "", None);
      if built.Err? { return Err(built.error); }
      var p := built.value;
      if p.rev != 1 { return Err(ContractRevision); }
      if HasContract(contracts, key) { return Err(ContractSupersessionRequired); }
      var inserted := InsertContract(NewContractRow(p, Proposed, OptionalId(p.supersedes), now));
      if !inserted { return Err(ContractExists); }
      return Plain(ContractBody(contracts[p.id], None));
    }

    method DoProposeAndLock(input: ContractInput, now: nat) returns (r: Result<Reply, Error>)
      modifies this`contracts, this`seeds
      ensures Did(ProposeAndLockSpec(old(Rows()), input, now), r)
    {
      var key := input.seed;
      if key !in seeds { return Err(SeedNotFound); }
      if seeds[key].status != Seeded { return Err(SeedNotLockable); }
      if HasContract(contracts, key) { return Err(ContractSupersessionRequired); }
      var built := ContractPayloadOf(input, seeds[key].payload, "", None);
      if built.Err? { return Err(built.error); }
      var p := built.value;
      if p.rev != 1 { return Err(ContractRevision); }
      var unlockable := LockError(p);
      if unlockable.Some? { return Err(unlockable.value); }
      var row := NewContractRow(p, Locked, None, now);
      var inserted := InsertContract(row);
      if !inserted { return Err(ContractExists); }
      seeds := seeds[key := BindSeed(seeds[key], p.id, row.hash)];
      return Plain(ContractBody(contracts[p.id], None));
    }

    method DoLockContract(id: string, expected: Option<Digest>, now: nat) returns (r: Result<Reply, Error>)
      modifies this`contracts, this`seeds
      ensures Did(LockContractSpec(old(Rows()), id, expected, now), r)
    {
      if id !in contracts { return Err(ContractNotFound); }
      var row := contracts[id];
      if row.status != Proposed { return Err(ContractNotProposed); }
      if expected.Some? && row.hash != expected.value { return Err(ContractHashMismatch); }
      var unlockable := LockError(row.payload);
      if unlockable.Some? { return Err(unlockable.value); }
      var key := row.payload.seed;
      if key !in seeds { return Err(SeedNotFound); }
      if seeds[key].status !in {Seeded, ExperienceLocked} { return Err(SeedNotLockable); }
      contracts := contracts[id := row.(status := Locked, lockedAt := Some(now))];
      seeds := seeds[key := BindSeed(seeds[key], id, row.hash)];
      return Plain(ContractBody(contracts[id], None));
    }

    /** The old contract is retired before the new one is inserted: a refused insertion leaves it so, for the rollback to undo. */
    method DoSupersedeContract(id: string, input: ContractInput, reason: string, lock: bool, now: nat) returns (r: Result<Reply, Error>)
      modifies this`contracts, this`seeds
      ensures Did(SupersedeContractSpec(old(Rows()), id, input, reason, lock, now), r)
    {
      hide ContractPayloadOf, LockError, RetireContractRows, ActiveOn;
      if id !in contracts { return Err(ContractNotFound); }
      var previous := contracts[id];
      if previous.status == Retired { return Err(ContractAlreadyRetired); }
      var key := previous.payload.seed;
      if key !in seeds { return Err(SeedNotFound); }
      if seeds[key].status in {Expanded, Generated, SeedRetired} { return Err(SeedRevisionRequired); }
      if input.supersedes !in {"", id} { return Err(ContractSupersessionMismatch); }
      var expected := previous.payload.rev + 1;
      if input.rev.Some? && input.rev.value != expected { return Err(ContractRevision); }
      var built := ContractPayloadOf(input, seeds[key].payload, id, Some(expected));
      if built.Err? { return Err(built.error); }
      var p := built.value;
      var unlockable := LockError(p);
      if lock && unlockable.Some? { return Err(unlockable.value); }
      if p.id == id { return Err(ContractIdReused); }
      contracts := RetireContractRows(contracts, {id}, Retirement(now, reason));
      var row := NewContractRow(p, if lock then Locked else Proposed, Some(id), now);
      var inserted := InsertContract(row);
      if !inserted { return Err(ContractExists); }
      seeds := seeds[key := if lock then BindSeed(seeds[key], p.id, row.hash) else UnbindSeed(seeds[key])];
      return Plain(ContractBody(contracts[p.id], Some(id)));
    }

    method DoRetireContract(id: string, reason: string, now: nat) returns (r: Result<Reply, Error>)
      modifies this`contracts, this`seeds
      ensures Did(RetireContractSpec(old(Rows()), id, reason, now), r)
    {
      if id !in contracts { return Err(ContractNotFound); }
      var row := contracts[id];
      if row.status == Retired { return Err(ContractAlreadyRetired); }
      var key := row.payload.seed;
      if key !in seeds { return Err(SeedNotFound); }
      if seeds[key].status in {Expanded, Generated} { return Err(SeedRevisionRequired); }
      contracts := RetireContractRows(contracts, {id}, Retirement(now, reason));
      if seeds[key].contractId == Some(id) { seeds := seeds[key := UnbindSeed(seeds[key])]; }
      return Plain(ContractBody(contracts[id], None));
    }

    // ----- Reviews ----------------------------------------------------------------------------------

    method DoRecordReview(p: ReviewPayload) returns (r: Result<Reply, Error>)
      modifies this`reviews
      ensures Did(RecordReviewSpec(old(Rows()), p), r)
    {
      if p.contractId !in contracts { return Err(ContractNotFound); }
      var contract := contracts[p.contractId];
      if contract.hash != p.contractHash { return Err(ContractHashMismatch); }
      if contract.lockedAt == None || contract.status == Proposed { return Err(ReviewContractNotLocked); }
      if contract.payload.context.artifactRevision != p.artifactRevision { return Err(ReviewArtifactMismatch); }
      if p.supersedes != "" {
        var refused := ReviewSupersessionError(reviews, p);
        if refused.Some? { return Err(refused.value); }
        reviews := reviews[p.supersedes := reviews[p.supersedes].(status := Superseded)];
      } else if p.rev != 1 {
        return Err(ReviewRevision);
      }
      if p.id in reviews { return Err(ReviewExists); }
      reviews := reviews[p.id := ReviewRow(p, Sha256(OfReview(p)), Recorded, None)];
      return Ok(Reply(ReviewBody(reviews[p.id]), true, false));
    }

    method DoRetireReview(id: string, reason: string, now: nat) returns (r: Result<Reply, Error>)
      modifies this`reviews
      ensures Did(RetireReviewSpec(old(Rows()), id, reason, now), r)
    {
      if id !in reviews { return Err(ReviewNotFound); }
      if reviews[id].status != Recorded { return Err(ReviewNotActive); }
      reviews := reviews[id := reviews[id].(status := ReviewRetired, retirement := Some(Retirement(now, reason)))];
      return Ok(Reply(ReviewBody(reviews[id]), true, false));
    }

    method DoRecordObserved(p: ObservedPayload, source: Option<AcceptedSource>) returns (r: Result<Reply, Error>)
      modifies this`observed
      ensures Did(RecordObservedSpec(old(Rows()), p, source), r)
    {
      if source.None? { return Err(ObservedSourceNotFound); }
      var at := source.value;
      if !at.accepted || at.artifactId != p.artifactId || at.branch != p.branch
         || at.artifactRevision != p.artifactRevision || at.contentHash != p.sourceHash { return Err(ObservedSourceDrift); }
      if p.supersedes != "" {
        if p.supersedes !in observed || observed[p.supersedes].status != Recorded { return Err(ReviewNotActive); }
        if !SameObservedLineage(observed[p.supersedes].payload, p) { return Err(ReviewLineageMismatch); }
        observed := observed[p.supersedes := observed[p.supersedes].(status := Superseded)];
      } else if p.rev != 1 {
        return Err(ReviewRevision);
      }
      if p.id in observed { return Err(ReviewExists); }
      observed := observed[p.id := ObservedRow(p, Sha256(OfObservedReview(p)), Recorded)];
      return Ok(Reply(ObservedBody(observed[p.id]), true, false));
    }

    // ----- Questions ---------------------------------------------------------------------------------

    method DoOpenQuestion(manifest: SeedManifest, q: QuestionInput, ttl: nat, now: nat) returns (r: Result<Reply, Error>)
      requires QuestionInputError(CaseFold, q).None?
      modifies this`questions
      ensures Did(OpenQuestionSpec(old(Rows()), manifest, q, ttl, now), r)
    {
      var p := QuestionPayloadOf(manifest, q, RecommendedId(CaseFold, q));
      var stale := CheckQuestionBindings(p.bindings);
      if stale.Some? { return Err(stale.value); }
      if p.manifest in questions { return Err(QuestionExists); }
      questions := questions[p.manifest := QuestionRow(p, Sha256(OfQuestion(p)), AwaitingAnswer, 0, None, None, now + ttl)];
      return Plain(AskBody(questions[p.manifest]));
    }

    /** Retires the open candidates with their proposed contracts, then the proposed arcs over them. */
    method RetireQuestionCandidates(bindings: seq<SeedBinding>, mark: Retirement) returns (counts: Counts)
      modifies this`seeds, this`contracts, this`arcs
      ensures Rows() == Cleanup(old(Rows()), AsSet(bindings), mark)
      ensures counts == CleanupCounts(old(Rows()), AsSet(bindings))
    {
      var bound, retiredContracts := RetireBoundSeeds(bindings, mark);
      var retiredArcs := 0;
      NoArcsOverNothing(arcs, mark);
      if bound != {} { retiredArcs := RetireArcsOver(bound, mark); }
      counts := Counts(|bound|, retiredArcs, retiredContracts);
    }

    method RetireBoundSeeds(bindings: seq<SeedBinding>, mark: Retirement) returns (bound: set<RowKey>, retiredContracts: nat)
      modifies this`seeds, this`contracts
      ensures bound == OpenCandidates(old(Rows()), AsSet(bindings))
      ensures seeds == RetireSeedRows(old(seeds), bound, mark)
      ensures contracts == RetireContractRows(old(contracts), ProposedOn(old(contracts), bound), mark)
      ensures retiredContracts == |ProposedOn(old(contracts), bound)|
    {
      ghost var t := Rows();
      bound, retiredContracts := {}, 0;
      NothingYet(t, mark);
      for i := 0 to |bindings|
        invariant bound == OpenCandidates(t, AsSet(bindings[..i]))
        invariant seeds == RetireSeedRows(t.seeds, bound, mark)
        invariant contracts == RetireContractRows(t.contracts, ProposedOn(t.contracts, bound), mark)
        invariant retiredContracts == |ProposedOn(t.contracts, bound)|
      {
        var b := bindings[i];
        OneMoreCandidate(t, bindings[..i], b, mark);
        assert bindings[..i + 1] == bindings[..i] + [b];
        if b.key in seeds && seeds[b.key].hash == b.hash && seeds[b.key].status == Seeded {
          var proposed := ProposedOn(contracts, {b.key});
          ProposedLeft(t.contracts, bound, {b.key}, mark);
          RetireContractRowsTwice(t.contracts, ProposedOn(t.contracts, bound), proposed, mark);
          RetireSeedRowsTwice(t.seeds, bound, {b.key}, mark);
          contracts := RetireContractRows(contracts, proposed, mark);
          retiredContracts := retiredContracts + |proposed|;
          seeds := RetireSeedRows(seeds, {b.key}, mark);
          bound := bound + {b.key};
        }
      }
      assert bindings[..|bindings|] == bindings;
    }

    method RetireArcsOver(bound: set<RowKey>, mark: Retirement) returns (retired: nat)
      modifies this`arcs
      ensures arcs == RetireArcRows(old(arcs), ProposedArcsOver(old(arcs), bound), mark)
      ensures retired == |ProposedArcsOver(old(arcs), bound)|
    {
      ghost var was := arcs;
      var pending := ProposedArcs(arcs);
      retired := 0;
      NoArcYet(arcs, bound, mark);
      while pending != {}
        invariant pending <= ProposedArcs(was)
        invariant arcs == RetireArcRows(was, ProposedArcsOver(was, bound) - pending, mark)
        invariant retired == |ProposedArcsOver(was, bound) - pending|
      {
        var a :| a in pending;
        OneArcMore(was, pending, a, bound, mark);
        pending := pending - {a};
        if Mentions(arcs[a], bound) {
          arcs := RetireArcRows(arcs, {a}, mark);
          retired := retired + 1;
        }
      }
      assert ProposedArcsOver(was, bound) - {} == ProposedArcsOver(was, bound);
    }

    /** Expires all due questions, then cleans up after them one by one, under one mark. */
    method DoRetireExpired(at: nat) returns (r: Result<Reply, Error>)
      modifies this`seeds, this`contracts, this`arcs, this`questions
      ensures Did(RetireExpiredSpec(old(Rows()), at), r)
    {
      hide Cleanup, CleanupCounts, CloseQuestions, AsSet;
      var rows := questions;
      var due := ExpiredAt(rows, at);
      var mark := Retirement(at, TTL_EXPIRED);
      var totals := Counts(0, 0, 0);
      questions := CloseQuestions(questions, due);
      ghost var t := Rows();
      ghost var done: set<Digest> := {};
      var pending := due;
      BoundByNone(rows);
      CleanupOfNothing(t, mark);
      while pending != {}
        invariant done !! pending && done + pending == due
        invariant questions == t.questions
        invariant Rows() == Cleanup(t, BoundBy(rows, done), mark)
        invariant totals == CleanupCounts(t, BoundBy(rows, done))
      {
        var h :| h in pending;
        pending := pending - {h};
        var counts := RetireQuestionCandidates(rows[h].payload.bindings, mark);
        BoundByOneMore(rows, done, h);
        CleanupTwice(t, BoundBy(rows, done), AsSet(rows[h].payload.bindings), mark);
        totals := Add(totals, counts);
        done := done + {h};
      }
      return Ok(Reply(ExpiredBody(due, totals, at), due != {}, due != {}));
    }

    method DoClaim(request: string) returns (r: Result<Reply, Error>)
      ensures Did(Ok(Applied(Rows(), ClaimBody(Sha256(OfRuntimeRequest(request))), false, false)), r)
    {
      return Ok(Reply(ClaimBody(Sha256(OfRuntimeRequest(request))), false, false));
    }

    // ----- The transaction around an operation ------------------------------------------------------------

    method Dispatch(op: Op, env: Env) returns (r: Result<Reply, Error>)
      requires ArgumentError(op).None? && !op.AnswerQuestion?
      modifies this`seeds, this`contracts, this`arcs, this`reviews, this`observed, this`questions
      ensures Did(Apply(old(Rows()), op, env), r)
    {
      hide Apply, Did;
      if SeedOp(op) { r := DispatchSeedOp(op, env); }
      else if SeedOrContractOp(op) { r := DispatchContractOp(op, env); }
      else if ArcOp(op) { r := DispatchArcOp(op, env); }
      else if ReviewOp(op) { r := DispatchReviewOp(op, env); }
      else { r := DispatchQuestionOp(op, env); }
    }

    method DispatchSeedOp(op: Op, env: Env) returns (r: Result<Reply, Error>)
      requires ArgumentError(op).None? && SeedOp(op)
      modifies this`seeds, this`contracts
      ensures Did(Apply(old(Rows()), op, env), r)
    {
      hide Did;
      match op {
        case CreateSeed(p) => r := DoCreateSeed(p);
        case SupersedeSeed(id, input, reason) => r := DoSupersedeSeed(id, input, reason, env.now);
        case AdvanceSeedStatus(key, target, hash) => r := DoAdvanceSeed(key, target, hash);
        case RetireSeed(key, reason) => r := DoRetireSeed(key, reason, env.now);
      }
    }

    method DispatchContractOp(op: Op, env: Env) returns (r: Result<Reply, Error>)
      requires ArgumentError(op).None? && SeedOrContractOp(op) && !SeedOp(op)
      modifies this`seeds, this`contracts
      ensures Did(Apply(old(Rows()), op, env), r)
    {
      hide Did;
      match op {
        case ProposeContract(input) => r := DoProposeContract(input, env.now);
        case ProposeAndLockContract(input) => r := DoProposeAndLock(input, env.now);
        case LockContract(id, expected) => r := DoLockContract(id, expected, env.now);
        case SupersedeContract(id, input, reason, lock) => r := DoSupersedeContract(id, input, reason, lock, env.now);
        case RetireContract(id, reason) => r := DoRetireContract(id, reason, env.now);
      }
    }

    method DispatchArcOp(op: Op, env: Env) returns (r: Result<Reply, Error>)
      requires ArgumentError(op).None? && ArcOp(op)
      modifies this`arcs
      ensures Did(Apply(old(Rows()), op, env), r)
    {
      hide Did;
      match op {
        case CreateArc(p) => r := DoCreateArc(p);
        case LockArc(key, expected) => r := DoLockArc(key, expected, env.now);
        case SupersedeArc(id, input, reason, lock) => r := DoSupersedeArc(id, input, reason, lock, env.now);
        case RetireArc(key, reason) => r := DoRetireArc(key, reason, env.now);
      }
    }

    method DispatchReviewOp(op: Op, env: Env) returns (r: Result<Reply, Error>)
      requires ArgumentError(op).None? && ReviewOp(op)
      modifies this`reviews, this`observed
      ensures Did(Apply(old(Rows()), op, env), r)
    {
      hide Did;
      match op {
        case RecordReview(p, _) => r := DoRecordReview(p);
        case RetireReview(id, reason) => r := DoRetireReview(id, reason, env.now);
        case RecordObservedReview(p, _) => r := DoRecordObserved(p, env.source);
      }
    }

    method DispatchQuestionOp(op: Op, env: Env) returns (r: Result<Reply, Error>)
      requires ArgumentError(op).None? && (op.OpenQuestion? || op.RetireExpiredQuestions? || op.ClaimRuntimeRequest?)
      modifies this`seeds, this`contracts, this`arcs, this`questions
      ensures Did(Apply(old(Rows()), op, env), r)
    {
      hide Did;
      match op {
        case OpenQuestion(manifest, q, ttl) => r := DoOpenQuestion(manifest, q, ttl, env.now);
        case RetireExpiredQuestions(at) => r := DoRetireExpired(if at.Some? then at.value else env.now);
        case ClaimRuntimeRequest(request) => r := DoClaim(request);
      }
    }

    /** Replay or conflict, if the key was used before; the stale-revision error, if it was not. */
    method Lookup(c: Call) returns (answered: Option<Result<Response, Error>>)
      ensures answered.Some? ==> ArgumentError(c.op).None? ==> Step(View(), c) == Stepped(View(), answered.value)
      ensures answered.None? <==> LogKeyOf(c) !in log && control == c.expected
    {
      if LogKeyOf(c) in log {
        var entry := log[LogKeyOf(c)];
        return Some(if entry.request == RequestHash(c.op) then Ok(entry.response) else Err(IdempotencyConflict));
      }
      return if control != c.expected then Some(Err(StaleControl)) else None;
    }

    method Mutate(c: Call) returns (r: Result<Response, Error>)
      requires !c.op.AnswerQuestion?
      modifies this
      ensures Stepped(View(), r) == Step(old(View()), c)
    {
      var invalid := ArgumentError(c.op);
      if invalid.Some? { return Err(invalid.value); }
      var answered := Lookup(c);
      if answered.Some? { return answered.value; }
      r := Transact(c);
    }

    method Transact(c: Call) returns (r: Result<Response, Error>)
      requires ArgumentError(c.op).None? && !c.op.AnswerQuestion?
      modifies this
      ensures Stepped(View(), r) == Transaction(old(View()), c)
    {
      hide Apply, RequestHash;
      var before := Rows();
      var reply := Dispatch(c.op, c.env);
      if reply.Err? {
        Rollback(before);
        return Err(reply.error);
      }
      var response := Finish(c, reply.value);
      return Ok(response);
    }

    /** Advances the counters and logs the response. */
    method Finish(c: Call, reply: Reply) returns (response: Response)
      modifies this`control, this`binding, this`log
      ensures response == Response(reply.body, control)
      ensures control == old(control) + (if reply.advance then 1 else 0) && binding == old(binding) + (if reply.bind then 1 else 0)
      ensures log == old(log)[LogKeyOf(c) := LogEntry(RequestHash(c.op), response)]
    {
      if reply.advance { control := control + 1; }
      if reply.bind { binding := binding + 1; }
      response := Response(reply.body, control);
      log := log[LogKeyOf(c) := LogEntry(RequestHash(c.op), response)];
    }

    method Rollback(before: Tables)
      modifies this`seeds, this`contracts, this`arcs, this`reviews, this`observed, this`questions
      ensures Rows() == before
    {
      seeds, contracts, arcs := before.seeds, before.contracts, before.arcs;
      reviews, observed, questions := before.reviews, before.observed, before.questions;
    }

    // ----- Answering, a transaction of its own ----------------------------------------------------------------

    /** Retires the question, advances the control revision, then cleans up its candidates. */
    method Close(h: Digest, action: Action, why: Reason, mark: Retirement) returns (body: Body)
      requires h in questions
      modifies this`seeds, this`contracts, this`arcs, this`questions, this`control
      ensures CloseSpec(old(Rows()), h, action, why, mark) == Ok(Applied(Rows(), body, true, false))
      ensures control == old(control) + 1
    {
      var bindings := questions[h].payload.bindings;
      questions := questions[h := questions[h].(status := QuestionRetired)];
      control := control + 1;
      var updated := questions[h];
      var counts := RetireQuestionCandidates(bindings, mark);
      body := AnswerBody(action, why, updated, None, Some(counts));
    }

    method NoteInvalidAnswer(h: Digest) returns (body: Body)
      requires h in questions
      modifies this`questions
      ensures InvalidAnswerSpec(old(Rows()), h, old(questions)[h]) == Ok(Applied(Rows(), body, false, false))
    {
      var row := questions[h];
      var attempts := if row.attempts + 1 < 2 then row.attempts + 1 else 2;
      if row.attempts < 2 {
        questions := questions[h := row.(attempts := attempts, status := if attempts == 1 then AwaitingAnswer else AwaitingEventExperience)];
      }
      assert questions == questions[h := questions[h]];
      body := AnswerBody(if attempts == 1 then Repeat else AwaitingExplicitChoice,
                         if attempts == 1 then RepeatedOnce else LimitReached, questions[h], None, None);
    }

    method Select(h: Digest, answer: string, option: QuestionOption, now: nat) returns (body: Body)
      requires h in questions
      modifies this`questions, this`control
      ensures SelectSpec(old(Rows()), h, old(questions)[h], answer, option, now) == Ok(Applied(Rows(), body, true, false))
      ensures control == old(control) + 1
    {
      questions := questions[h := questions[h].(status := Answered, selected := Some(option.id), selectedAt := Some(now))];
      control := control + 1;
      body := AnswerBody(Selected, SelectionReason(answer), questions[h], Some(option), None);
    }

    method Answer(c: Call) returns (r: Result<Response, Error>)
      requires c.op.AnswerQuestion?
      modifies this
      ensures Stepped(View(), r) == Step(old(View()), c)
    {
      hide SelectOption, SelectedOption, CaseFold, OpenCandidates, CandidateCounts, RetireCandidates, RequestHash;
      var answered := Lookup(c);
      if answered.Some? { return answered.value; }
      var h, answer, now := c.op.manifestHash, c.op.answer, c.env.now;
      if h !in questions { return Err(QuestionNotFound); }
      var row := questions[h];
      var body: Body;
      if row.status == QuestionRetired {
        return Err(QuestionAlreadyRetired);
      } else if Open(row.status) && row.expiresAt <= now {
        body := Close(h, Expired, TtlExpired, Retirement(now, TTL_EXPIRED));
      } else if row.status == Answered {
        var chosen := if row.selected.Some? then SelectedOption(row.payload.options, row.selected.value) else None;
        var requested := SelectOption(CaseFold, row.payload, answer);
        if chosen.Some? && requested.Some? && requested.value.id != chosen.value.id { return Err(QuestionAlreadyAnswered); }
        body := AnswerBody(Selected, AlreadyAnswered, row, chosen, None);
      } else if answer in CANCEL_ANSWERS {
        body := Close(h, Cancelled, ExplicitCancel, Retirement(now, CANCELLED));
      } else {
        var option := SelectOption(CaseFold, row.payload, answer);
        if option.None? {
          body := NoteInvalidAnswer(h);
        } else {
          body := Select(h, answer, option.value, now);
        }
      }
      var response := Response(body, control);
      log := log[LogKeyOf(c) := LogEntry(RequestHash(c.op), response)];
      return Ok(response);
    }

    // ----- The service's calls -----------------------------------------------------------------------------------

    /** Any call: it does what Step says, keeps the invariant and keeps of the state what is permanent. */
    method Execute(c: Call) returns (r: Result<Response, Error>)
      modifies this
      ensures Stepped(View(), r) == Step(old(View()), c)
      ensures r.Err? ==> View() == old(View())
      ensures Inv(old(View())) ==> Inv(View()) && Later(old(View()), View())
    {
      ghost var before := View();
      if c.op.AnswerQuestion? { r := Answer(c); } else { r := Mutate(c); }
      StepCommits(before, c);
      if Inv(before) { StepKeeps(before, c); }
    }

    /** A sequence of calls from any state. */
    method ExecuteAll(calls: seq<Call>)
      modifies this
      ensures View() == Run(old(View()), calls)
    {
      ghost var before := View();
      for i := 0 to |calls|
        invariant Run(before, calls) == Run(View(), calls[i..])
      {
        var _ := Execute(calls[i]);
        assert calls[i..][1..] == calls[i + 1..];
      }
    }

    method CollectSeedEntries(refs: seq<RowKey>) returns (r: Result<seq<SeedEntry>, Error>)
      ensures r == SeedEntries(seeds, refs)
    {
      var entries: seq<SeedEntry> := [];
      OntoNothing(SeedEntries(seeds, refs));
      assert refs[0..] == refs;
      for i := 0 to |refs|
        invariant SeedEntries(seeds, refs) == Onto(entries, SeedEntries(seeds, refs[i..]))
        invariant |entries| == i
      {
        var entry := SeedEntryOf(seeds, refs[i]);
        if entry.Err? { return Err(entry.error); }
        assert refs[i..][1..] == refs[i + 1..];
        OntoOneMore(entries, entry.value, SeedEntries(seeds, refs[i + 1..]));
        entries := entries + [entry.value];
      }
      assert entries + [] == entries;
      return Ok(entries);
    }

    method CollectLockedEntries(refs: seq<RowKey>) returns (r: Result<seq<LockedEntry>, Error>)
      ensures r == LockedEntries(seeds, contracts, refs)
    {
      var entries: seq<LockedEntry> := [];
      OntoNothing(LockedEntries(seeds, contracts, refs));
      assert refs[0..] == refs;
      for i := 0 to |refs|
        invariant LockedEntries(seeds, contracts, refs) == Onto(entries, LockedEntries(seeds, contracts, refs[i..]))
        invariant |entries| == i
      {
        var entry := LockedEntryOf(seeds, contracts, refs[i]);
        if entry.Err? { return Err(entry.error); }
        assert refs[i..][1..] == refs[i + 1..];
        OntoOneMore(entries, entry.value, LockedEntries(seeds, contracts, refs[i + 1..]));
        entries := entries + [entry.value];
      }
      assert entries + [] == entries;
      return Ok(entries);
    }

    method BuildLockedManifest(refs: seq<RowKey>) returns (r: Result<EventTypes.Manifest, Error>)
      ensures r == ManifestIn(View(), refs)
    {
      var invalid := ReferenceError(refs);
      if invalid.Some? { return Err(invalid.value); }
      var entries := CollectLockedEntries(refs);
      if entries.Err? { return Err(entries.error); }
      if entries.value == [] { return Err(ManifestEmpty); }
      return FinishLocked(entries.value, binding);
    }

    /** What an accepted token stands for, and until when, is Revisions.TokensOutliveUnboundChanges. */
    method ValidateLockedManifest(refs: seq<RowKey>, hash: Digest, revision: nat, outlineExact: Outline -> bool)
      returns (r: Result<EventTypes.Manifest, Error>)
      ensures r == ValidateToken(View(), refs, hash, revision, outlineExact)
    {
      var m := BuildLockedManifest(refs);
      if m.Err? { return m; }
      if m.value.body.outline.Some? && !outlineExact(m.value.body.outline.value) { return Err(OutlineBindingDrift); }
      if m.value.controlRevision != revision { return Err(StaleControl); }
      if m.value.hash != hash { return Err(ManifestHashMismatch); }
      return m;
    }

    method BuildSeedManifest(refs: seq<RowKey>) returns (r: Result<SeedManifest, Error>)
      ensures r == SeedManifestOf(seeds, refs)
    {
      var invalid := ReferenceError(refs);
      if invalid.Some? { return Err(invalid.value); }
      var found := CollectSeedEntries(refs);
      if found.Err? { return Err(found.error); }
      if found.value == [] { return Err(ManifestEmpty); }
      var entries := Sort(SeedPlace(), found.value);
      var mixed := ContextError(SeedContexts(entries), SeedOutlines(entries));
      if mixed.Some? { return Err(mixed.value); }
      return Ok(SeedManifest(entries[0].context, entries[0].outline, entries));
    }

    /** open_question: the seeds are read first, outside the transaction that looks up the key; other calls may come in between. */
    method AskQuestion(a: Asking, meanwhile: seq<Call>) returns (r: Result<Response, Error>)
      modifies this
      ensures Stepped(View(), r) == Ask(old(View()), Run(old(View()), meanwhile), a)
    {
      var manifest := BuildSeedManifest(a.refs);
      ExecuteAll(meanwhile);
      if manifest.Err? { return Err(manifest.error); }
      if Sha256(OfSeedManifest(manifest.value)) != a.hash { return Err(QuestionManifestMismatch); }
      r := Mutate(OpenCall(a, manifest.value));
    }
  }

  // ----- Steps of the cleanup loop ------------------------------------------------------------------------------

  lemma NothingYet(t: Tables, mark: Retirement)
    ensures OpenCandidates(t, AsSet([])) == {} && ProposedOn(t.contracts, {}) == {}
    ensures RetireSeedRows(t.seeds, {}, mark) == t.seeds && RetireContractRows(t.contracts, {}, mark) == t.contracts
  {
    RetireNoRows(t, mark);
  }

  lemma NoArcsOverNothing(arcs: Arcs, mark: Retirement)
    ensures ProposedArcsOver(arcs, {}) == {} && RetireArcRows(arcs, {}, mark) == arcs
  {
  }

  lemma NoArcYet(arcs: Arcs, bound: set<RowKey>, mark: Retirement)
    ensures ProposedArcsOver(arcs, bound) - ProposedArcs(arcs) == {} && RetireArcRows(arcs, {}, mark) == arcs
  {
  }

  lemma OneArcMore(arcs: Arcs, pending: set<RowKey>, a: RowKey, bound: set<RowKey>, mark: Retirement)
    requires pending <= ProposedArcs(arcs) && a in pending
    ensures var done := ProposedArcsOver(arcs, bound) - pending;
            var done' := ProposedArcsOver(arcs, bound) - (pending - {a});
            var arcs' := RetireArcRows(arcs, done, mark);
            if Mentions(arcs'[a], bound) then RetireArcRows(arcs', {a}, mark) == RetireArcRows(arcs, done', mark) && |done'| == |done| + 1
            else done' == done
  {
    var over := ProposedArcsOver(arcs, bound);
    assert over - (pending - {a}) == if a in over then (over - pending) + {a} else over - pending;
  }

  /** The row test of the loop sees exactly the candidates not yet retired. */
  lemma OneMoreCandidate(t: Tables, done: seq<SeedBinding>, b: SeedBinding, mark: Retirement)
    ensures var bound := OpenCandidates(t, AsSet(done));
            var seeds' := RetireSeedRows(t.seeds, bound, mark);
            OpenCandidates(t, AsSet(done + [b])) ==
              if b.key in seeds' && seeds'[b.key].hash == b.hash && seeds'[b.key].status == Seeded
              then bound + {b.key} else bound
    ensures var bound := OpenCandidates(t, AsSet(done));
            var seeds' := RetireSeedRows(t.seeds, bound, mark);
            b.key in seeds' && seeds'[b.key].status == Seeded ==> b.key !in bound
  {
    var bound := OpenCandidates(t, AsSet(done));
    assert AsSet(done + [b]) == AsSet(done) + {b};
    assert OpenCandidates(t, AsSet(done) + {b}) == bound + OpenCandidates(t, {b});
  }
}
