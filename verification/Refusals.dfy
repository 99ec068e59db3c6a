/**
  Why a call is refused: every error a transaction or an argument check reports names
  something that is so, in a reachable state. Errors that only a broken table could cause
  have no cause here: they are never reported.
  */
module Refusals {
  import opened Basics
  import opened EventTypes
  import opened EventSpec
  import opened EventLedger
  import opened LedgerOps
  import opened QuestionMachine
  import opened ArcLedger
  import opened ReviewLedger
  import opened Runs
  import opened Arguments
  import opened Answers
  import opened Effects
  import opened Calls
  import opened ReviewEvidence

  // ----- Seeds ----------------------------------------------------------------------------

  ghost predicate CauseOfCreateSeed(t: Tables, p: SeedPayload, e: Error) {
    || (e == DependencyOrderConflict && !PlaceFree(t.seeds, p.context.chain, p.order))
    || (e == SeedExists && KnownId(t.seeds.Keys, p.id))
  }

  ghost predicate CauseOfSupersedeSeed(seeds: Seeds, id: string, input: SeedInput, e: Error) {
    || (e == SeedNotFound && !KnownId(seeds.Keys, id))
    || (e == SeedAlreadyRetired && KnownId(seeds.Keys, id) && forall k :: LiveSeed(seeds, k) ==> k.id != id)
    || (e == OutlineBindingIncomplete && !OutlineWhole(input.outline))
    || exists k :: LiveSeed(seeds, k) && k.id == id && CauseOfReplacement(seeds, k, input, e)
  }

  ghost predicate CauseOfReplacement(seeds: Seeds, k: RowKey, input: SeedInput, e: Error)
    requires k in seeds
  {
    var was := seeds[k].payload.context;
    || (e == SeedSupersessionMismatch && input.supersedes.Some? && input.supersedes.value != k.rev)
    || (e == SeedIdentityMismatch
        && (input.context.chain != was.chain || input.context.branch != was.branch || input.context.artifactId != was.artifactId))
    || (e == DependencyOrderConflict && TakenByOther(seeds, k.id, input.context.chain, input.order))
  }

  ghost predicate CauseOfAdvance(seeds: Seeds, k: RowKey, target: SeedStatus, hash: Digest, e: Error) {
    || (e == SeedNotFound && k !in seeds)
    || (e == SeedTransition && k in seeds && !StepForward(seeds[k].status, target))
    || (e == ContractHashMismatch && k in seeds && seeds[k].contractHash != Some(hash))
  }

  ghost predicate CauseOfRetireSeed(seeds: Seeds, k: RowKey, e: Error) {
    || (e == SeedNotFound && k !in seeds)
    || (e == SeedAlreadyRetired && k in seeds && seeds[k].status == SeedRetired)
  }

  lemma CreateSeedRefused(t: Tables, p: SeedPayload)
    requires p.rev == 1
    ensures var o := CreateSeedSpec(t, p); o.Err? ==> CauseOfCreateSeed(t, p, o.error)
  {
  }

  lemma SupersedeSeedRefused(t: Tables, id: string, input: SeedInput, reason: string, now: nat)
    requires Ledger(t)
    ensures var o := SupersedeSeedSpec(t, id, input, reason, now); o.Err? ==> CauseOfSupersedeSeed(t.seeds, id, input, o.error)
  {
    var o := SupersedeSeedSpec(t, id, input, reason, now);
    if forall k :: LiveSeed(t.seeds, k) ==> k.id != id {
      OnlyLiveSeedsAreSuperseded(t, id, input, reason, now);
      hide SupersedeSeedSpec, LedgerInv;
    } else {
      var k :| LiveSeed(t.seeds, k) && k.id == id;
      LiveSeedIsLatest(t.seeds, k);
      hide LedgerInv;
      ReplacementRefused(t, k, input, reason, now);
      hide SupersedeSeedSpec, CauseOfReplacement;
    }
  }

  lemma ReplacementRefused(t: Tables, k: RowKey, input: SeedInput, reason: string, now: nat)
    requires LiveSeed(t.seeds, k) && Latest(t.seeds.Keys, k.id) == Some(k.rev)
    ensures var o := SupersedeSeedSpec(t, k.id, input, reason, now);
            o.Err? ==> (o.error == OutlineBindingIncomplete && !OutlineWhole(input.outline)) || CauseOfReplacement(t.seeds, k, input, o.error)
  {
    hide Latest, Occupied, TakenByOther, RetireSeedRows, RetireContractRows, ActiveOn, NewSeedRow;
    OccupiedIsTaken(t.seeds, k.id, input);
  }

  lemma OccupiedIsTaken(seeds: Seeds, id: string, input: SeedInput)
    ensures Occupied(seeds, input.context.chain, input.order, Some(id)) <==> TakenByOther(seeds, id, input.context.chain, input.order)
  {
  }

  lemma AdvanceRefused(t: Tables, k: RowKey, target: SeedStatus, hash: Digest)
    requires Ledger(t)
    ensures var o := AdvanceSeedSpec(t, k, target, hash); o.Err? ==> CauseOfAdvance(t.seeds, k, target, hash, o.error)
  {
    hide LedgerInv;
    AdvanceFindsItsContract(t, k, target, hash);
  }

  // ----- Contracts ------------------------------------------------------------------------

  ghost predicate CauseInProvenance(provenance: map<ExperienceField, Evidence>, e: Error) {
    || (e == ProvenanceIncomplete && exists f: ExperienceField :: f !in provenance)
    || (e == ProvenanceInvalid && exists f: ExperienceField :: f in provenance && (provenance[f] == NotAnObject || provenance[f] == Fields(0)))
  }

  ghost predicate CauseInDraft(t: Tables, input: ContractInput, e: Error) {
    var k := input.seed;
    || (e == SeedNotFound && k !in t.seeds)
    || (e == ContractSupersessionRequired && exists c :: c in t.contracts && t.contracts[c].payload.seed == k)
    || (e == ContractSeedContextMismatch && k in t.seeds && !ClaimsAgree(input.claims, t.seeds[k].payload))
    || (e == ContractRevision && input.rev.Some? && input.rev.value != 1)
    || (e == ContractExists && input.id in t.contracts)
  }

  ghost predicate CauseOfPropose(t: Tables, input: ContractInput, e: Error) {
    var k := input.seed;
    || CauseInDraft(t, input, e)
    || (e == SeedAlreadyRetired && k in t.seeds && t.seeds[k].status == SeedRetired)
    || (e == ContractActive && exists c :: c in t.contracts && t.contracts[c].payload.seed == k && Active(t.contracts[c].status))
  }

  ghost predicate CauseOfProposeAndLock(t: Tables, input: ContractInput, e: Error) {
    || CauseInDraft(t, input, e)
    || (e == SeedNotLockable && input.seed in t.seeds && t.seeds[input.seed].status != Seeded)
    || CauseInProvenance(input.provenance, e)
  }

  ghost predicate CauseOfLockContract(contracts: Contracts, id: string, expected: Option<Digest>, e: Error) {
    || (e == ContractNotFound && id !in contracts)
    || (e == ContractNotProposed && id in contracts && contracts[id].status != Proposed)
    || (e == ContractHashMismatch && id in contracts && expected.Some? && expected.value != contracts[id].hash)
    || (id in contracts && CauseInProvenance(contracts[id].payload.provenance, e))
  }

  ghost predicate CauseOfSupersedeContract(t: Tables, id: string, input: ContractInput, lock: bool, e: Error) {
    || (e == ContractNotFound && id !in t.contracts)
    || (e == ContractAlreadyRetired && id in t.contracts && t.contracts[id].status == Retired)
    || (id in t.contracts && t.contracts[id].payload.seed in t.seeds && CauseOfSuccessor(t, id, input, e))
    || (lock && CauseInProvenance(input.provenance, e))
  }

  ghost predicate CauseOfSuccessor(t: Tables, id: string, input: ContractInput, e: Error)
    requires id in t.contracts && t.contracts[id].payload.seed in t.seeds
  {
    var seed := t.seeds[t.contracts[id].payload.seed];
    || (e == SeedRevisionRequired && (seed.status == Expanded || seed.status == Generated))
    || (e == ContractSupersessionMismatch && input.supersedes != "" && input.supersedes != id)
    || (e == ContractRevision && input.rev.Some? && input.rev.value != t.contracts[id].payload.rev + 1)
    || (e == ContractSeedContextMismatch && !ClaimsAgree(input.claims, seed.payload))
    || (e == ContractIdReused && input.id == id)
    || (e == ContractExists && input.id in t.contracts && input.id != id)
  }

  ghost predicate CauseOfRetireContract(t: Tables, id: string, e: Error) {
    || (e == ContractNotFound && id !in t.contracts)
    || (e == ContractAlreadyRetired && id in t.contracts && t.contracts[id].status == Retired)
    || (e == SeedRevisionRequired && id in t.contracts && t.contracts[id].payload.seed in t.seeds
        && (t.seeds[t.contracts[id].payload.seed].status == Expanded || t.seeds[t.contracts[id].payload.seed].status == Generated))
  }

  lemma LockErrorHasCause(p: ContractPayload)
    ensures LockError(p).Some? ==> CauseInProvenance(p.provenance, LockError(p).value) && LockError(p).value in {ProvenanceIncomplete, ProvenanceInvalid}
  {
  }

  lemma ProposeRefused(t: Tables, input: ContractInput, now: nat)
    requires Ledger(t)
    ensures var o := ProposeContractSpec(t, input, now); o.Err? ==> CauseOfPropose(t, input, o.error)
    ensures var o := ProposeAndLockSpec(t, input, now); o.Err? ==> CauseOfProposeAndLock(t, input, o.error)
  {
    IndexNeverRejects(t, input, now);
    hide LedgerInv;
    ProposeHasCause(t, input, now);
    ProposeAndLockHasCause(t, input, now);
    hide ProposeContractSpec, ProposeAndLockSpec;
  }

  /** What the steps of a proposal check, one by one. */
  lemma DraftHasCause(t: Tables, input: ContractInput)
    ensures input.seed !in t.seeds ==> CauseInDraft(t, input, SeedNotFound)
    ensures HasContract(t.contracts, input.seed) ==> CauseInDraft(t, input, ContractSupersessionRequired)
    ensures input.seed in t.seeds ==>
              match ContractPayloadOf(input, t.seeds[input.seed].payload, "", None)
              case Err(e) => CauseInDraft(t, input, e)
              case Ok(p) => p.provenance == input.provenance && (p.rev != 1 ==> CauseInDraft(t, input, ContractRevision))
  {
    ClaimsDecide(t, input);
    NoneHasContract(t.contracts, input.seed);
    hide ClaimsMatch, ClaimsAgree, HasContract;
  }

  lemma ProposeHasCause(t: Tables, input: ContractInput, now: nat)
    ensures var o := ProposeContractSpec(t, input, now); o.Err? && o.error != ContractExists ==> CauseOfPropose(t, input, o.error)
  {
    hide CauseInDraft, HasContract, InsertRejected, ContractPayloadOf, NewContractRow;
    DraftHasCause(t, input);
  }

  lemma ProposeAndLockHasCause(t: Tables, input: ContractInput, now: nat)
    ensures var o := ProposeAndLockSpec(t, input, now); o.Err? && o.error != ContractExists ==> CauseOfProposeAndLock(t, input, o.error)
  {
    hide CauseInDraft, HasContract, InsertRejected, ContractPayloadOf, NewContractRow, LockError, CauseInProvenance, BindSeed;
    DraftHasCause(t, input);
    if input.seed in t.seeds && ContractPayloadOf(input, t.seeds[input.seed].payload, "", None).Ok? {
      LockErrorHasCause(ContractPayloadOf(input, t.seeds[input.seed].payload, "", None).value);
    }
  }

  lemma LockContractRefused(t: Tables, id: string, expected: Option<Digest>, now: nat)
    requires Ledger(t)
    ensures var o := LockContractSpec(t, id, expected, now); o.Err? ==> CauseOfLockContract(t.contracts, id, expected, o.error)
  {
    LockFindsItsSeed(t, id, expected, now);
    hide LedgerInv;
    if id in t.contracts { LockErrorHasCause(t.contracts[id].payload); }
    hide LockError, CauseInProvenance;
  }

  lemma SupersedeContractRefused(t: Tables, id: string, input: ContractInput, reason: string, lock: bool, now: nat)
    requires Ledger(t)
    ensures var o := SupersedeContractSpec(t, id, input, reason, lock, now); o.Err? ==> CauseOfSupersedeContract(t, id, input, lock, o.error)
  {
    SupersedeFindsItsSeed(t, id, input, reason, lock, now);
    IndexNeverRejectsSuccessor(t, id, input, reason, lock, now);
    if id in t.contracts && Active(t.contracts[id].status) { ActiveMeansLive(t.seeds, t.contracts, id); }
    hide LedgerInv;
    SupersedeContractHasCause(t, id, input, reason, lock, now);
    hide SupersedeContractSpec, CauseOfSupersedeContract;
  }

  /** What the steps of a supersession check of its draft, one by one. */
  lemma SuccessorHasCause(t: Tables, id: string, input: ContractInput)
    requires id in t.contracts && t.contracts[id].payload.seed in t.seeds
    ensures var seed, expected := t.seeds[t.contracts[id].payload.seed], t.contracts[id].payload.rev + 1;
            && (seed.status in {Expanded, Generated} ==> CauseOfSuccessor(t, id, input, SeedRevisionRequired))
            && (input.supersedes !in {"", id} ==> CauseOfSuccessor(t, id, input, ContractSupersessionMismatch))
            && (input.rev.Some? && input.rev.value != expected ==> CauseOfSuccessor(t, id, input, ContractRevision))
            && (input.id in t.contracts && input.id != id ==> CauseOfSuccessor(t, id, input, ContractExists))
            && (input.rev.None? || input.rev.value == expected ==>
                  match ContractPayloadOf(input, seed.payload, id, Some(expected))
                  case Err(e) => CauseOfSuccessor(t, id, input, e)
                  case Ok(p) => p.provenance == input.provenance && p.id == input.id
                                && (p.id == id ==> CauseOfSuccessor(t, id, input, ContractIdReused)))
  {
    SeedClaims(input.claims, t.seeds[t.contracts[id].payload.seed].payload);
    hide ClaimsMatch, ClaimsAgree;
  }

  lemma SupersedeContractHasCause(t: Tables, id: string, input: ContractInput, reason: string, lock: bool, now: nat)
    requires id in t.contracts && Active(t.contracts[id].status) ==> LiveSeed(t.seeds, t.contracts[id].payload.seed)
    requires SupersedeContractSpec(t, id, input, reason, lock, now) == Err(ContractExists) ==> input.id in t.contracts
    ensures var o := SupersedeContractSpec(t, id, input, reason, lock, now);
            o.Err? && o.error != SeedNotFound ==> CauseOfSupersedeContract(t, id, input, lock, o.error)
  {
    hide CauseOfSuccessor, ContractPayloadOf, InsertRejected, LockError, CauseInProvenance, RetireContractRows, NewContractRow, BindSeed, UnbindSeed;
    if id in t.contracts && t.contracts[id].payload.seed in t.seeds {
      SuccessorHasCause(t, id, input);
      var p := ContractPayloadOf(input, t.seeds[t.contracts[id].payload.seed].payload, id, Some(t.contracts[id].payload.rev + 1));
      if p.Ok? { LockErrorHasCause(p.value); }
    }
  }

  lemma RetireContractRefused(t: Tables, id: string, reason: string, now: nat)
    requires Ledger(t)
    ensures var o := RetireContractSpec(t, id, reason, now); o.Err? ==> CauseOfRetireContract(t, id, o.error)
  {
    RetireFindsItsSeed(t, id, reason, now);
    hide LedgerInv;
  }

  // ----- Arcs -----------------------------------------------------------------------------

  /** Some seed of the list has no live revision on the chain, or has one there but in another context. */
  ghost predicate CauseInSeeds(seeds: Seeds, ids: seq<string>, context: Context, e: Error) {
    || (e == ArcSeedMismatch
        && exists id :: id in ids && forall k :: LiveSeed(seeds, k) && k.id == id ==> seeds[k].payload.context.chain != context.chain)
    || (e == ArcSeedContextMismatch
        && exists k :: LiveSeed(seeds, k) && k.id in ids && seeds[k].payload.context.chain == context.chain && seeds[k].payload.context != context)
  }

  ghost predicate CauseOfCreateArc(t: Tables, p: ArcPayload, e: Error) {
    || (e == ArcActive && exists k :: ActiveArc(t.arcs, k) && t.arcs[k].payload.context == p.context)
    || (e == ArcExists && KnownId(t.arcs.Keys, p.id))
    || CauseInSeeds(t.seeds, p.seedIds, p.context, e)
  }

  ghost predicate CauseOfLockArc(t: Tables, k: RowKey, expected: Option<Digest>, e: Error) {
    || (e == ArcNotFound && k !in t.arcs)
    || (e == ArcNotProposed && k in t.arcs && t.arcs[k].status != Proposed)
    || (e == ArcHashMismatch && k in t.arcs && expected.Some? && expected.value != t.arcs[k].hash)
    || (e == ArcBindingStale && k in t.arcs && exists b :: b in t.arcs[k].bindings && !LiveSeed(t.seeds, b.key))
  }

  ghost predicate CauseOfSupersedeArc(t: Tables, id: string, input: ArcInput, e: Error) {
    || (e == ArcNotFound && !KnownId(t.arcs.Keys, id))
    || (e == ArcRetired && KnownId(t.arcs.Keys, id) && forall k :: ActiveArc(t.arcs, k) ==> k.id != id)
    || (exists k :: ActiveArc(t.arcs, k) && k.id == id && CauseOfNewArc(t.arcs, k, input, e))
    || CauseInList(input.seedIds, e)
    || CauseInSeeds(t.seeds, input.seedIds, input.context, e)
  }

  ghost predicate CauseOfNewArc(arcs: Arcs, k: RowKey, input: ArcInput, e: Error)
    requires k in arcs
  {
    || (e == ArcSupersessionMismatch && input.supersedes.Some? && input.supersedes.value != k.rev)
    || (e == ArcChainMismatch && input.context.chain != arcs[k].payload.context.chain)
  }

  ghost predicate CauseInList(ids: seq<string>, e: Error) {
    || (e == FieldRequired && ids == [])
    || (e == ListTooLong && |ids| > 64)
    || (e == DuplicateSeed && exists i, j :: 0 <= i < j < |ids| && ids[i] == ids[j])
  }

  ghost predicate CauseOfRetireArc(arcs: Arcs, k: RowKey, e: Error) {
    || (e == ArcNotFound && k !in arcs)
    || (e == ArcRetired && k in arcs && arcs[k].status == Retired)
  }

  lemma {:induction false} BindRefused(seeds: Seeds, ids: seq<string>, context: Context)
    requires SeedShape(seeds) && SeedLineage(seeds)
    ensures var r := BindArcSeeds(seeds, ids, context); r.Err? ==> CauseInSeeds(seeds, ids, context, r.error) && r.error in {ArcSeedMismatch, ArcSeedContextMismatch}
  {
    hide SeedShape, SeedLineage, Latest, LiveSeeds, CauseInSeeds;
    if ids != [] {
      FirstRefused(seeds, ids, context);
      BindRefused(seeds, ids[1..], context);
      CauseInRest(seeds, ids, context);
    }
  }

  lemma CauseInRest(seeds: Seeds, ids: seq<string>, context: Context)
    requires ids != []
    ensures forall e :: CauseInSeeds(seeds, ids[1..], context, e) ==> CauseInSeeds(seeds, ids, context, e)
  {
    hide LiveSeed;
    assert forall id :: id in ids[1..] ==> id in ids;
  }

  lemma FirstRefused(seeds: Seeds, ids: seq<string>, context: Context)
    requires SeedShape(seeds) && SeedLineage(seeds) && ids != []
    ensures var latest := Latest(LiveSeeds(seeds), ids[0]);
            if latest.None? then CauseInSeeds(seeds, ids, context, ArcSeedMismatch)
            else
              var c := seeds[RowKey(ids[0], latest.value)].payload.context;
              && (c.chain != context.chain ==> CauseInSeeds(seeds, ids, context, ArcSeedMismatch))
              && (c.chain == context.chain && c != context ==> CauseInSeeds(seeds, ids, context, ArcSeedContextMismatch))
  {
    var latest := Latest(LiveSeeds(seeds), ids[0]);
    assert ids[0] in ids;
    assert forall k :: LiveSeed(seeds, k) <==> k in LiveSeeds(seeds);
    if latest.Some? {
      var key := RowKey(ids[0], latest.value);
      assert LiveSeed(seeds, key);
      forall k | LiveSeed(seeds, k) && k.id == ids[0] ensures k == key {
        assert k.rev < key.rev ==> RetiredSeed(seeds, RowKey(key.id, k.rev));
      }
    }
  }

  lemma CreateArcRefused(t: Tables, p: ArcPayload)
    requires Ledger(t)
    ensures var o := CreateArcSpec(t, p); o.Err? ==> CauseOfCreateArc(t, p, o.error)
  {
    BindRefused(t.seeds, p.seedIds, p.context);
    hide LedgerInv, BindArcSeeds, CauseInSeeds;
  }

  lemma LockArcRefused(t: Tables, k: RowKey, expected: Option<Digest>, now: nat)
    requires ArcInv(t.arcs) && ArcsBound(t.seeds, t.arcs)
    ensures var o := LockArcSpec(t, k, expected, now); o.Err? ==> CauseOfLockArc(t, k, expected, o.error)
  {
    if k in t.arcs {
      var row := t.arcs[k];
      OnlyStaleBindings(t.seeds, row.payload.seedIds, row.bindings, row.payload.context.chain);
      FreshIsLive(t.seeds, row);
    }
    hide ArcBindingError, BindingFresh;
  }

  lemma SupersedeArcRefused(t: Tables, id: string, input: ArcInput, reason: string, lock: bool, now: nat)
    requires Ledger(t) && ArcInv(t.arcs)
    ensures var o := SupersedeArcSpec(t, id, input, reason, lock, now); o.Err? ==> CauseOfSupersedeArc(t, id, input, o.error)
  {
    BindRefused(t.seeds, input.seedIds, input.context);
    hide LedgerInv;
    if k :| ActiveArc(t.arcs, k) && k.id == id {
      ActiveArcIsLatest(t.arcs, k);
      hide ArcInv;
      NewArcRefused(t, k, input, reason, lock, now);
    } else {
      hide ArcInv, BindArcSeeds;
      NoActiveArc(t, id, input, reason, lock, now);
    }
  }

  lemma NoActiveArc(t: Tables, id: string, input: ArcInput, reason: string, lock: bool, now: nat)
    requires forall k :: ActiveArc(t.arcs, k) ==> k.id != id
    ensures SupersedeArcSpec(t, id, input, reason, lock, now) == Err(if KnownId(t.arcs.Keys, id) then ArcRetired else ArcNotFound)
  {
    var latest := Latest(t.arcs.Keys, id);
    if latest.Some? { assert RowKey(id, latest.value) in t.arcs.Keys && !ActiveArc(t.arcs, RowKey(id, latest.value)); }
  }

  lemma NewArcRefused(t: Tables, k: RowKey, input: ArcInput, reason: string, lock: bool, now: nat)
    requires ActiveArc(t.arcs, k) && Latest(t.arcs.Keys, k.id) == Some(k.rev)
    requires var r := BindArcSeeds(t.seeds, input.seedIds, input.context);
             r.Err? ==> CauseInSeeds(t.seeds, input.seedIds, input.context, r.error) && r.error in {ArcSeedMismatch, ArcSeedContextMismatch}
    ensures var o := SupersedeArcSpec(t, k.id, input, reason, lock, now); o.Err? ==> CauseOfSupersedeArc(t, k.id, input, o.error)
  {
    hide BindArcSeeds, Latest, CauseInSeeds, CauseInList, CauseOfNewArc, ArcInputError, RetireArcRows;
    ListHasCause(input.seedIds);
    NewArcHasCause(t.arcs, k, input);
  }

  lemma ListHasCause(ids: seq<string>)
    ensures ArcInputError(ids).Some? ==> CauseInList(ids, ArcInputError(ids).value)
  {
  }

  lemma NewArcHasCause(arcs: Arcs, k: RowKey, input: ArcInput)
    requires k in arcs
    ensures input.supersedes.Some? && input.supersedes.value != k.rev ==> CauseOfNewArc(arcs, k, input, ArcSupersessionMismatch)
    ensures input.context.chain != arcs[k].payload.context.chain ==> CauseOfNewArc(arcs, k, input, ArcChainMismatch)
  {
  }

  lemma RetireArcRefused(t: Tables, k: RowKey, reason: string, now: nat)
    requires ArcInv(t.arcs)
    ensures var o := RetireArcSpec(t, k, reason, now); o.Err? ==> CauseOfRetireArc(t.arcs, k, o.error)
  {
    RetireArcEffect(t, k, reason, now);
    hide ArcInv;
  }

  // ----- Reviews --------------------------------------------------------------------------

  ghost predicate CauseOfRecordReview(t: Tables, p: ReviewPayload, e: Error) {
    || (e == ContractNotFound && p.contractId !in t.contracts)
    || (p.contractId in t.contracts && CauseInContract(t.contracts[p.contractId], p, e))
    || (e == ReviewExists && p.id in t.reviews && (p.supersedes == "" || p.id != p.supersedes))
    || (e == ReviewRevision && p.supersedes == "" && p.rev != 1)
    || (e == ReviewNotFound && p.supersedes != "" && p.supersedes !in t.reviews)
    || (p.supersedes in t.reviews && CauseInLine(t.reviews[p.supersedes], p, e))
  }

  ghost predicate CauseInContract(contract: ContractRow, p: ReviewPayload, e: Error) {
    || (e == ContractHashMismatch && contract.hash != p.contractHash)
    || (e == ReviewContractNotLocked && contract.lockedAt.None?)
    || (e == ReviewArtifactMismatch && contract.payload.context.artifactRevision != p.artifactRevision)
  }

  ghost predicate CauseInLine(previous: ReviewRow, p: ReviewPayload, e: Error) {
    || (e == ReviewNotActive && previous.status != Recorded)
    || (e == ReviewContractMismatch && previous.payload.contractId != p.contractId)
    || (e == ReviewLineageMismatch
        && (previous.payload.proposal != p.proposal || previous.payload.receipt != p.receipt
            || previous.payload.assistantHash != p.assistantHash || previous.payload.artifactRevision != p.artifactRevision))
    || (e == ReviewRevision && p.rev != previous.payload.rev + 1)
    || (e == ReviewIdReused && p.id == p.supersedes)
  }

  ghost predicate CauseOfRetireReview(reviews: ReviewTable, id: string, e: Error) {
    || (e == ReviewNotFound && id !in reviews)
    || (e == ReviewNotActive && id in reviews && reviews[id].status != Recorded)
  }

  ghost predicate CauseOfRecordObserved(observed: ObservedTable, p: ObservedPayload, source: Option<AcceptedSource>, e: Error) {
    || (e == ObservedSourceNotFound && source.None?)
    || (e == ObservedSourceDrift && source.Some? && !SourceStands(source, p))
    || (e == ReviewNotActive && p.supersedes != "" && (p.supersedes !in observed || observed[p.supersedes].status != Recorded))
    || (e == ReviewLineageMismatch && p.supersedes in observed && !ObservedInLine(observed, p))
    || (e == ReviewRevision && p.supersedes == "" && p.rev != 1)
    || (e == ReviewExists && p.id in observed)
  }

  lemma RecordReviewRefused(t: Tables, p: ReviewPayload)
    requires Ledger(t)
    ensures var o := RecordReviewSpec(t, p); o.Err? ==> CauseOfRecordReview(t, p, o.error)
  {
    hide LedgerInv;
    ProposedWasNeverLocked(t, p.contractId);
    RecordReviewHasCause(t, p);
  }

  lemma RecordReviewHasCause(t: Tables, p: ReviewPayload)
    requires p.contractId in t.contracts && t.contracts[p.contractId].status == Proposed ==> t.contracts[p.contractId].lockedAt.None?
    ensures var o := RecordReviewSpec(t, p); o.Err? ==> CauseOfRecordReview(t, p, o.error)
  {
    hide ReviewSupersessionError, CauseInLine, CauseInContract;
    SupersessionHasCause(t.reviews, p);
    if p.contractId in t.contracts { ContractHasCause(t.contracts[p.contractId], p); }
  }

  lemma ContractHasCause(contract: ContractRow, p: ReviewPayload)
    ensures contract.hash != p.contractHash ==> CauseInContract(contract, p, ContractHashMismatch)
    ensures contract.lockedAt.None? ==> CauseInContract(contract, p, ReviewContractNotLocked)
    ensures contract.payload.context.artifactRevision != p.artifactRevision ==> CauseInContract(contract, p, ReviewArtifactMismatch)
  {
  }

  lemma SupersessionHasCause(reviews: ReviewTable, p: ReviewPayload)
    ensures var r := ReviewSupersessionError(reviews, p);
            r.Some? ==> (r.value == ReviewNotFound && p.supersedes !in reviews) || (p.supersedes in reviews && CauseInLine(reviews[p.supersedes], p, r.value))
    ensures ReviewSupersessionError(reviews, p).None? ==> p.id != p.supersedes
  {
    hide CauseInLine;
    if p.supersedes in reviews { LineHasCause(reviews[p.supersedes], p); }
  }

  lemma LineHasCause(previous: ReviewRow, p: ReviewPayload)
    ensures previous.status != Recorded ==> CauseInLine(previous, p, ReviewNotActive)
    ensures previous.payload.contractId != p.contractId ==> CauseInLine(previous, p, ReviewContractMismatch)
    ensures previous.payload.proposal != p.proposal || previous.payload.receipt != p.receipt
            || previous.payload.assistantHash != p.assistantHash || previous.payload.artifactRevision != p.artifactRevision ==>
              CauseInLine(previous, p, ReviewLineageMismatch)
    ensures p.rev != previous.payload.rev + 1 ==> CauseInLine(previous, p, ReviewRevision)
    ensures p.id == p.supersedes ==> CauseInLine(previous, p, ReviewIdReused)
  {
  }

  lemma RecordObservedRefused(t: Tables, p: ObservedPayload, source: Option<AcceptedSource>)
    ensures var o := RecordObservedSpec(t, p, source); o.Err? ==> CauseOfRecordObserved(t.observed, p, source, o.error)
  {
  }

  // ----- Questions ------------------------------------------------------------------------

  ghost predicate CauseOfOpenQuestion(t: Tables, manifest: SeedManifest, e: Error) {
    || (exists entry :: entry in manifest.entries && CauseInBinding(t, SeedBinding(entry.key, entry.seedHash), e))
    || (e == QuestionExists && Sha256(OfSeedManifest(manifest)) in t.questions)
  }

  lemma {:induction false} BindingRefused(t: Tables, bindings: seq<SeedBinding>)
    ensures var r := QuestionBindingError(t, bindings);
            r.Some? ==> exists b :: b in bindings && CauseInBinding(t, b, r.value)
  {
    if bindings != [] {
      BindingRefused(t, bindings[1..]);
      assert forall b :: b in bindings[1..] ==> b in bindings;
      assert bindings[0] in bindings;
      FirstBindingRefused(t, bindings[0]);
      hide ActiveOn, CauseInBinding;
    }
  }

  ghost predicate CauseInBinding(t: Tables, b: SeedBinding, e: Error) {
    || (e == SeedNotFound && b.key !in t.seeds)
    || (e == QuestionBindingStale && b.key in t.seeds && (t.seeds[b.key].hash != b.hash || t.seeds[b.key].status != Seeded))
    || (e == QuestionContractExists
        && exists c :: c in t.contracts && t.contracts[c].payload.seed == b.key && Active(t.contracts[c].status))
  }

  lemma FirstBindingRefused(t: Tables, b: SeedBinding)
    ensures b.key !in t.seeds ==> CauseInBinding(t, b, SeedNotFound)
    ensures b.key in t.seeds && (t.seeds[b.key].hash != b.hash || t.seeds[b.key].status != Seeded) ==> CauseInBinding(t, b, QuestionBindingStale)
    ensures ActiveOn(t.contracts, {b.key}) != {} ==> CauseInBinding(t, b, QuestionContractExists)
  {
    if ActiveOn(t.contracts, {b.key}) != {} { var c :| c in ActiveOn(t.contracts, {b.key}); }
  }

  lemma OpenQuestionRefused(t: Tables, manifest: SeedManifest, q: QuestionInput, ttl: nat, now: nat)
    requires QuestionInputError(CaseFold, q).None?
    ensures var o := OpenQuestionSpec(t, manifest, q, ttl, now); o.Err? ==> CauseOfOpenQuestion(t, manifest, o.error)
  {
    hide QuestionInputError, RecommendedId, QuestionBindingError, BindingsOf;
    var bindings := BindingsOf(manifest.entries);
    BindingRefused(t, bindings);
    BindingsAreOfEntries(manifest.entries);
    var o := OpenQuestionSpec(t, manifest, q, ttl, now);
    if QuestionBindingError(t, bindings).Some? {
      var b :| b in bindings && CauseInBinding(t, b, QuestionBindingError(t, bindings).value);
      var entry :| entry in manifest.entries && b == SeedBinding(entry.key, entry.seedHash);
    }
  }

  lemma BindingsAreOfEntries(entries: seq<SeedEntry>)
    ensures forall b :: b in BindingsOf(entries) ==> exists e :: e in entries && b == SeedBinding(e.key, e.seedHash)
  {
    forall b | b in BindingsOf(entries) ensures exists e :: e in entries && b == SeedBinding(e.key, e.seedHash) {
      var i :| 0 <= i < |entries| && BindingsOf(entries)[i] == b;
      assert entries[i] in entries;
    }
  }

  // ----- Arguments ------------------------------------------------------------------------

  ghost predicate CauseInEvidence(text: Text, hash: Digest, quotes: seq<Text>, offsets: seq<Span>, e: Error) {
    || CauseInQuotes(quotes, e)
    || (exists i :: 0 <= i < |offsets| && CauseInOffset(offsets[i], e))
    || (e == ReviewEvidenceCount && |quotes| != |offsets|)
    || (e == ReviewIndexOutOfRange && |quotes| < |offsets|)
    || (e == TextNotEncodable && exists i :: 0 <= i < |text| && 0xD800 <= text[i] <= 0xDFFF)
    || (e == AssistantHashMismatch && hash != Sha256(OfText(text)))
    || (e == ReviewQuoteMismatch && exists i :: 0 <= i < |offsets| && Misquoted(text, quotes, offsets, i))
  }

  ghost predicate CauseInQuotes(quotes: seq<Text>, e: Error) {
    || (e == FieldRequired && (quotes == [] || [] in quotes))
    || (e == FieldTooLong && exists i :: 0 <= i < |quotes| && |quotes[i]| > 4096)
    || (e == ListTooLong && |quotes| > 64)
  }

  predicate CauseInOffset(offset: Span, e: Error) {
    || (e == IntegerRange && !(0 <= offset.start <= 2_147_483_647 && 0 <= offset.end <= 2_147_483_647))
    || (e == ReviewOffsetRange && offset.end <= offset.start)
  }

  /** Offset i names no slice of the text, or not the one quoted. */
  ghost predicate Misquoted(text: Text, quotes: seq<Text>, offsets: seq<Span>, i: int)
    requires 0 <= i < |offsets|
  {
    || !(0 <= offsets[i].start < offsets[i].end <= |text|)
    || (i < |quotes| && text[offsets[i].start..offsets[i].end] != quotes[i])
  }

  ghost predicate CauseInQuestion(q: QuestionInput, e: Error) {
    || (e == QuestionOptionCount && !(2 <= |q.options| <= 5))
    || (e == QuestionOptionDuplicate && exists i, j :: 0 <= i < j < |q.options| && CaseFold(q.options[i].id) == CaseFold(q.options[j].id))
    || (e == QuestionLabelDuplicate
        && exists i, j :: 0 <= i < j < |q.options| && CaseFold(q.options[i].labelText) == CaseFold(q.options[j].labelText))
    || (e == QuestionRecommendation && forall i :: !Recommends(q, i))
  }

  ghost predicate CauseInArguments(op: Op, e: Error) {
    match op
    case CreateSeed(p) => (e == OutlineBindingIncomplete && !OutlineWhole(p.outline)) || (e == SeedRevision && p.rev != 1)
    case CreateArc(p) => CauseInList(p.seedIds, e) || (e == ArcRevision && p.rev != 1)
    case AdvanceSeedStatus(_, target, _) => e == SeedStatusInvalid && target != Expanded && target != Generated
    case RecordReview(p, text) => CauseInEvidence(text, p.assistantHash, p.quotes, p.offsets, e)
    case RecordObservedReview(p, text) => CauseInEvidence(text, p.assistantHash, p.quotes, p.offsets, e)
    case OpenQuestion(_, q, ttl) => CauseInQuestion(q, e) || (e == IntegerRange && !(60 <= ttl <= 604_800))
    case _ => false
  }

  lemma {:induction false} QuotesHaveCause(quotes: seq<Text>)
    ensures QuoteTextError(quotes).Some? ==> CauseInQuotes(quotes, QuoteTextError(quotes).value)
    ensures QuoteTextError(quotes).Some? ==> QuoteTextError(quotes).value in {FieldRequired, FieldTooLong}
  {
    if quotes != [] {
      QuotesHaveCause(quotes[1..]);
      assert quotes[0] in quotes && forall q :: q in quotes[1..] ==> q in quotes;
      assert forall i :: 0 <= i < |quotes[1..]| ==> quotes[1..][i] == quotes[i + 1];
      assert |quotes[1..]| > 64 ==> |quotes| > 64;
      assert quotes[1..] == [] ==> QuoteTextError(quotes[1..]).None?;
    }
  }

  lemma {:induction false} OffsetsHaveCause(offsets: seq<Span>)
    ensures OffsetListError(offsets).Some? ==> exists i :: 0 <= i < |offsets| && CauseInOffset(offsets[i], OffsetListError(offsets).value)
  {
    if offsets != [] {
      OffsetsHaveCause(offsets[1..]);
      if OffsetListError(offsets) == OffsetListError(offsets[1..]) && OffsetListError(offsets).Some? {
        var i :| 0 <= i < |offsets[1..]| && CauseInOffset(offsets[1..][i], OffsetListError(offsets).value);
        assert offsets[i + 1] == offsets[1..][i];
      }
    }
  }

  lemma {:induction false} SlicesHaveCause(text: Text, quotes: seq<Text>, offsets: seq<Span>)
    requires |quotes| == |offsets|
    ensures SliceError(text, quotes, offsets).Some? ==>
              SliceError(text, quotes, offsets).value == ReviewQuoteMismatch && exists i :: 0 <= i < |offsets| && Misquoted(text, quotes, offsets, i)
  {
    if quotes != [] {
      SlicesHaveCause(text, quotes[1..], offsets[1..]);
      if !IsSlice(text, quotes[0], offsets[0]) {
        assert Misquoted(text, quotes, offsets, 0);
      } else if i :| 0 <= i < |offsets[1..]| && Misquoted(text, quotes[1..], offsets[1..], i) {
        assert Misquoted(text, quotes, offsets, i + 1);
      }
    }
  }

  lemma {:induction false} ObservedOffsetsHaveCause(text: Text, quotes: seq<Text>, offsets: seq<Span>)
    ensures var r := ObservedOffsetError(text, quotes, offsets);
            r.Some? ==>
              || (exists i :: 0 <= i < |offsets| && CauseInOffset(offsets[i], r.value))
              || (r.value == ReviewIndexOutOfRange && |quotes| < |offsets|)
              || (r.value == ReviewQuoteMismatch && exists i :: 0 <= i < |offsets| && Misquoted(text, quotes, offsets, i))
  {
    if offsets != [] {
      var r := ObservedOffsetError(text, quotes, offsets);
      if CauseInOffset(offsets[0], IntegerRange) {
        assert r == Some(IntegerRange);
      } else if Misquoted(text, quotes, offsets, 0) {
        assert r == Some(ReviewQuoteMismatch);
      } else if quotes != [] {
        ObservedOffsetsHaveCause(text, quotes[1..], offsets[1..]);
        assert r == ObservedOffsetError(text, quotes[1..], offsets[1..]);
        if r.Some? {
          if i :| 0 <= i < |offsets[1..]| && CauseInOffset(offsets[1..][i], r.value) { assert offsets[i + 1] == offsets[1..][i]; }
          if i :| 0 <= i < |offsets[1..]| && Misquoted(text, quotes[1..], offsets[1..], i) { assert Misquoted(text, quotes, offsets, i + 1); }
        }
      }
    }
  }

  lemma EvidenceRefused(text: Text, hash: Digest, quotes: seq<Text>, offsets: seq<Span>)
    ensures var r := ReviewEvidenceError(text, hash, quotes, offsets); r.Some? ==> CauseInEvidence(text, hash, quotes, offsets, r.value)
    ensures var r := ObservedEvidenceError(text, hash, quotes, offsets); r.Some? ==> CauseInEvidence(text, hash, quotes, offsets, r.value)
  {
    hide QuoteTextError, OffsetListError, SliceError, ObservedOffsetError, CauseInOffset, Misquoted;
    QuotesHaveCause(quotes);
    OffsetsHaveCause(offsets);
    if |quotes| == |offsets| { SlicesHaveCause(text, quotes, offsets); }
    ObservedOffsetsHaveCause(text, quotes, offsets);
  }

  lemma QuestionRefused(q: QuestionInput)
    ensures QuestionInputError(CaseFold, q).Some? ==> CauseInQuestion(q, QuestionInputError(CaseFold, q).value)
  {
    hide CaseFold, HasDuplicates;
    FoldedDistinct(q);
    if forall i, j :: 0 <= i < j < |q.options| ==> CaseFold(q.options[i].id) != CaseFold(q.options[j].id) {
      MatchingFinds(CaseFold, q.options, q.recommended);
      assert forall i :: Recommends(q, i) ==> 0 <= i < |q.options| && CaseFold(q.options[i].id) == CaseFold(q.recommended);
    }
  }

  /** Arguments are refused for a cause. */
  lemma ArgumentsRefused(op: Op)
    ensures ArgumentError(op).Some? ==> CauseInArguments(op, ArgumentError(op).value)
  {
    hide QuestionInputError, ReviewEvidenceError, ObservedEvidenceError, CauseInEvidence, CauseInQuestion;
    match op {
      case RecordReview(p, text) => EvidenceRefused(text, p.assistantHash, p.quotes, p.offsets);
      case RecordObservedReview(p, text) => EvidenceRefused(text, p.assistantHash, p.quotes, p.offsets);
      case OpenQuestion(_, q, _) => QuestionRefused(q);
      case _ =>
    }
  }

  // ----- Every call -----------------------------------------------------------------------

  /** Why a transaction is refused. What becomes of an answer, AnswerDoes says; expiring and claiming are never refused. */
  ghost predicate Cause(t: Tables, op: Op, env: Env, e: Error) {
    match op
    case CreateSeed(p) => CauseOfCreateSeed(t, p, e)
    case SupersedeSeed(id, input, _) => CauseOfSupersedeSeed(t.seeds, id, input, e)
    case AdvanceSeedStatus(k, target, hash) => CauseOfAdvance(t.seeds, k, target, hash, e)
    case RetireSeed(k, _) => CauseOfRetireSeed(t.seeds, k, e)
    case ProposeContract(input) => CauseOfPropose(t, input, e)
    case ProposeAndLockContract(input) => CauseOfProposeAndLock(t, input, e)
    case LockContract(id, expected) => CauseOfLockContract(t.contracts, id, expected, e)
    case SupersedeContract(id, input, _, lock) => CauseOfSupersedeContract(t, id, input, lock, e)
    case RetireContract(id, _) => CauseOfRetireContract(t, id, e)
    case CreateArc(p) => CauseOfCreateArc(t, p, e)
    case LockArc(k, expected) => CauseOfLockArc(t, k, expected, e)
    case SupersedeArc(id, input, _, _) => CauseOfSupersedeArc(t, id, input, e)
    case RetireArc(k, _) => CauseOfRetireArc(t.arcs, k, e)
    case RecordReview(p, _) => CauseOfRecordReview(t, p, e)
    case RetireReview(id, _) => CauseOfRetireReview(t.reviews, id, e)
    case RecordObservedReview(p, _) => CauseOfRecordObserved(t.observed, p, env.source, e)
    case OpenQuestion(manifest, _, _) => CauseOfOpenQuestion(t, manifest, e)
    case AnswerQuestion(h, answer) => AnswerDoes(t, h, answer, env.now, Err(e))
    case RetireExpiredQuestions(_) => false
    case ClaimRuntimeRequest(_) => false
  }

  ghost predicate ForCause(t: Tables, op: Op, env: Env, o: Outcome) { o.Err? ==> Cause(t, op, env, o.error) }

  lemma SeedOpRefused(t: Tables, op: Op, env: Env)
    requires Ledger(t) && SeedOp(op) && ArgumentError(op).None?
    ensures ForCause(t, op, env, Apply(t, op, env))
  {
    hide LedgerInv, CauseOfCreateSeed, CauseOfSupersedeSeed, CauseOfAdvance, CreateSeedSpec, SupersedeSeedSpec, AdvanceSeedSpec;
    match op {
      case CreateSeed(p) => CreateSeedRefused(t, p);
      case SupersedeSeed(id, input, reason) => SupersedeSeedRefused(t, id, input, reason, env.now);
      case AdvanceSeedStatus(k, target, hash) => AdvanceRefused(t, k, target, hash);
      case RetireSeed(_, _) =>
    }
  }

  lemma ContractOpRefused(t: Tables, op: Op, env: Env)
    requires Ledger(t) && SeedOrContractOp(op) && !SeedOp(op) && ArgumentError(op).None?
    ensures ForCause(t, op, env, Apply(t, op, env))
  {
    hide LedgerInv, ArgumentError, CauseOfPropose, CauseOfProposeAndLock, CauseOfLockContract, CauseOfSupersedeContract, CauseOfRetireContract;
    hide ProposeContractSpec, ProposeAndLockSpec, LockContractSpec, SupersedeContractSpec, RetireContractSpec;
    match op {
      case ProposeContract(input) => ProposeRefused(t, input, env.now);
      case ProposeAndLockContract(input) => ProposeRefused(t, input, env.now);
      case LockContract(id, expected) => LockContractRefused(t, id, expected, env.now);
      case SupersedeContract(id, input, reason, lock) => SupersedeContractRefused(t, id, input, reason, lock, env.now);
      case RetireContract(id, reason) => RetireContractRefused(t, id, reason, env.now);
    }
  }

  lemma ArcOpRefused(t: Tables, op: Op, env: Env)
    requires Ledger(t) && ArcInv(t.arcs) && ArcsBound(t.seeds, t.arcs) && ArcOp(op) && ArgumentError(op).None?
    ensures ForCause(t, op, env, Apply(t, op, env))
  {
    hide LedgerInv, ArcInv, ArcsBound, ArgumentError, CauseOfCreateArc, CauseOfLockArc, CauseOfSupersedeArc, CauseOfRetireArc;
    hide CreateArcSpec, LockArcSpec, SupersedeArcSpec, RetireArcSpec;
    match op {
      case CreateArc(p) => CreateArcRefused(t, p);
      case LockArc(k, expected) => LockArcRefused(t, k, expected, env.now);
      case SupersedeArc(id, input, reason, lock) => SupersedeArcRefused(t, id, input, reason, lock, env.now);
      case RetireArc(k, reason) => RetireArcRefused(t, k, reason, env.now);
    }
  }

  lemma ReviewOpRefused(t: Tables, op: Op, env: Env)
    requires Ledger(t) && ReviewOp(op) && ArgumentError(op).None?
    ensures ForCause(t, op, env, Apply(t, op, env))
  {
    hide LedgerInv, ArgumentError, CauseOfRecordReview, CauseOfRecordObserved, RecordReviewSpec, RecordObservedSpec;
    match op {
      case RecordReview(p, _) => RecordReviewRefused(t, p);
      case RetireReview(_, _) =>
      case RecordObservedReview(p, _) => RecordObservedRefused(t, p, env.source);
    }
  }

  lemma QuestionOpRefused(t: Tables, op: Op, env: Env)
    requires ContractBound(t.seeds, t.contracts) && QuestionInv(t.seeds, t.questions) && QuestionOp(op) && ArgumentError(op).None?
    ensures ForCause(t, op, env, Apply(t, op, env))
  {
    hide QuestionInv, ContractBound, QuestionInputError, CauseOfOpenQuestion, AnswerDoes, OpenQuestionSpec, AnswerSpec;
    match op {
      case OpenQuestion(manifest, q, ttl) => OpenQuestionRefused(t, manifest, q, ttl, env.now);
      case AnswerQuestion(h, answer) => AnswerDecides(t, h, answer, env.now);
      case RetireExpiredQuestions(_) => hide Cleanup, CleanupCounts;
      case ClaimRuntimeRequest(_) =>
    }
  }

  lemma TransactionRefused(t: Tables, op: Op, env: Env)
    requires TablesInv(t) && ArgumentError(op).None?
    ensures ForCause(t, op, env, Apply(t, op, env))
  {
    TablesParts(t);
    hide TablesInv, LedgerInv, ArcInv, ArcsBound, QuestionInv, ContractBound, Apply, ArgumentError, ForCause;
    if SeedOp(op) { SeedOpRefused(t, op, env); }
    else if SeedOrContractOp(op) { ContractOpRefused(t, op, env); }
    else if ArcOp(op) { ArcOpRefused(t, op, env); }
    else if ReviewOp(op) { ReviewOpRefused(t, op, env); }
    else { QuestionOpRefused(t, op, env); }
  }

  /** A fresh call at the current revision that is refused is refused for what is wrong with its arguments or, if they fit, for what its transaction meets. */
  lemma FreshCallRefused(s: State, c: Call)
    requires Inv(s) && LogKeyOf(c) !in s.log && c.expected == s.control && Step(s, c).result.Err?
    ensures var e := Step(s, c).result.error;
            if ArgumentsFit(c.op) then Cause(s.tables, c.op, c.env, e) else CauseInArguments(c.op, e)
  {
    hide Inv, Apply, ArgumentsFit, ArgumentError, Cause, CauseInArguments, RequestHash;
    ArgumentsDecide(c.op);
    ArgumentsRefused(c.op);
    InvIsTablesInv(s);
    if ArgumentsFit(c.op) {
      TransactionRefused(s.tables, c.op, c.env);
      SeenIsApplied(s, c);
    }
  }
}
