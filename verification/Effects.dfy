/**
  What each operation on seeds, arcs, contracts, reviews and questions means for a caller,
  in a reachable state: exactly when it succeeds, which rows are then different, and that
  all others are as they were. The invariants make the conditions simpler than the checks.
  */
module Effects {
  import opened Basics
  import opened EventTypes
  import opened EventSpec
  import opened EventLedger
  import opened LedgerOps
  import opened QuestionMachine
  import opened ArcLedger
  import opened ReviewLedger
  import opened Manifest
  import opened Runs
  import opened Arguments

  // ----- What stays ---------------------------------------------------------------------

  /** Outside these keys two tables are the same. */
  ghost predicate SameBut<K, V>(m: map<K, V>, m': map<K, V>, ks: set<K>) {
    && (forall k :: k in m && k !in ks ==> k in m' && m'[k] == m[k])
    && (forall k :: k in m' && k !in ks ==> k in m)
  }

  /** The transaction commits, and changes at most these rows of seeds and contracts, and nothing in the other tables. */
  ghost predicate ChangesLedger(t: Tables, o: Outcome, ks: set<RowKey>, cs: set<string>) {
    && o.Ok? && o.value.tables == t.(seeds := o.value.tables.seeds, contracts := o.value.tables.contracts)
    && SameBut(t.seeds, o.value.tables.seeds, ks) && SameBut(t.contracts, o.value.tables.contracts, cs)
  }

  /** Of the contracts, exactly the active ones of this seed are retired. */
  ghost predicate ContractsOfRetired(contracts: Contracts, contracts': Contracts, k: RowKey, mark: Retirement) {
    && contracts'.Keys == contracts.Keys
    && forall c :: c in contracts ==>
         contracts'[c] == if contracts[c].payload.seed == k && contracts[c].status != Retired
                          then contracts[c].(status := Retired, retirement := Some(mark)) else contracts[c]
  }

  ghost predicate ChangesArcs(t: Tables, o: Outcome, ks: set<RowKey>) {
    o.Ok? && o.value.tables == t.(arcs := o.value.tables.arcs) && SameBut(t.arcs, o.value.tables.arcs, ks)
  }

  // ----- Seeds ----------------------------------------------------------------------------

  ghost predicate LiveSeed(seeds: Seeds, k: RowKey) { k in seeds && seeds[k].status != SeedRetired }

  /** A live seed of another id sits at this place. */
  ghost predicate TakenByOther(seeds: Seeds, id: string, chain: string, order: nat) {
    exists k :: LiveSeed(seeds, k) && k.id != id && seeds[k].payload.context.chain == chain && seeds[k].payload.order == order
  }

  ghost predicate KnownId(keys: set<RowKey>, id: string) { exists k :: k in keys && k.id == id }

  /** The row of a fresh seed: seeded and bound to nothing. */
  ghost predicate FreshSeed(seeds: Seeds, k: RowKey, p: SeedPayload, supersedes: Option<nat>) {
    k in seeds && seeds[k] == SeedRow(p, Sha256(OfSeed(p)), Seeded, None, None, supersedes, None)
  }

  /** No live seed sits at this place. */
  ghost predicate PlaceFree(seeds: Seeds, chain: string, order: nat) {
    forall k :: LiveSeed(seeds, k) ==> !(seeds[k].payload.context.chain == chain && seeds[k].payload.order == order)
  }

  /** One fresh seed is new, and answered. */
  ghost predicate SeedCreated(t: Tables, o: Outcome, p: SeedPayload) {
    && ChangesLedger(t, o, {p.Key()}, {}) && p.Key() == RowKey(p.id, p.rev) && FreshSeed(o.value.tables.seeds, p.Key(), p, None)
    && o.value.body == SeedBody(o.value.tables.seeds[p.Key()], None)
  }

  /** A seed is created exactly when its id was never used and its place is free. */
  lemma CreateSeedEffect(t: Tables, p: SeedPayload)
    requires Ledger(t) && p.rev == 1
    ensures var o := CreateSeedSpec(t, p);
            && (o.Ok? <==> !KnownId(t.seeds.Keys, p.id) && PlaceFree(t.seeds, p.context.chain, p.order))
            && (o.Ok? ==> SeedCreated(t, o, p))
  {
    if KnownId(t.seeds.Keys, p.id) { FirstRevisionExists(t.seeds, p.id); }
  }

  lemma FirstRevisionExists(seeds: Seeds, id: string)
    requires SeedShape(seeds) && SeedLineage(seeds) && KnownId(seeds.Keys, id)
    ensures RowKey(id, 1) in seeds
  {
    var k :| k in seeds.Keys && k.id == id;
    if k.rev > 1 { assert RetiredSeed(seeds, RowKey(k.id, 1)); }
  }

  /** The live revision of a seed is its latest. */
  lemma LiveSeedIsLatest(seeds: Seeds, k: RowKey)
    requires SeedShape(seeds) && SeedLineage(seeds) && LiveSeed(seeds, k)
    ensures Latest(seeds.Keys, k.id) == Some(k.rev)
  {
    var rev := Latest(seeds.Keys, k.id).value;
    assert RowKey(k.id, rev) in seeds.Keys;
    assert 1 <= k.rev < rev ==> RetiredSeed(seeds, RowKey(k.id, k.rev));
  }

  /** A replacement fits a live seed: it names it or nothing, stays on its chain, branch and artifact, and finds its place free. */
  ghost predicate Fits(seeds: Seeds, k: RowKey, input: SeedInput)
    requires k in seeds
  {
    var was := seeds[k].payload.context;
    && input.supersedes in {None, Some(k.rev)} && OutlineWhole(input.outline)
    && input.context.chain == was.chain && input.context.branch == was.branch && input.context.artifactId == was.artifactId
    && !TakenByOther(seeds, k.id, input.context.chain, input.order)
  }

  /** The revision is retired with its active contracts, and the next one there, seeded, and answered. */
  ghost predicate SeedReplaced(t: Tables, o: Outcome, k: RowKey, input: SeedInput, mark: Retirement)
    requires k in t.seeds
  {
    var next := RowKey(k.id, k.rev + 1);
    && ChangesLedger(t, o, {k, next}, ActiveOn(t.contracts, {k})) && k in o.value.tables.seeds
    && o.value.tables.seeds[k] == t.seeds[k].(status := SeedRetired, retirement := Some(mark))
    && FreshSeed(o.value.tables.seeds, next,
                 SeedPayload(k.id, k.rev + 1, input.context, input.order, input.outline, Some(k.rev), input.details), Some(k.rev))
    && ContractsOfRetired(t.contracts, o.value.tables.contracts, k, mark)
    && o.value.body == SeedBody(o.value.tables.seeds[next], Some(k.rev))
  }

  /** The live revision gives way to the next. */
  lemma SupersedeSeedEffect(t: Tables, k: RowKey, input: SeedInput, reason: string, now: nat)
    requires Ledger(t) && LiveSeed(t.seeds, k)
    ensures var o := SupersedeSeedSpec(t, k.id, input, reason, now);
            && (o.Ok? <==> Fits(t.seeds, k, input))
            && (o.Ok? ==> SeedReplaced(t, o, k, input, Retirement(now, reason)))
  {
    LiveSeedIsLatest(t.seeds, k);
    hide LedgerInv, SeedReplaced;
    assert Occupied(t.seeds, input.context.chain, input.order, Some(k.id)) <==> TakenByOther(t.seeds, k.id, input.context.chain, input.order);
    SeedIsReplaced(t, k, input, reason, now);
    hide Occupied, TakenByOther, Latest;
  }

  lemma SeedIsReplaced(t: Tables, k: RowKey, input: SeedInput, reason: string, now: nat)
    requires LiveSeed(t.seeds, k) && Latest(t.seeds.Keys, k.id) == Some(k.rev)
    ensures var o := SupersedeSeedSpec(t, k.id, input, reason, now);
            o.Ok? ==> SeedReplaced(t, o, k, input, Retirement(now, reason))
  {
    RetiredWithContracts(t.contracts, k, Retirement(now, reason));
    hide Occupied, Latest, RetireContractRows, ActiveOn;
  }

  lemma RetiredWithContracts(contracts: Contracts, k: RowKey, mark: Retirement)
    ensures var contracts' := RetireContractRows(contracts, ActiveOn(contracts, {k}), mark);
            ContractsOfRetired(contracts, contracts', k, mark) && SameBut(contracts, contracts', ActiveOn(contracts, {k}))
  {
  }

  /** A seed without a live revision cannot be superseded. */
  lemma OnlyLiveSeedsAreSuperseded(t: Tables, id: string, input: SeedInput, reason: string, now: nat)
    requires Ledger(t) && forall k :: LiveSeed(t.seeds, k) ==> k.id != id
    ensures SupersedeSeedSpec(t, id, input, reason, now) == Err(if KnownId(t.seeds.Keys, id) then SeedAlreadyRetired else SeedNotFound)
  {
    var latest := Latest(t.seeds.Keys, id);
    if latest.Some? { assert RowKey(id, latest.value) in t.seeds.Keys; }
  }

  /** The seed is retired with its active contracts, and answered. */
  ghost predicate SeedIsRetired(t: Tables, o: Outcome, k: RowKey, mark: Retirement)
    requires k in t.seeds
  {
    && ChangesLedger(t, o, {k}, ActiveOn(t.contracts, {k})) && k in o.value.tables.seeds
    && o.value.tables.seeds[k] == t.seeds[k].(status := SeedRetired, retirement := Some(mark))
    && ContractsOfRetired(t.contracts, o.value.tables.contracts, k, mark)
    && o.value.body == SeedBody(o.value.tables.seeds[k], None)
  }

  /** A live seed retires with its active contracts. */
  lemma RetireSeedEffect(t: Tables, k: RowKey, reason: string, now: nat)
    requires Ledger(t)
    ensures var o := RetireSeedSpec(t, k, reason, now);
            && (o.Ok? <==> LiveSeed(t.seeds, k))
            && (o.Ok? ==> SeedIsRetired(t, o, k, Retirement(now, reason)))
  {
    RetiredWithContracts(t.contracts, k, Retirement(now, reason));
  }

  /** The seed's one locked contract carries this hash. */
  ghost predicate LockedUnder(contracts: Contracts, k: RowKey, hash: Digest) {
    exists c :: LockedOn(contracts, k) == {c} && contracts[c].hash == hash
  }

  /** The two steps forward. */
  predicate StepForward(current: SeedStatus, target: SeedStatus) {
    (current == ExperienceLocked && target == Expanded) || (current == Expanded && target == Generated)
  }

  /** Nothing but the status of the seed changed, and the row is answered. */
  ghost predicate SeedAdvanced(t: Tables, o: Outcome, k: RowKey, target: SeedStatus)
    requires k in t.seeds
  {
    && ChangesLedger(t, o, {k}, {}) && k in o.value.tables.seeds && o.value.tables.seeds[k] == t.seeds[k].(status := target)
    && o.value.body == SeedBody(o.value.tables.seeds[k], None)
  }

  /** A seed advances one step at a time, under the hash of its one locked contract; nothing but its status changes. */
  lemma AdvanceSeedEffect(t: Tables, k: RowKey, target: SeedStatus, hash: Digest)
    requires Ledger(t)
    ensures var o := AdvanceSeedSpec(t, k, target, hash);
            && (o.Ok? <==> k in t.seeds && StepForward(t.seeds[k].status, target) && LockedUnder(t.contracts, k, hash))
            && (o.Ok? ==> SeedAdvanced(t, o, k, target))
  {
    if k in t.seeds {
      LockedIsUnique(t.seeds, t.contracts, k);
      BindingIsValid(t, k);
      BoundHash(t, k, hash);
      hide LedgerInv, LockedUnder, LockedOn, SeedAdvanced;
      AdvanceChanges(t, k, target, hash);
      AdvanceSucceeds(t, k, target, hash);
      hide AdvanceSeedSpec;
    }
  }

  lemma AdvanceSucceeds(t: Tables, k: RowKey, target: SeedStatus, hash: Digest)
    requires k in t.seeds && (LockedType(t.seeds[k].status) ==>
               && t.seeds[k].contractId.Some? && t.seeds[k].contractId.value in t.contracts
               && t.contracts[t.seeds[k].contractId.value].status == Locked
               && t.seeds[k].contractHash == Some(t.contracts[t.seeds[k].contractId.value].hash))
    ensures AdvanceSeedSpec(t, k, target, hash).Ok? <==> StepForward(t.seeds[k].status, target) && t.seeds[k].contractHash == Some(hash)
  {
  }

  lemma AdvanceChanges(t: Tables, k: RowKey, target: SeedStatus, hash: Digest)
    ensures var o := AdvanceSeedSpec(t, k, target, hash);
            o.Ok? ==> k in t.seeds && StepForward(t.seeds[k].status, target) && SeedAdvanced(t, o, k, target)
  {
  }

  lemma BoundHash(t: Tables, k: RowKey, hash: Digest)
    requires k in t.seeds && LockedType(t.seeds[k].status) ==> t.seeds[k].contractId.Some? && LockedOn(t.contracts, k) == {t.seeds[k].contractId.value}
    requires k in t.seeds && LockedType(t.seeds[k].status) ==>
               && t.seeds[k].contractId.value in t.contracts
               && t.seeds[k].contractHash == Some(t.contracts[t.seeds[k].contractId.value].hash)
    ensures k in t.seeds && LockedType(t.seeds[k].status) ==> (LockedUnder(t.contracts, k, hash) <==> t.seeds[k].contractHash == Some(hash))
  {
    if k in t.seeds && LockedType(t.seeds[k].status) {
      var c := t.seeds[k].contractId.value;
      assert forall d :: LockedOn(t.contracts, k) == {d} ==> d == c by {
        forall d | LockedOn(t.contracts, k) == {d} ensures d == c { assert c in {d}; }
      }
    }
  }

  // ----- Contracts --------------------------------------------------------------------------

  /** What the contract claims of its seed is so, field by field; on a field it is silent about it claims nothing. */
  predicate ClaimsAgree(claims: Claims, seed: SeedPayload) {
    && (claims.chain.Some? ==> claims.chain.value == seed.context.chain)
    && (claims.branch.Some? ==> claims.branch.value == seed.context.branch)
    && (claims.artifactId.Some? ==> claims.artifactId.value == seed.context.artifactId)
    && (claims.artifactRevision.Some? ==> claims.artifactRevision.value == seed.context.artifactRevision)
    && (claims.seedDetails.Some? ==> claims.seedDetails.value == seed.details)
  }

  /** The contract agrees with what it claims of its live seed, is its first, and uses a new id. */
  ghost predicate Proposable(t: Tables, input: ContractInput) {
    && LiveSeed(t.seeds, input.seed) && (forall c :: c in t.contracts ==> t.contracts[c].payload.seed != input.seed)
    && ClaimsAgree(input.claims, t.seeds[input.seed].payload)
    && input.rev in {None, Some(1)} && input.id !in t.contracts
  }

  /** The payload of a contract on a seed: the context and the details of the seed, the rest as the caller gave it. */
  function Drafted(input: ContractInput, k: RowKey, seed: SeedPayload, rev: nat, supersedes: string): ContractPayload {
    ContractPayload(input.id, rev, k, seed.context, seed.details, supersedes, input.intent, input.provenance, input.details)
  }

  /** Only this contract's row is new: proposed, and superseding what its caller said. */
  ghost predicate ContractProposed(t: Tables, o: Outcome, input: ContractInput)
    requires input.seed in t.seeds
  {
    var p := Drafted(input, input.seed, t.seeds[input.seed].payload, 1, input.supersedes);
    && ChangesLedger(t, o, {}, {input.id}) && input.id in o.value.tables.contracts
    && o.value.tables.contracts[input.id] ==
         ContractRow(p, Sha256(OfContract(p)), Proposed, if input.supersedes == "" then None else Some(input.supersedes), None, None)
    && o.value.body == ContractBody(o.value.tables.contracts[input.id], None)
  }

  /** A contract is proposed exactly as the first of a live seed. */
  lemma ProposeContractEffect(t: Tables, input: ContractInput, now: nat)
    requires Ledger(t)
    ensures var o := ProposeContractSpec(t, input, now);
            && (o.Ok? <==> Proposable(t, input))
            && (o.Ok? ==> ContractProposed(t, o, input))
  {
    FirstPayload(t, input);
    NoContractNoActive(t.contracts, input.seed);
    ClaimsDecide(t, input);
    NoneHasContract(t.contracts, input.seed);
    hide LedgerInv, ClaimsMatch, ClaimsAgree, HasContract, ContractProposed;
    ContractIsProposed(t, input, now);
  }

  lemma ContractIsProposed(t: Tables, input: ContractInput, now: nat)
    ensures var o := ProposeContractSpec(t, input, now); o.Ok? ==> SeedKeyed(t, input.seed) ==> ContractProposed(t, o, input)
  {
    hide ClaimsMatch, InsertRejected, HasContract;
  }

  lemma ClaimsDecide(t: Tables, input: ContractInput)
    ensures input.seed in t.seeds ==> (ClaimsMatch(input.claims, t.seeds[input.seed].payload) <==> ClaimsAgree(input.claims, t.seeds[input.seed].payload))
  {
    if input.seed in t.seeds { SeedClaims(input.claims, t.seeds[input.seed].payload); }
  }

  lemma SeedClaims(claims: Claims, seed: SeedPayload)
    ensures ClaimsMatch(claims, seed) <==> ClaimsAgree(claims, seed)
  {
  }

  lemma NoneHasContract(contracts: Contracts, k: RowKey)
    ensures HasContract(contracts, k) <==> !forall c :: c in contracts ==> contracts[c].payload.seed != k
  {
  }

  /** The seed is filed under its own key. */
  ghost predicate SeedKeyed(t: Tables, k: RowKey) { k in t.seeds && t.seeds[k].payload.Key() == k }

  lemma FirstPayload(t: Tables, input: ContractInput)
    requires Ledger(t)
    ensures input.seed in t.seeds ==> SeedKeyed(t, input.seed)
    ensures input.seed in t.seeds && ClaimsMatch(input.claims, t.seeds[input.seed].payload) ==>
              var built := ContractPayloadOf(input, t.seeds[input.seed].payload, "", None);
              built.Ok? && built.value.seed == input.seed && (built.value.rev == 1 <==> input.rev in {None, Some(1)})
  {
  }

  /** Only this contract's row is new, locked and superseding nothing; its seed is bound to it. */
  ghost predicate ContractLockedAtOnce(t: Tables, o: Outcome, input: ContractInput, now: nat)
    requires input.seed in t.seeds
  {
    var p := Drafted(input, input.seed, t.seeds[input.seed].payload, 1, input.supersedes);
    && ChangesLedger(t, o, {input.seed}, {input.id}) && BoundNow(t, o.value.tables, input.seed, input.id, now)
    && o.value.tables.contracts[input.id] == ContractRow(p, Sha256(OfContract(p)), Locked, None, Some(now), None)
    && o.value.body == ContractBody(o.value.tables.contracts[input.id], None)
  }

  /** A contract is locked at once exactly when it could be proposed and its provenance is complete. */
  lemma ProposeAndLockEffect(t: Tables, input: ContractInput, now: nat)
    requires Ledger(t)
    ensures var o := ProposeAndLockSpec(t, input, now);
            && (o.Ok? <==> Proposable(t, input) && Complete(input.provenance))
            && (o.Ok? ==> ContractLockedAtOnce(t, o, input, now))
  {
    FirstPayload(t, input);
    NoContractNoActive(t.contracts, input.seed);
    if LiveSeed(t.seeds, input.seed) && !HasContract(t.contracts, input.seed) { UnboundIsSeeded(t.seeds, t.contracts, input.seed); }
    CompleteIsLockable(input.provenance);
    ClaimsDecide(t, input);
    NoneHasContract(t.contracts, input.seed);
    hide LedgerInv, ClaimsMatch, ClaimsAgree, HasContract, MissingProvenance, EmptyProvenance, ContractLockedAtOnce, Complete;
    ContractIsLockedAtOnce(t, input, now);
  }

  lemma ContractIsLockedAtOnce(t: Tables, input: ContractInput, now: nat)
    ensures var o := ProposeAndLockSpec(t, input, now); o.Ok? ==> SeedKeyed(t, input.seed) ==> ContractLockedAtOnce(t, o, input, now)
  {
    hide ClaimsMatch, InsertRejected, HasContract, LockError;
  }

  /** Every experience field has provenance that says something. */
  ghost predicate Complete(provenance: map<ExperienceField, Evidence>) {
    forall f: ExperienceField :: f in provenance && provenance[f].Fields? && provenance[f].count > 0
  }

  lemma CompleteIsLockable(provenance: map<ExperienceField, Evidence>)
    ensures Complete(provenance) <==> !MissingProvenance(provenance) && !EmptyProvenance(provenance)
  {
  }

  /** The seed is locked to this contract, locked just now; nothing else of the seed changed. */
  ghost predicate BoundNow(t: Tables, u: Tables, k: RowKey, c: string, now: nat) {
    && k in t.seeds && k in u.seeds && c in u.contracts
    && u.contracts[c].status == Locked && u.contracts[c].lockedAt == Some(now)
    && u.seeds[k] == t.seeds[k].(status := ExperienceLocked, contractId := Some(c), contractHash := Some(u.contracts[c].hash))
  }

  /** The contract is locked, its seed bound to it, and the row answered. */
  ghost predicate ContractIsLocked(t: Tables, o: Outcome, id: string, now: nat)
    requires id in t.contracts
  {
    && ChangesLedger(t, o, {t.contracts[id].payload.seed}, {id})
    && BoundNow(t, o.value.tables, t.contracts[id].payload.seed, id, now)
    && o.value.tables.contracts[id] == t.contracts[id].(status := Locked, lockedAt := Some(now))
    && o.value.body == ContractBody(o.value.tables.contracts[id], None)
  }

  /** A proposed contract is locked exactly under its hash and with complete provenance: its seed never stands in the way. */
  lemma LockContractEffect(t: Tables, id: string, expected: Option<Digest>, now: nat)
    requires Ledger(t)
    ensures var o := LockContractSpec(t, id, expected, now);
            && (o.Ok? <==> && id in t.contracts && t.contracts[id].status == Proposed
                           && expected in {None, Some(t.contracts[id].hash)} && Complete(t.contracts[id].payload.provenance))
            && (o.Ok? ==> ContractIsLocked(t, o, id, now))
  {
    if id in t.contracts {
      ContractHasItsSeed(t, id);
      CompleteIsLockable(t.contracts[id].payload.provenance);
      hide LedgerInv, Complete;
      LockContractSucceeds(t, id, expected, now);
      LockContractBinds(t, id, expected, now);
      hide LockContractSpec, ContractIsLocked;
    }
  }

  lemma LockContractSucceeds(t: Tables, id: string, expected: Option<Digest>, now: nat)
    requires id in t.contracts && (t.contracts[id].status == Proposed ==>
               t.contracts[id].payload.seed in t.seeds && t.seeds[t.contracts[id].payload.seed].status == Seeded)
    ensures LockContractSpec(t, id, expected, now).Ok? <==>
              && t.contracts[id].status == Proposed && expected in {None, Some(t.contracts[id].hash)}
              && !MissingProvenance(t.contracts[id].payload.provenance) && !EmptyProvenance(t.contracts[id].payload.provenance)
  {
    hide MissingProvenance, EmptyProvenance;
  }

  lemma LockContractBinds(t: Tables, id: string, expected: Option<Digest>, now: nat)
    ensures var o := LockContractSpec(t, id, expected, now);
            o.Ok? ==> id in t.contracts && ContractIsLocked(t, o, id, now)
  {
    hide LockError;
  }

  /** The contract is retired, its seed seeded again, and closed: it never gets another contract. */
  ghost predicate ContractRetired(t: Tables, o: Outcome, id: string, mark: Retirement)
    requires id in t.contracts && t.contracts[id].payload.seed in t.seeds
  {
    var k := t.contracts[id].payload.seed;
    && ChangesLedger(t, o, {k}, {id}) && id in o.value.tables.contracts && k in o.value.tables.seeds
    && o.value.tables.contracts[id] == t.contracts[id].(status := Retired, retirement := Some(mark))
    && o.value.tables.seeds[k] == t.seeds[k].(status := Seeded, contractId := None, contractHash := None)
    && o.value.body == ContractBody(o.value.tables.contracts[id], None)
    && Closed(o.value.tables.contracts, k)
  }

  /** An active contract is retired exactly while its seed is not expanded; its seed revision is closed from then on. */
  lemma RetireContractEffect(t: Tables, id: string, reason: string, now: nat)
    requires Ledger(t)
    ensures var o := RetireContractSpec(t, id, reason, now);
            && (o.Ok? <==> && id in t.contracts && Active(t.contracts[id].status)
                           && t.contracts[id].payload.seed in t.seeds
                           && t.seeds[t.contracts[id].payload.seed].status !in {Expanded, Generated})
            && (o.Ok? ==> ContractRetired(t, o, id, Retirement(now, reason)))
  {
    if id in t.contracts {
      ContractHasItsSeed(t, id);
      RetireContractSucceeds(t, id, reason, now);
      if RetireContractSpec(t, id, reason, now).Ok? { RetireContractCloses(t, id, reason, now); }
      hide LedgerInv, RetireContractSpec, ContractRetired;
    }
  }

  lemma RetireContractSucceeds(t: Tables, id: string, reason: string, now: nat)
    requires id in t.contracts && t.contracts[id].payload.seed in t.seeds
    ensures RetireContractSpec(t, id, reason, now).Ok? <==>
              Active(t.contracts[id].status) && t.seeds[t.contracts[id].payload.seed].status !in {Expanded, Generated}
  {
  }

  lemma RetireContractCloses(t: Tables, id: string, reason: string, now: nat)
    requires Ledger(t) && RetireContractSpec(t, id, reason, now).Ok?
    ensures ContractRetired(t, RetireContractSpec(t, id, reason, now), id, Retirement(now, reason))
  {
    var mark := Retirement(now, reason);
    RetireContractStep(t.seeds, t.contracts, id, mark);
    ClosedByRetiring(t.contracts, id, mark);
    ContractHasItsSeed(t, id);
    hide LedgerInv, Closed, Evolves;
    RetireContractReleases(t, id, reason, now);
  }

  /** Whether or not the seed names the contract, it is left seeded and unbound. */
  lemma RetireContractReleases(t: Tables, id: string, reason: string, now: nat)
    requires RetireContractSpec(t, id, reason, now).Ok? && id in t.contracts && t.contracts[id].payload.seed in t.seeds
    requires var k, contracts' := t.contracts[id].payload.seed, RetireContractRows(t.contracts, {id}, Retirement(now, reason));
             && (t.seeds[k].contractId != Some(id) ==> Released(t.seeds, k) == t.seeds)
             && Closed(contracts', k) && SameBut(t.contracts, contracts', {id})
    ensures ContractRetired(t, RetireContractSpec(t, id, reason, now), id, Retirement(now, reason))
  {
    hide Closed;
    var k := t.contracts[id].payload.seed;
    assert SameBut(t.seeds, Released(t.seeds, k), {k});
    assert Released(t.seeds, k)[k] == UnbindSeed(t.seeds[k]);
  }

  lemma ClosedByRetiring(contracts: Contracts, c: string, mark: Retirement)
    requires ContractOrder(contracts) && c in contracts && Active(contracts[c].status)
    ensures Closed(RetireContractRows(contracts, {c}, mark), contracts[c].payload.seed)
    ensures SameBut(contracts, RetireContractRows(contracts, {c}, mark), {c})
  {
    OthersRetired(contracts, c);
    assert c in RetireContractRows(contracts, {c}, mark);
  }

  /** A replacement fits an active contract while its seed is not expanded: it agrees with that seed, and its id is new. */
  ghost predicate ContractFits(t: Tables, id: string, input: ContractInput, lock: bool)
    requires id in t.contracts && t.contracts[id].payload.seed in t.seeds
  {
    var seed := t.seeds[t.contracts[id].payload.seed];
    && seed.status !in {Expanded, Generated} && ClaimsAgree(input.claims, seed.payload)
    && input.supersedes in {"", id} && input.rev in {None, Some(t.contracts[id].payload.rev + 1)}
    && (lock ==> Complete(input.provenance)) && input.id !in t.contracts
  }

  /** The contract is retired, the next one there, and the seed bound to it or, if it is only proposed, to nothing. */
  ghost predicate ContractReplaced(t: Tables, o: Outcome, id: string, input: ContractInput, lock: bool, mark: Retirement)
    requires id in t.contracts && t.contracts[id].payload.seed in t.seeds
  {
    var k := t.contracts[id].payload.seed;
    var p := Drafted(input, k, t.seeds[k].payload, t.contracts[id].payload.rev + 1, id);
    && ChangesLedger(t, o, {k}, {id, input.id})
    && id in o.value.tables.contracts && input.id in o.value.tables.contracts && k in o.value.tables.seeds
    && o.value.tables.contracts[id] == t.contracts[id].(status := Retired, retirement := Some(mark))
    && o.value.tables.contracts[input.id] ==
         ContractRow(p, Sha256(OfContract(p)), if lock then Locked else Proposed, Some(id), if lock then Some(mark.at) else None, None)
    && o.value.body == ContractBody(o.value.tables.contracts[input.id], Some(id))
    && if lock then BoundNow(t, o.value.tables, k, input.id, mark.at)
       else o.value.tables.seeds[k] == t.seeds[k].(status := Seeded, contractId := None, contractHash := None)
  }

  /** Exactly an active contract of a seed not yet expanded gives way to a replacement that fits it. */
  lemma SupersedeContractEffect(t: Tables, id: string, input: ContractInput, reason: string, lock: bool, now: nat)
    requires Ledger(t)
    ensures var o := SupersedeContractSpec(t, id, input, reason, lock, now);
            && (o.Ok? <==> && id in t.contracts && Active(t.contracts[id].status)
                           && t.contracts[id].payload.seed in t.seeds && ContractFits(t, id, input, lock))
            && (o.Ok? ==> ContractReplaced(t, o, id, input, lock, Retirement(now, reason)))
  {
    if id in t.contracts && Active(t.contracts[id].status) {
      ContractHasItsSeed(t, id);
      ActiveMeansLive(t.seeds, t.contracts, id);
      NoneActiveAfterRetiring(t.contracts, id, Retirement(now, reason));
      CompleteIsLockable(input.provenance);
      hide LedgerInv, ContractFits, ContractReplaced, ClaimsMatch, MissingProvenance, EmptyProvenance, Complete, ActiveOn, RetireContractRows;
      SupersedeContractSucceeds(t, id, input, reason, lock, now);
      SupersedeContractReplaces(t, id, input, reason, lock, now);
      hide SupersedeContractSpec;
    }
  }

  /** An active contract is filed under its own id, and its seed is live under its own key. */
  lemma ActiveMeansLive(seeds: Seeds, contracts: Contracts, id: string)
    requires SeedShape(seeds) && ContractShape(seeds, contracts) && ContractBound(seeds, contracts)
    requires id in contracts && Active(contracts[id].status)
    ensures contracts[id].payload.id == id
    ensures LiveSeed(seeds, contracts[id].payload.seed) && seeds[contracts[id].payload.seed].payload.Key() == contracts[id].payload.seed
  {
  }

  lemma SupersedeContractSucceeds(t: Tables, id: string, input: ContractInput, reason: string, lock: bool, now: nat)
    requires id in t.contracts && Active(t.contracts[id].status) && t.contracts[id].payload.id == id
    requires SeedKeyed(t, t.contracts[id].payload.seed) && LiveSeed(t.seeds, t.contracts[id].payload.seed)
    requires ActiveOn(RetireContractRows(t.contracts, {id}, Retirement(now, reason)), {t.contracts[id].payload.seed}) == {}
    requires Complete(input.provenance) <==> !MissingProvenance(input.provenance) && !EmptyProvenance(input.provenance)
    ensures SupersedeContractSpec(t, id, input, reason, lock, now).Ok? <==> ContractFits(t, id, input, lock)
  {
    SeedClaims(input.claims, t.seeds[t.contracts[id].payload.seed].payload);
    hide ClaimsMatch, ClaimsAgree, MissingProvenance, EmptyProvenance, Complete, ActiveOn;
  }

  lemma SupersedeContractReplaces(t: Tables, id: string, input: ContractInput, reason: string, lock: bool, now: nat)
    requires id in t.contracts && t.contracts[id].payload.id == id && SeedKeyed(t, t.contracts[id].payload.seed)
    ensures var o := SupersedeContractSpec(t, id, input, reason, lock, now);
            o.Ok? ==> ContractReplaced(t, o, id, input, lock, Retirement(now, reason))
  {
    hide ClaimsMatch, InsertRejected, LockError;
  }

  // ----- Arcs -----------------------------------------------------------------------------------

  /** The bindings of an arc name the live revisions of its seeds, in order. */
  ghost predicate BoundLive(seeds: Seeds, row: ArcRow) {
    && |row.bindings| == |row.payload.seedIds|
    && forall i :: 0 <= i < |row.bindings| ==>
         LiveIn(seeds, row.bindings[i].key, row.payload.seedIds[i], row.payload.context)
         && BoundTo(seeds, row.bindings[i], row.payload.context)
  }

  /** One arc is new, proposed and bound to live seeds, and answered. */
  ghost predicate ArcCreated(t: Tables, o: Outcome, p: ArcPayload) {
    && ChangesArcs(t, o, {p.Key()}) && p.Key() == RowKey(p.id, p.rev) && p.Key() in o.value.tables.arcs
    && o.value.body == ArcBody(o.value.tables.arcs[p.Key()], None)
    && var row := o.value.tables.arcs[p.Key()];
       row == ArcRow(p, row.bindings, Sha256(OfArc(p, row.bindings)), Proposed, None, None, None) && BoundLive(t.seeds, row)
  }

  /** An arc is created exactly when its id is new, its seeds are live in its context, and no arc is active there. */
  lemma CreateArcEffect(t: Tables, p: ArcPayload)
    requires Ledger(t) && ArcInv(t.arcs) && p.rev == 1
    ensures var o := CreateArcSpec(t, p);
            && (o.Ok? <==> && !KnownId(t.arcs.Keys, p.id) && AllLive(t.seeds, p.seedIds, p.context)
                           && forall k :: k in t.arcs && Active(t.arcs[k].status) ==> t.arcs[k].payload.context != p.context)
            && (o.Ok? ==> ArcCreated(t, o, p))
  {
    BindsLiveSeeds(t.seeds, p.seedIds, p.context);
    if KnownId(t.arcs.Keys, p.id) { FirstArcExists(t.arcs, p.id); }
    hide BindArcSeeds, LedgerInv, AllLive;
  }

  lemma FirstArcExists(arcs: Arcs, id: string)
    requires ArcInv(arcs) && KnownId(arcs.Keys, id)
    ensures RowKey(id, 1) in arcs
  {
    var k :| k in arcs.Keys && k.id == id;
    if k.rev > 1 { assert RetiredArc(arcs, RowKey(k.id, 1)); }
  }

  /** This arc's row is now this one, and answered. */
  ghost predicate ArcChanged(t: Tables, o: Outcome, k: RowKey, row: ArcRow) {
    ChangesArcs(t, o, {k}) && k in o.value.tables.arcs && o.value.tables.arcs[k] == row && o.value.body == ArcBody(row, None)
  }

  /** A proposed arc is locked exactly under its hash and while none of the seeds it names has retired. */
  lemma LockArcEffect(t: Tables, k: RowKey, expected: Option<Digest>, now: nat)
    requires ArcInv(t.arcs) && ArcsBound(t.seeds, t.arcs)
    ensures var o := LockArcSpec(t, k, expected, now);
            && (o.Ok? <==> && k in t.arcs && t.arcs[k].status == Proposed && expected in {None, Some(t.arcs[k].hash)}
                           && forall b :: b in t.arcs[k].bindings ==> LiveSeed(t.seeds, b.key))
            && (o.Ok? ==> ArcChanged(t, o, k, t.arcs[k].(status := Locked, lockedAt := Some(now))))
  {
    if k in t.arcs {
      var row := t.arcs[k];
      OnlyStaleBindings(t.seeds, row.payload.seedIds, row.bindings, row.payload.context.chain);
      FreshIsLive(t.seeds, row);
    }
    hide ArcBindingError, BindingFresh;
  }

  lemma FreshIsLive(seeds: Seeds, row: ArcRow)
    requires BoundIn(seeds, row)
    ensures (forall b :: b in row.bindings ==> BindingFresh(seeds, b, row.payload.context.chain))
            <==> forall b :: b in row.bindings ==> LiveSeed(seeds, b.key)
  {
    forall b | b in row.bindings ensures BindingFresh(seeds, b, row.payload.context.chain) <==> LiveSeed(seeds, b.key) {
      var i :| 0 <= i < |row.bindings| && row.bindings[i] == b;
      assert BoundTo(seeds, row.bindings[i], row.payload.context);
    }
  }

  lemma ActiveArcIsLatest(arcs: Arcs, k: RowKey)
    requires ArcInv(arcs) && k in arcs && Active(arcs[k].status)
    ensures Latest(arcs.Keys, k.id) == Some(k.rev)
    ensures forall j :: j in arcs && j.id == k.id ==> j.rev <= k.rev
  {
    forall j | j in arcs && j.id == k.id ensures j.rev <= k.rev {
      assert 1 <= k.rev < j.rev ==> RetiredArc(arcs, RowKey(j.id, k.rev));
    }
    var rev := Latest(arcs.Keys, k.id).value;
    assert RowKey(k.id, rev) in arcs.Keys;
  }

  /** A replacement fits an active arc: it names it or nothing, stays on its chain, and lists distinct seeds live in its own context. */
  ghost predicate ArcFits(t: Tables, k: RowKey, input: ArcInput)
    requires k in t.arcs
  {
    && input.supersedes in {None, Some(k.rev)} && ArcSeedsFit(input.seedIds)
    && input.context.chain == t.arcs[k].payload.context.chain && AllLive(t.seeds, input.seedIds, input.context)
  }

  /** The revision is retired, and the next one there, bound to live seeds. */
  ghost predicate ArcReplaced(t: Tables, o: Outcome, k: RowKey, input: ArcInput, lock: bool, mark: Retirement)
    requires k in t.arcs
  {
    var next := RowKey(k.id, k.rev + 1);
    && ChangesArcs(t, o, {k, next}) && k in o.value.tables.arcs && next in o.value.tables.arcs
    && o.value.tables.arcs[k] == t.arcs[k].(status := Retired, retirement := Some(mark))
    && var row := o.value.tables.arcs[next];
       var p := ArcPayload(k.id, k.rev + 1, input.context, input.seedIds, Some(k.rev), input.details);
       && row == ArcRow(p, row.bindings, Sha256(OfArc(p, row.bindings)), if lock then Locked else Proposed,
                        Some(k.rev), if lock then Some(mark.at) else None, None)
       && BoundLive(t.seeds, row) && o.value.body == ArcBody(row, Some(k.rev))
  }

  /** The active revision gives way to the next, bound anew. */
  lemma SupersedeArcEffect(t: Tables, k: RowKey, input: ArcInput, reason: string, lock: bool, now: nat)
    requires Ledger(t) && ArcInv(t.arcs) && k in t.arcs && Active(t.arcs[k].status)
    ensures var o := SupersedeArcSpec(t, k.id, input, reason, lock, now);
            && (o.Ok? <==> ArcFits(t, k, input))
            && (o.Ok? ==> ArcReplaced(t, o, k, input, lock, Retirement(now, reason)))
  {
    ActiveArcIsLatest(t.arcs, k);
    BindsLiveSeeds(t.seeds, input.seedIds, input.context);
    hide LedgerInv, ArcInv;
    SupersedeArcSucceeds(t, k, input, reason, lock, now);
    SupersedeArcReplaces(t, k, input, reason, lock, now);
    hide SupersedeArcSpec, ArcFits, ArcReplaced, BindArcSeeds, AllLive;
  }

  lemma SupersedeArcSucceeds(t: Tables, k: RowKey, input: ArcInput, reason: string, lock: bool, now: nat)
    requires k in t.arcs && Active(t.arcs[k].status) && Latest(t.arcs.Keys, k.id) == Some(k.rev)
    requires BindArcSeeds(t.seeds, input.seedIds, input.context).Ok? <==> AllLive(t.seeds, input.seedIds, input.context)
    ensures SupersedeArcSpec(t, k.id, input, reason, lock, now).Ok? <==> ArcFits(t, k, input)
  {
    ArcSeedsDecide(input.seedIds);
    hide BindArcSeeds, AllLive, ArcInputError, ArcSeedsFit, Latest, RetireArcRows;
  }

  lemma ArcSeedsDecide(ids: seq<string>)
    ensures ArcInputError(ids).None? <==> ArcSeedsFit(ids)
  {
  }

  lemma SupersedeArcReplaces(t: Tables, k: RowKey, input: ArcInput, reason: string, lock: bool, now: nat)
    requires k in t.arcs && Active(t.arcs[k].status) && Latest(t.arcs.Keys, k.id) == Some(k.rev)
    requires var bound := BindArcSeeds(t.seeds, input.seedIds, input.context);
             bound.Ok? ==>
               && |bound.value| == |input.seedIds|
               && forall i :: 0 <= i < |input.seedIds| ==>
                    LiveIn(t.seeds, bound.value[i].key, input.seedIds[i], input.context) && BoundTo(t.seeds, bound.value[i], input.context)
    ensures var o := SupersedeArcSpec(t, k.id, input, reason, lock, now);
            o.Ok? ==> ArcReplaced(t, o, k, input, lock, Retirement(now, reason))
  {
    hide BindArcSeeds, ArcInputError, Latest, LiveIn, BoundTo;
    var o := SupersedeArcSpec(t, k.id, input, reason, lock, now);
    if o.Ok? { assert SameBut(t.arcs, RetireArcRows(t.arcs, {k}, Retirement(now, reason)), {k}); }
  }

  /** Any active arc can be retired: being the latest revision is no further condition. */
  lemma RetireArcEffect(t: Tables, k: RowKey, reason: string, now: nat)
    requires ArcInv(t.arcs)
    ensures var o := RetireArcSpec(t, k, reason, now);
            && (o.Ok? <==> k in t.arcs && Active(t.arcs[k].status))
            && (o.Ok? ==> ArcChanged(t, o, k, t.arcs[k].(status := Retired, retirement := Some(Retirement(now, reason)))))
  {
    if k in t.arcs && Active(t.arcs[k].status) { ActiveArcIsLatest(t.arcs, k); }
  }

  // ----- Reviews and questions -----------------------------------------------------------------------

  /** The review a payload supersedes, if it names one, is recorded and of the same evidence, one revision earlier. */
  ghost predicate InLine(reviews: ReviewTable, p: ReviewPayload) {
    if p.supersedes == "" then p.rev == 1
    else p.supersedes in reviews && reviews[p.supersedes].status == Recorded && Continues(reviews[p.supersedes].(status := Superseded), p)
  }

  /** The review's row is new and recorded; the review it supersedes, if any, is marked so. */
  ghost predicate ReviewRecorded(t: Tables, o: Outcome, p: ReviewPayload) {
    && o.Ok? && o.value.tables == t.(reviews := o.value.tables.reviews)
    && SameBut(t.reviews, o.value.tables.reviews, {p.id} + if p.supersedes == "" then {} else {p.supersedes})
    && p.id in o.value.tables.reviews
    && o.value.tables.reviews[p.id] == ReviewRow(p, Sha256(OfReview(p)), Recorded, None)
    && o.value.body == ReviewBody(o.value.tables.reviews[p.id])
    && (p.supersedes != "" ==>
          && p.supersedes in t.reviews && p.supersedes in o.value.tables.reviews
          && o.value.tables.reviews[p.supersedes] == t.reviews[p.supersedes].(status := Superseded))
  }

  /** A review is recorded exactly under a new id, of a contract that was locked, even if it is retired by now, and in line. */
  lemma RecordReviewEffect(t: Tables, p: ReviewPayload)
    requires Ledger(t)
    ensures var o := RecordReviewSpec(t, p);
            && (o.Ok? <==> Grounded(t.contracts, p) && InLine(t.reviews, p) && p.id !in t.reviews)
            && (o.Ok? ==> ReviewRecorded(t, o, p))
  {
    hide LedgerInv, RecordReviewSpec, Grounded, InLine, ReviewRecorded;
    ProposedWasNeverLocked(t, p.contractId);
    RecordReviewSucceeds(t, p);
    ReviewIsRecorded(t, p);
  }

  lemma ProposedWasNeverLocked(t: Tables, id: string)
    requires Ledger(t)
    ensures id in t.contracts && t.contracts[id].status == Proposed ==> t.contracts[id].lockedAt.None?
  {
  }

  lemma RecordReviewSucceeds(t: Tables, p: ReviewPayload)
    requires p.contractId in t.contracts && t.contracts[p.contractId].status == Proposed ==> t.contracts[p.contractId].lockedAt.None?
    ensures RecordReviewSpec(t, p).Ok? <==> Grounded(t.contracts, p) && InLine(t.reviews, p) && p.id !in t.reviews
  {
  }

  lemma ReviewIsRecorded(t: Tables, p: ReviewPayload)
    ensures var o := RecordReviewSpec(t, p); o.Ok? ==> ReviewRecorded(t, o, p)
  {
  }

  /** The source the review read is accepted, and as the review says. */
  ghost predicate SourceStands(source: Option<AcceptedSource>, p: ObservedPayload) {
    source == Some(AcceptedSource(true, p.artifactId, p.branch, p.artifactRevision, p.sourceHash))
  }

  ghost predicate ObservedInLine(observed: ObservedTable, p: ObservedPayload) {
    if p.supersedes == "" then p.rev == 1
    else
      && p.supersedes in observed && observed[p.supersedes].status == Recorded
      && var previous := observed[p.supersedes].payload;
         && p.rev == previous.rev + 1 && p.artifactId == previous.artifactId && p.artifactRevision == previous.artifactRevision
         && p.branch == previous.branch && p.sourceCommit == previous.sourceCommit && p.sourceHash == previous.sourceHash
         && p.assistantHash == previous.assistantHash
  }

  ghost predicate ObservedRecorded(t: Tables, o: Outcome, p: ObservedPayload) {
    && o.Ok? && o.value.tables == t.(observed := o.value.tables.observed)
    && SameBut(t.observed, o.value.tables.observed, {p.id} + if p.supersedes == "" then {} else {p.supersedes})
    && p.id in o.value.tables.observed
    && o.value.tables.observed[p.id] == ObservedRow(p, Sha256(OfObservedReview(p)), Recorded)
    && o.value.body == ObservedBody(o.value.tables.observed[p.id])
    && (p.supersedes != "" ==>
          && p.supersedes in t.observed && p.supersedes in o.value.tables.observed
          && o.value.tables.observed[p.supersedes] == t.observed[p.supersedes].(status := Superseded))
  }

  /** An observed review is recorded exactly under a new id, of a source that stands, and in line. */
  lemma RecordObservedEffect(t: Tables, p: ObservedPayload, source: Option<AcceptedSource>)
    ensures var o := RecordObservedSpec(t, p, source);
            && (o.Ok? <==> SourceStands(source, p) && ObservedInLine(t.observed, p) && p.id !in t.observed)
            && (o.Ok? ==> ObservedRecorded(t, o, p))
  {
    hide ObservedRecorded;
    ObservedIsRecorded(t, p, source);
  }

  lemma ObservedIsRecorded(t: Tables, p: ObservedPayload, source: Option<AcceptedSource>)
    ensures var o := RecordObservedSpec(t, p, source); o.Ok? ==> ObservedRecorded(t, o, p)
  {
    hide SameObservedLineage;
  }

  /** The review is retired, and answered. */
  ghost predicate ReviewIsRetired(t: Tables, o: Outcome, id: string, mark: Retirement)
    requires id in t.reviews
  {
    var row := t.reviews[id].(status := ReviewRetired, retirement := Some(mark));
    o.Ok? && o.value.tables == t.(reviews := t.reviews[id := row]) && o.value.body == ReviewBody(row)
  }

  lemma RetireReviewEffect(t: Tables, id: string, reason: string, now: nat)
    ensures var o := RetireReviewSpec(t, id, reason, now);
            && (o.Ok? <==> id in t.reviews && t.reviews[id].status == Recorded)
            && (o.Ok? ==> ReviewIsRetired(t, o, id, Retirement(now, reason)))
  {
  }

  /** A recorded review is retired for good: on no later run does its row change again. */
  lemma RetiredReviewsStay(s: State, c: Call, id: string, reason: string, calls: seq<Call>)
    requires Inv(s) && c.op == RetireReview(id, reason) && Committed(s, c)
    ensures id in s.tables.reviews && s.tables.reviews[id].status == Recorded
    ensures var later := Run(Step(s, c).state, calls).tables.reviews;
            id in later && later[id] == s.tables.reviews[id].(status := ReviewRetired, retirement := Some(Retirement(c.env.now, reason)))
  {
    assert Apply(s.tables, c.op, c.env) == RetireReviewSpec(s.tables, id, reason, c.env.now) by { hide RetireReviewSpec; }
    RetireReviewEffect(s.tables, id, reason, c.env.now);
    hide Apply, RetireReviewSpec;
    StepCommits(s, c);
    StepKeeps(s, c);
    hide Inv;
    ReviewsAreImmutable(Step(s, c).state, calls, id);
  }

  /** A seed a question may be about: seeded, and without a contract that could still be locked. */
  ghost predicate Askable(t: Tables, k: RowKey) { k in t.seeds && t.seeds[k].status == Seeded && ActiveOn(t.contracts, {k}) == {} }

  /** The question's row is new, open and about the entries of the manifest, and it is answered; the recommended id is spelled as its option spells it. */
  ghost predicate QuestionStored(t: Tables, o: Outcome, manifest: SeedManifest, q: QuestionInput, expiresAt: nat) {
    var h, entries := Sha256(OfSeedManifest(manifest)), manifest.entries;
    && o.Ok? && o.value.tables == t.(questions := o.value.tables.questions)
    && SameBut(t.questions, o.value.tables.questions, {h}) && h in o.value.tables.questions
    && var row := o.value.tables.questions[h];
       var p := row.payload;
       && o.value.body == AskBody(row)
       && row == QuestionRow(p, Sha256(OfQuestion(p)), AwaitingAnswer, 0, None, None, expiresAt)
       && p == QuestionPayload(h, q.text, q.options, p.recommended, q.rationale, p.bindings)
       && (exists i :: Recommends(q, i) && p.recommended == q.options[i].id)
       && |p.bindings| == |entries| && forall i :: 0 <= i < |entries| ==> p.bindings[i] == SeedBinding(entries[i].key, entries[i].seedHash)
  }

  /** The seeds of these entries are askable, and are what the entries say. */
  ghost predicate EntriesAskable(t: Tables, entries: seq<SeedEntry>) {
    forall e :: e in entries ==> Askable(t, e.key) && t.seeds[e.key].hash == e.seedHash
  }

  /** A question is opened exactly when the seeds of its manifest are askable and the manifest never had one. */
  lemma OpenQuestionDecides(t: Tables, manifest: SeedManifest, q: QuestionInput, ttl: nat, now: nat)
    requires QuestionInputError(CaseFold, q).None?
    ensures var o := OpenQuestionSpec(t, manifest, q, ttl, now);
            && (o.Ok? <==> EntriesAskable(t, manifest.entries) && Sha256(OfSeedManifest(manifest)) !in t.questions)
            && (o.Ok? ==> QuestionStored(t, o, manifest, q, now + ttl))
  {
    hide SeedManifestOf, QuestionBindingError, QuestionInputError, RecommendedId, BindingsOf, Askable, EntriesAskable, QuestionStored;
    BindingsAskable(t, BindingsOf(manifest.entries));
    EntriesOfBindings(t, manifest.entries);
    QuestionIsStored(t, manifest, q, ttl, now);
  }

  lemma EntriesOfBindings(t: Tables, entries: seq<SeedEntry>)
    ensures EntriesAskable(t, entries) <==> forall b :: b in BindingsOf(entries) ==> Askable(t, b.key) && t.seeds[b.key].hash == b.hash
  {
    hide Askable;
    forall e | e in entries ensures SeedBinding(e.key, e.seedHash) in BindingsOf(entries) {
      var i :| 0 <= i < |entries| && entries[i] == e;
      assert BindingsOf(entries)[i] == SeedBinding(e.key, e.seedHash);
    }
    forall b | b in BindingsOf(entries) ensures exists e :: e in entries && b == SeedBinding(e.key, e.seedHash) {
      var i :| 0 <= i < |entries| && BindingsOf(entries)[i] == b;
      assert entries[i] in entries;
    }
  }

  lemma QuestionIsStored(t: Tables, manifest: SeedManifest, q: QuestionInput, ttl: nat, now: nat)
    requires QuestionInputError(CaseFold, q).None?
    ensures var o := OpenQuestionSpec(t, manifest, q, ttl, now); o.Ok? ==> QuestionStored(t, o, manifest, q, now + ttl)
  {
    QuestionChecksDecide(q);
    var i :| Recommends(q, i);
    hide QuestionBindingError, QuestionInputError, QuestionFits, RecommendedId;
  }

  /** Asked about seeds that were read: it is opened exactly when all of them are askable and their manifest never had a question; it is about exactly these. */
  lemma OpenQuestionEffect(t: Tables, refs: seq<RowKey>, manifest: SeedManifest, q: QuestionInput, ttl: nat, now: nat)
    requires SeedManifestOf(t.seeds, refs) == Ok(manifest) && QuestionInputError(CaseFold, q).None?
    ensures var o := OpenQuestionSpec(t, manifest, q, ttl, now);
            var h := Sha256(OfSeedManifest(manifest));
            && (o.Ok? <==> (forall k :: k in refs ==> Askable(t, k)) && h !in t.questions)
            && (o.Ok? ==> QuestionStored(t, o, manifest, q, now + ttl)
                          && (set b | b in o.value.tables.questions[h].payload.bindings :: b.key) == (set k | k in refs))
  {
    hide SeedManifestOf, QuestionBindingError, QuestionInputError, RecommendedId, Askable;
    ManifestNames(t.seeds, refs, manifest);
    KeysOfBindings(manifest.entries, refs);
    AskableDecides(t, refs, manifest.entries);
    OpenQuestionDecides(t, manifest, q, ttl, now);
    hide EntriesAskable, Recommends;
  }

  lemma AskableDecides(t: Tables, refs: seq<RowKey>, entries: seq<SeedEntry>)
    requires forall e :: e in entries ==> e.key in refs && e.key in t.seeds && e.seedHash == t.seeds[e.key].hash
    requires forall k :: k in refs ==> exists e :: e in entries && e.key == k
    ensures EntriesAskable(t, entries) <==> forall k :: k in refs ==> Askable(t, k)
  {
    hide Askable;
  }

  /** The entries of a seed manifest are those of its references. */
  lemma ManifestNames(seeds: Seeds, refs: seq<RowKey>, manifest: SeedManifest)
    requires SeedManifestOf(seeds, refs) == Ok(manifest)
    ensures forall e :: e in manifest.entries ==> e.key in refs && e.key in seeds && e.seedHash == seeds[e.key].hash
    ensures forall k :: k in refs ==> exists e :: e in manifest.entries && e.key == k
  {
    EntriesName(seeds, refs);
  }

  lemma {:induction false} EntriesName(seeds: Seeds, refs: seq<RowKey>)
    ensures SeedEntries(seeds, refs).Ok? ==>
              var es := SeedEntries(seeds, refs).value;
              && (forall e :: e in es ==> e.key in refs && e.key in seeds && e.seedHash == seeds[e.key].hash)
              && (forall k :: k in refs ==> exists e :: e in es && e.key == k)
  {
    if refs != [] && SeedEntries(seeds, refs).Ok? {
      EntriesName(seeds, refs[1..]);
      var es := SeedEntries(seeds, refs).value;
      assert es[0] in es && es[0].key == refs[0];
      assert es[1..] == SeedEntries(seeds, refs[1..]).value;
      forall k | k in refs ensures exists e :: e in es && e.key == k {
        if k != refs[0] {
          assert k in refs[1..];
          var e :| e in es[1..] && e.key == k;
          assert e in es;
        }
      }
    }
  }

  lemma {:induction false} BindingsAskable(t: Tables, bindings: seq<SeedBinding>)
    ensures QuestionBindingError(t, bindings).None?
            <==> forall b :: b in bindings ==> Askable(t, b.key) && t.seeds[b.key].hash == b.hash
  {
    if bindings != [] {
      BindingsAskable(t, bindings[1..]);
      assert bindings == [bindings[0]] + bindings[1..];
      assert forall b :: b in bindings <==> b == bindings[0] || b in bindings[1..];
    }
  }

  lemma KeysOfBindings(entries: seq<SeedEntry>, refs: seq<RowKey>)
    requires forall e :: e in entries ==> e.key in refs
    requires forall k :: k in refs ==> exists e :: e in entries && e.key == k
    ensures (set b | b in BindingsOf(entries) :: b.key) == (set k | k in refs)
    ensures forall b :: b in BindingsOf(entries) ==> exists e :: e in entries && b == SeedBinding(e.key, e.seedHash)
    ensures forall e :: e in entries ==> SeedBinding(e.key, e.seedHash) in BindingsOf(entries)
  {
    var bindings := BindingsOf(entries);
    forall e | e in entries ensures SeedBinding(e.key, e.seedHash) in bindings {
      var i :| 0 <= i < |entries| && entries[i] == e;
      assert bindings[i] == SeedBinding(e.key, e.seedHash);
    }
    forall b | b in bindings ensures exists e :: e in entries && b == SeedBinding(e.key, e.seedHash) {
      var i :| 0 <= i < |bindings| && bindings[i] == b;
      assert entries[i] in entries;
    }
  }
}
