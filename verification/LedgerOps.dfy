/** Every operation on seeds and contracts keeps the ledger invariant and what later states keep. */
module LedgerOps {
  import opened Basics
  import opened EventTypes
  import opened EventSpec
  import opened EventLedger

  ghost predicate Ledger(t: Tables) { LedgerInv(t.seeds, t.contracts) }

  ghost predicate LedgerEvolves(t: Tables, u: Tables) { Evolves(t.seeds, t.contracts, u.seeds, u.contracts) }

  /** An outcome that, if the transaction commits, keeps the ledger and continues its history. */
  ghost predicate Keeps(t: Tables, o: Outcome) {
    o.Ok? ==> Ledger(o.value.tables) && LedgerEvolves(t, o.value.tables)
  }

  // ----- Seeds ----------------------------------------------------------------------

  lemma CreateSeedKeeps(t: Tables, p: SeedPayload)
    requires Ledger(t) && p.outline.Complete() && p.rev == 1
    ensures Keeps(t, CreateSeedSpec(t, p))
  {
    if CreateSeedSpec(t, p).Ok? { AddSeed(t.seeds, t.contracts, p, None); }
  }

  lemma RetireSeedKeeps(t: Tables, key: RowKey, reason: string, now: nat)
    requires Ledger(t)
    ensures Keeps(t, RetireSeedSpec(t, key, reason, now))
  {
    if RetireSeedSpec(t, key, reason, now).Ok? { RetireSeeds(t.seeds, t.contracts, {key}, Retirement(now, reason)); }
  }

  /** After the latest revision is retired, every revision below the next one is. */
  lemma RetiredBelow(seeds: Seeds, key: RowKey, mark: Retirement, r: nat)
    requires SeedLineage(seeds) && key in seeds && 1 <= r <= key.rev
    ensures RetiredSeed(RetireSeedRows(seeds, {key}, mark), RowKey(key.id, r))
  {
    if r < key.rev { assert RetiredSeed(seeds, RowKey(key.id, r)); }
  }

  /** The place of the successor is free once its predecessor is retired. */
  lemma PlaceIsFree(seeds: Seeds, key: RowKey, mark: Retirement, chain: string, order: nat)
    requires SeedShape(seeds) && SeedLineage(seeds) && IsLatest(seeds.Keys, key.id, key.rev)
    requires !Occupied(seeds, chain, order, Some(key.id))
    ensures !Occupied(RetireSeedRows(seeds, {key}, mark), chain, order, None)
  {
    forall k | k in seeds && k.id == key.id && k != key ensures seeds[k].status == SeedRetired {
      assert RetiredSeed(seeds, RowKey(key.id, k.rev));
    }
  }

  lemma SupersedeSeedKeeps(t: Tables, id: string, input: SeedInput, reason: string, now: nat)
    requires Ledger(t)
    ensures Keeps(t, SupersedeSeedSpec(t, id, input, reason, now))
  {
    if SupersedeSeedSpec(t, id, input, reason, now).Ok? {
      var rev := Latest(t.seeds.Keys, id).value;
      var key := RowKey(id, rev);
      SupersedeLatestSeed(t.seeds, t.contracts, key, Replacement(id, rev, input), Retirement(now, reason));
    }
  }

  lemma SupersedeLatestSeed(seeds: Seeds, contracts: Contracts, key: RowKey, p: SeedPayload, mark: Retirement)
    requires LedgerInv(seeds, contracts)
    requires IsLatest(seeds.Keys, key.id, key.rev) && seeds[key].status != SeedRetired
    requires p.Key() == RowKey(key.id, key.rev + 1) && p.outline.Complete()
    requires !Occupied(seeds, p.context.chain, p.order, Some(key.id))
    ensures var seeds' := RetireSeedRows(seeds, {key}, mark)[p.Key() := NewSeedRow(p, Some(key.rev))];
            var contracts' := RetireContractRows(contracts, ActiveOn(contracts, {key}), mark);
            LedgerInv(seeds', contracts') && Evolves(seeds, contracts, seeds', contracts')
  {
    var seeds1 := RetireSeedRows(seeds, {key}, mark);
    var contracts1 := RetireContractRows(contracts, ActiveOn(contracts, {key}), mark);
    RetireSeeds(seeds, contracts, {key}, mark);
    forall r | 1 <= r < p.rev ensures RetiredSeed(seeds1, RowKey(p.id, r)) { RetiredBelow(seeds, key, mark, r); }
    PlaceIsFree(seeds, key, mark, p.context.chain, p.order);
    AddSeed(seeds1, contracts1, p, Some(key.rev));
    EvolvesTransitive(seeds, contracts, seeds1, contracts1, seeds1[p.Key() := NewSeedRow(p, Some(key.rev))], contracts1);
  }

  lemma AdvanceSeedKeeps(t: Tables, key: RowKey, target: SeedStatus, hash: Digest)
    requires Ledger(t)
    ensures Keeps(t, AdvanceSeedSpec(t, key, target, hash))
  {
    hide LedgerInv, Evolves;
    if AdvanceSeedSpec(t, key, target, hash).Ok? { AdvanceStep(t.seeds, t.contracts, key, target); }
  }

  // ----- Contracts --------------------------------------------------------------------

  /** A new contract on a seed that is not closed reopens no closed seed. */
  lemma InsertKeepsClosed(contracts: Contracts, id: string, row: ContractRow)
    requires id !in contracts && !Closed(contracts, row.payload.seed)
    ensures ClosedKept(contracts, contracts[id := row])
  {
  }

  /** A live seed with no active contract is `seeded`. */
  lemma UnboundIsSeeded(seeds: Seeds, contracts: Contracts, key: RowKey)
    requires SeedBound(seeds, contracts) && key in seeds && seeds[key].status != SeedRetired
    requires ActiveOn(contracts, {key}) == {}
    ensures seeds[key].status == Seeded
  {
    LockedIsActive(seeds, contracts, key);
  }

  lemma LockedIsActive(seeds: Seeds, contracts: Contracts, key: RowKey)
    requires SeedBound(seeds, contracts) && key in seeds
    ensures LockedType(seeds[key].status) ==> ActiveOn(contracts, {key}) != {}
  {
    if LockedType(seeds[key].status) { assert seeds[key].contractId.value in ActiveOn(contracts, {key}); }
  }

  /** The first contract of a seed, proposed. */
  lemma FirstContract(seeds: Seeds, contracts: Contracts, p: ContractPayload, supersedes: Option<string>, now: nat)
    requires LedgerInv(seeds, contracts)
    requires p.seed in seeds && seeds[p.seed].status == Seeded && p.context == seeds[p.seed].payload.context
    requires !HasContract(contracts, p.seed) && p.rev == 1 && p.id !in contracts
    ensures var contracts' := contracts[p.id := NewContractRow(p, Proposed, supersedes, now)];
            LedgerInv(seeds, contracts') && Evolves(seeds, contracts, seeds, contracts')
  {
    AddContract(seeds, contracts, p, supersedes, now);
    InsertKeepsClosed(contracts, p.id, NewContractRow(p, Proposed, supersedes, now));
  }

  lemma ProposeContractKeeps(t: Tables, input: ContractInput, now: nat)
    requires Ledger(t)
    ensures Keeps(t, ProposeContractSpec(t, input, now))
  {
    if ProposeContractSpec(t, input, now).Ok? {
      var p := ContractPayloadOf(input, t.seeds[input.seed].payload, "", None).value;
      UnboundIsSeeded(t.seeds, t.contracts, input.seed);
      FirstContract(t.seeds, t.contracts, p, OptionalId(p.supersedes), now);
    }
  }

  /** Proposing and then locking a contract equals inserting it locked. */
  lemma LockAfterInsert(seeds: Seeds, contracts: Contracts, p: ContractPayload, supersedes: Option<string>, now: nat)
    requires LedgerInv(seeds, contracts[p.id := NewContractRow(p, Proposed, supersedes, now)])
    requires LockError(p) == None && p.seed in seeds
    ensures var row := NewContractRow(p, Locked, supersedes, now);
            var middle := contracts[p.id := NewContractRow(p, Proposed, supersedes, now)];
            var seeds' := seeds[p.seed := BindSeed(seeds[p.seed], p.id, row.hash)];
            LedgerInv(seeds', contracts[p.id := row]) && Evolves(seeds, middle, seeds', contracts[p.id := row])
  {
    var middle := contracts[p.id := NewContractRow(p, Proposed, supersedes, now)];
    LockStep(seeds, middle, p.id, now);
    assert middle[p.id := LockedRow(middle[p.id], now)] == contracts[p.id := NewContractRow(p, Locked, supersedes, now)];
  }

  lemma ProposeAndLockKeeps(t: Tables, input: ContractInput, now: nat)
    requires Ledger(t)
    ensures Keeps(t, ProposeAndLockSpec(t, input, now))
  {
    var o := ProposeAndLockSpec(t, input, now);
    if o.Ok? {
      var p := ContractPayloadOf(input, t.seeds[input.seed].payload, "", None).value;
      FirstContract(t.seeds, t.contracts, p, None, now);
      LockAfterInsert(t.seeds, t.contracts, p, None, now);
      EvolvesTransitive(t.seeds, t.contracts, t.seeds, t.contracts[p.id := NewContractRow(p, Proposed, None, now)],
                        o.value.tables.seeds, o.value.tables.contracts);
    }
  }

  lemma LockContractKeeps(t: Tables, id: string, expected: Option<Digest>, now: nat)
    requires Ledger(t)
    ensures Keeps(t, LockContractSpec(t, id, expected, now))
  {
    if LockContractSpec(t, id, expected, now).Ok? { LockStep(t.seeds, t.contracts, id, now); }
  }

  lemma RetireContractKeeps(t: Tables, id: string, reason: string, now: nat)
    requires Ledger(t)
    ensures Keeps(t, RetireContractSpec(t, id, reason, now))
  {
    if RetireContractSpec(t, id, reason, now).Ok? { RetireContractStep(t.seeds, t.contracts, id, Retirement(now, reason)); }
  }

  /** Retire the active contract, release the seed, insert the proposed successor. */
  lemma SupersedeActive(seeds: Seeds, contracts: Contracts, id: string, p: ContractPayload, mark: Retirement, now: nat)
    requires LedgerInv(seeds, contracts)
    requires id in contracts && Active(contracts[id].status)
    requires seeds[contracts[id].payload.seed].status !in {Expanded, Generated}
    requires p.seed == contracts[id].payload.seed && p.context == seeds[p.seed].payload.context
    requires p.rev == contracts[id].payload.rev + 1 && p.id !in contracts && p.supersedes == id
    ensures var seeds1 := Released(seeds, p.seed);
            var contracts2 := RetireContractRows(contracts, {id}, mark)[p.id := NewContractRow(p, Proposed, Some(id), now)];
            && LedgerInv(seeds1, contracts2)
            && SeedsKept(seeds, seeds1) && ContractsKept(contracts, contracts2) && ClosedKept(contracts, contracts2)
  {
    var seeds1 := Released(seeds, p.seed);
    var contracts1 := RetireContractRows(contracts, {id}, mark);
    var row := NewContractRow(p, Proposed, Some(id), now);
    assert ContractOrder(contracts) && contracts[id].payload.id == id && p.seed in seeds;
    hide LedgerInv, SeedsKept, ContractsKept, ClosedKept, ContractOrder, ComesNext, RetireContractRows;
    RetireContractStep(seeds, contracts, id, mark);
    SuccessorComesNext(contracts, id, p, mark);
    AddContract(seeds1, contracts1, p, Some(id), now);
    ContractsKeptTransitive(contracts, contracts1, contracts1[p.id := row]);
    SuccessorKeepsClosed(contracts, id, p, row, mark);
  }

  lemma SuccessorComesNext(contracts: Contracts, id: string, p: ContractPayload, mark: Retirement)
    requires ContractOrder(contracts) && id in contracts && Active(contracts[id].status)
    requires contracts[id].payload.id == id
    requires p.seed == contracts[id].payload.seed && p.rev == contracts[id].payload.rev + 1
    requires p.id !in contracts && p.supersedes == id
    ensures ComesNext(RetireContractRows(contracts, {id}, mark), p, Some(id))
  {
    OthersRetired(contracts, id);
  }

  lemma SuccessorKeepsClosed(contracts: Contracts, id: string, p: ContractPayload, row: ContractRow, mark: Retirement)
    requires id in contracts && Active(contracts[id].status) && p.seed == contracts[id].payload.seed && row.payload == p
    ensures ClosedKept(contracts, RetireContractRows(contracts, {id}, mark)[p.id := row])
  {
  }

  lemma SupersedeContractKeeps(t: Tables, id: string, input: ContractInput, reason: string, lock: bool, now: nat)
    requires Ledger(t)
    ensures Keeps(t, SupersedeContractSpec(t, id, input, reason, lock, now))
  {
    hide LedgerInv, SeedsKept, ContractsKept, ClosedKept;
    var o := SupersedeContractSpec(t, id, input, reason, lock, now);
    if o.Ok? {
      var key := t.contracts[id].payload.seed;
      var p := ContractPayloadOf(input, t.seeds[key].payload, id, Some(t.contracts[id].payload.rev + 1)).value;
      var mark := Retirement(now, reason);
      SupersededPayload(t, id, input, p);
      SupersedeActive(t.seeds, t.contracts, id, p, mark, now);
      if lock { LockSuccessor(t.seeds, t.contracts, id, p, mark, now); }
    }
  }

  lemma SupersededPayload(t: Tables, id: string, input: ContractInput, p: ContractPayload)
    requires Ledger(t) && id in t.contracts
    requires t.contracts[id].payload.seed in t.seeds
    requires ContractPayloadOf(input, t.seeds[t.contracts[id].payload.seed].payload, id, Some(t.contracts[id].payload.rev + 1)) == Ok(p)
    ensures p.seed == t.contracts[id].payload.seed && p.context == t.seeds[p.seed].payload.context
    ensures p.rev == t.contracts[id].payload.rev + 1 && p.supersedes == id
  {
  }

  lemma LockSuccessor(seeds: Seeds, contracts: Contracts, id: string, p: ContractPayload, mark: Retirement, now: nat)
    requires p.seed in seeds && LockError(p) == None
    requires var contracts1 := RetireContractRows(contracts, {id}, mark);
             var contracts2 := contracts1[p.id := NewContractRow(p, Proposed, Some(id), now)];
             && LedgerInv(Released(seeds, p.seed), contracts2)
             && Evolves(seeds, contracts, Released(seeds, p.seed), contracts2)
    ensures var row := NewContractRow(p, Locked, Some(id), now);
            var contracts3 := RetireContractRows(contracts, {id}, mark)[p.id := row];
            var seeds3 := seeds[p.seed := BindSeed(seeds[p.seed], p.id, row.hash)];
            LedgerInv(seeds3, contracts3) && Evolves(seeds, contracts, seeds3, contracts3)
  {
    var contracts1 := RetireContractRows(contracts, {id}, mark);
    var row := NewContractRow(p, Locked, Some(id), now);
    var seeds1 := Released(seeds, p.seed);
    LockAfterInsert(seeds1, contracts1, p, Some(id), now);
    var seeds3 := seeds[p.seed := BindSeed(seeds[p.seed], p.id, row.hash)];
    assert seeds1[p.seed := BindSeed(seeds1[p.seed], p.id, row.hash)] == seeds3;
    EvolvesTransitive(seeds, contracts, seeds1, contracts1[p.id := NewContractRow(p, Proposed, Some(id), now)],
                      seeds3, contracts1[p.id := row]);
  }

  // ----- The partial unique index ---------------------------------------------------------

  /** No insertion ever violates the unique index on active contracts: only the primary key can reject it. */
  lemma IndexNeverRejects(t: Tables, input: ContractInput, now: nat)
    requires Ledger(t)
    ensures ProposeContractSpec(t, input, now) == Err(ContractExists) ==> input.id in t.contracts
    ensures ProposeAndLockSpec(t, input, now) == Err(ContractExists) ==> input.id in t.contracts
  {
    NoContractNoActive(t.contracts, input.seed);
  }

  lemma NoContractNoActive(contracts: Contracts, key: RowKey)
    ensures !HasContract(contracts, key) ==> ActiveOn(contracts, {key}) == {}
  {
  }

  lemma IndexNeverRejectsSuccessor(t: Tables, id: string, input: ContractInput, reason: string, lock: bool, now: nat)
    requires Ledger(t)
    ensures SupersedeContractSpec(t, id, input, reason, lock, now) == Err(ContractExists) ==> input.id in t.contracts
  {
    if id in t.contracts && Active(t.contracts[id].status) {
      NoneActiveAfterRetiring(t.contracts, id, Retirement(now, reason));
    }
  }

  lemma NoneActiveAfterRetiring(contracts: Contracts, id: string, mark: Retirement)
    requires ContractOrder(contracts) && id in contracts && Active(contracts[id].status)
    ensures ActiveOn(RetireContractRows(contracts, {id}, mark), {contracts[id].payload.seed}) == {}
  {
    OthersRetired(contracts, id);
  }

  // ----- Checks that never fire -----------------------------------------------------------

  /** In a reachable ledger a proposed contract has a seed, and one that can be locked. */
  lemma LockFindsItsSeed(t: Tables, id: string, expected: Option<Digest>, now: nat)
    requires Ledger(t)
    ensures LockContractSpec(t, id, expected, now).Err? ==> LockContractSpec(t, id, expected, now).error !in {SeedNotFound, SeedNotLockable}
  {
    ContractHasItsSeed(t, id);
    hide LedgerInv, LockError;
  }

  lemma SupersedeFindsItsSeed(t: Tables, id: string, input: ContractInput, reason: string, lock: bool, now: nat)
    requires Ledger(t)
    ensures SupersedeContractSpec(t, id, input, reason, lock, now) != Err(SeedNotFound)
  {
    ContractHasItsSeed(t, id);
    hide LedgerInv, InsertRejected, LockError, RetireContractRows;
  }

  lemma RetireFindsItsSeed(t: Tables, id: string, reason: string, now: nat)
    requires Ledger(t)
    ensures RetireContractSpec(t, id, reason, now) != Err(SeedNotFound)
  {
    ContractHasItsSeed(t, id);
    hide LedgerInv, RetireContractRows;
  }

  /** In a reachable ledger the contract a seed names is locked under the hash the seed stores. */
  lemma AdvanceFindsItsContract(t: Tables, key: RowKey, target: SeedStatus, hash: Digest)
    requires Ledger(t)
    ensures AdvanceSeedSpec(t, key, target, hash) != Err(ContractBindingInvalid)
  {
    BindingIsValid(t, key);
    hide LedgerInv;
  }

  lemma ContractHasItsSeed(t: Tables, id: string)
    requires Ledger(t)
    ensures id in t.contracts ==> t.contracts[id].payload.seed in t.seeds
    ensures id in t.contracts && t.contracts[id].status == Proposed ==> t.seeds[t.contracts[id].payload.seed].status == Seeded
  {
  }

  lemma BindingIsValid(t: Tables, key: RowKey)
    requires Ledger(t)
    ensures key in t.seeds && LockedType(t.seeds[key].status) ==>
              && t.seeds[key].contractId.Some? && t.seeds[key].contractId.value in t.contracts
              && t.contracts[t.seeds[key].contractId.value].status == Locked
              && t.seeds[key].contractHash == Some(t.contracts[t.seeds[key].contractId.value].hash)
  {
  }

  // ----- Cleaning up ----------------------------------------------------------------------

  /** Of a seeded seed, the active contracts are the proposed ones. */
  lemma SeededHasOnlyProposed(seeds: Seeds, contracts: Contracts, ks: set<RowKey>)
    requires ContractBound(seeds, contracts)
    requires forall k :: k in ks ==> k in seeds && seeds[k].status == Seeded
    ensures ProposedOn(contracts, ks) == ActiveOn(contracts, ks)
  {
  }

  lemma CleanupKeeps(t: Tables, bindings: set<SeedBinding>, mark: Retirement)
    requires Ledger(t)
    ensures Ledger(Cleanup(t, bindings, mark)) && LedgerEvolves(t, Cleanup(t, bindings, mark))
  {
    var ks := OpenCandidates(t, bindings);
    SeededHasOnlyProposed(t.seeds, t.contracts, ks);
    RetireSeeds(t.seeds, t.contracts, ks, mark);
  }

  lemma CloseKeeps(t: Tables, h: Digest, action: Action, why: Reason, mark: Retirement)
    requires Ledger(t) && h in t.questions
    ensures Keeps(t, CloseSpec(t, h, action, why, mark))
  {
    CleanupKeeps(CloseQuestion(t, h), AsSet(t.questions[h].payload.bindings), mark);
  }

  /** The transaction, if it commits, leaves both ledger tables as they are. */
  ghost predicate Untouched(t: Tables, o: Outcome) {
    o.Ok? ==> o.value.tables.seeds == t.seeds && o.value.tables.contracts == t.contracts
  }

  /** An answer either closes the question and cleans up, or touches neither the ledger nor the arcs. */
  lemma AnswerShape(t: Tables, h: Digest, answer: string, now: nat)
    ensures var o := AnswerSpec(t, h, answer, now);
            || (Untouched(t, o) && (o.Ok? ==> o.value.tables.arcs == t.arcs))
            || (h in t.questions && o == CloseSpec(t, h, Expired, TtlExpired, Retirement(now, TTL_EXPIRED)))
            || (h in t.questions && o == CloseSpec(t, h, Cancelled, ExplicitCancel, Retirement(now, CANCELLED)))
  {
    hide SelectOption, SelectedOption, CaseFold, Cleanup, CleanupCounts;
    if h in t.questions {
      var row := t.questions[h];
      var chosen := SelectOption(CaseFold, row.payload, answer);
      if row.status != QuestionRetired && chosen.Some? { SelectTouchesOnlyTheQuestion(t, h, row, answer, chosen.value, now); }
    }
  }

  lemma SelectTouchesOnlyTheQuestion(t: Tables, h: Digest, row: QuestionRow, answer: string, option: QuestionOption, now: nat)
    ensures SelectSpec(t, h, row, answer, option, now).Ok?
    ensures SelectSpec(t, h, row, answer, option, now).value.tables == t.(questions := SelectSpec(t, h, row, answer, option, now).value.tables.questions)
  {
  }

  lemma AnswerKeeps(t: Tables, h: Digest, answer: string, now: nat)
    requires Ledger(t)
    ensures Keeps(t, AnswerSpec(t, h, answer, now))
  {
    AnswerShape(t, h, answer, now);
    EvolvesReflexive(t.seeds, t.contracts);
    if h in t.questions {
      CloseKeeps(t, h, Expired, TtlExpired, Retirement(now, TTL_EXPIRED));
      CloseKeeps(t, h, Cancelled, ExplicitCancel, Retirement(now, CANCELLED));
    }
  }

  lemma RetireExpiredKeeps(t: Tables, observed: nat)
    requires Ledger(t)
    ensures Keeps(t, RetireExpiredSpec(t, observed))
  {
    var hs := ExpiredAt(t.questions, observed);
    var closed := t.(questions := CloseQuestions(t.questions, hs));
    CleanupKeeps(closed, BoundBy(t.questions, hs), Retirement(observed, TTL_EXPIRED));
  }

  // ----- Every operation -------------------------------------------------------------------

  predicate SeedOp(op: Op) { op.CreateSeed? || op.SupersedeSeed? || op.AdvanceSeedStatus? || op.RetireSeed? }

  predicate SeedOrContractOp(op: Op) {
    || SeedOp(op)
    || op.ProposeContract? || op.ProposeAndLockContract? || op.LockContract? || op.SupersedeContract? || op.RetireContract?
  }

  predicate ArcOp(op: Op) { op.CreateArc? || op.LockArc? || op.SupersedeArc? || op.RetireArc? }

  predicate ReviewOp(op: Op) { op.RecordReview? || op.RetireReview? || op.RecordObservedReview? }

  predicate OffLedger(op: Op) { ArcOp(op) || ReviewOp(op) || op.OpenQuestion? || op.ClaimRuntimeRequest? }

  /** Which tables a committed operation may change, and which counters it advances. */
  ghost predicate Framed(t: Tables, op: Op, a: Applied) {
    var u := a.tables;
    && (SeedOrContractOp(op) ==> u == t.(seeds := u.seeds, contracts := u.contracts) && a.advance && a.bind)
    && (ArcOp(op) ==> u == t.(arcs := u.arcs) && a.advance && a.bind)
    && (ReviewOp(op) ==> u == t.(reviews := u.reviews, observed := u.observed) && a.advance && !a.bind)
    && (op.OpenQuestion? ==> u == t.(questions := u.questions) && a.advance && a.bind)
    && (op.ClaimRuntimeRequest? ==> u == t && !a.advance && !a.bind)
    && (op.RetireExpiredQuestions? ==> u.reviews == t.reviews && u.observed == t.observed && a.advance == a.bind)
    && (op.AnswerQuestion? ==> u.reviews == t.reviews && u.observed == t.observed && !a.bind)
  }

  lemma SeedFrame(t: Tables, op: Op, env: Env)
    requires SeedOp(op) && ArgumentError(op).None?
    ensures Apply(t, op, env).Ok? ==> Framed(t, op, Apply(t, op, env).value)
  {
  }

  lemma ContractFrame(t: Tables, op: Op, env: Env)
    requires SeedOrContractOp(op) && !SeedOp(op) && ArgumentError(op).None?
    ensures Apply(t, op, env).Ok? ==> Framed(t, op, Apply(t, op, env).value)
  {
    hide ContractPayloadOf, LockError, InsertRejected;
  }

  lemma ArcFrame(t: Tables, op: Op, env: Env)
    requires ArcOp(op) && ArgumentError(op).None?
    ensures Apply(t, op, env).Ok? ==> Framed(t, op, Apply(t, op, env).value)
  {
    hide BindArcSeeds, ArcBindingError;
  }

  lemma ReviewFrame(t: Tables, op: Op, env: Env)
    requires ReviewOp(op) && ArgumentError(op).None?
    ensures Apply(t, op, env).Ok? ==> Framed(t, op, Apply(t, op, env).value)
  {
  }

  lemma QuestionFrame(t: Tables, op: Op, env: Env)
    requires (op.OpenQuestion? || op.ClaimRuntimeRequest? || op.RetireExpiredQuestions?) && ArgumentError(op).None?
    ensures Apply(t, op, env).Ok? ==> Framed(t, op, Apply(t, op, env).value)
  {
    hide QuestionBindingError, OpenCandidates, CandidateCounts;
  }

  lemma AnswerFrame(t: Tables, op: Op, env: Env)
    requires op.AnswerQuestion?
    ensures Apply(t, op, env).Ok? ==> Framed(t, op, Apply(t, op, env).value)
  {
    hide AnswerSpec;
    AnswerStaysInFrame(t, op.manifestHash, op.answer, env.now);
  }

  lemma AnswerStaysInFrame(t: Tables, h: Digest, answer: string, now: nat)
    ensures var o := AnswerSpec(t, h, answer, now);
            o.Ok? ==> o.value.tables.reviews == t.reviews && o.value.tables.observed == t.observed && !o.value.bind
  {
    hide SelectOption, SelectedOption, OpenCandidates, CandidateCounts, RetireSeedRows, RetireContractRows, RetireArcRows, CaseFold;
  }

  /** Every committed operation stays within its frame. */
  lemma Frame(t: Tables, op: Op, env: Env)
    requires ArgumentError(op).None?
    ensures Apply(t, op, env).Ok? ==> Framed(t, op, Apply(t, op, env).value)
  {
    hide Apply, Framed;
    if SeedOp(op) { SeedFrame(t, op, env); }
    else if SeedOrContractOp(op) { ContractFrame(t, op, env); }
    else if ArcOp(op) { ArcFrame(t, op, env); }
    else if ReviewOp(op) { ReviewFrame(t, op, env); }
    else if op.AnswerQuestion? { AnswerFrame(t, op, env); }
    else { QuestionFrame(t, op, env); }
  }

  lemma OffLedgerUntouched(t: Tables, op: Op, env: Env)
    requires OffLedger(op) && ArgumentError(op).None?
    ensures Untouched(t, Apply(t, op, env))
  {
    Frame(t, op, env);
    hide Apply;
  }

  lemma SeedOpKeeps(t: Tables, op: Op, env: Env)
    requires Ledger(t) && ArgumentError(op).None? && SeedOp(op)
    ensures Keeps(t, Apply(t, op, env))
  {
    hide Keeps;
    match op {
      case CreateSeed(p) => CreateSeedKeeps(t, p);
      case SupersedeSeed(id, input, reason) => SupersedeSeedKeeps(t, id, input, reason, env.now);
      case AdvanceSeedStatus(key, target, hash) => AdvanceSeedKeeps(t, key, target, hash);
      case RetireSeed(key, reason) => RetireSeedKeeps(t, key, reason, env.now);
    }
  }

  lemma ContractOpKeeps(t: Tables, op: Op, env: Env)
    requires Ledger(t) && ArgumentError(op).None? && SeedOrContractOp(op) && !SeedOp(op)
    ensures Keeps(t, Apply(t, op, env))
  {
    hide Keeps;
    match op {
      case ProposeContract(input) => ProposeContractKeeps(t, input, env.now);
      case ProposeAndLockContract(input) => ProposeAndLockKeeps(t, input, env.now);
      case LockContract(id, expected) => LockContractKeeps(t, id, expected, env.now);
      case SupersedeContract(id, input, reason, lock) => SupersedeContractKeeps(t, id, input, reason, lock, env.now);
      case RetireContract(id, reason) => RetireContractKeeps(t, id, reason, env.now);
    }
  }

  lemma QuestionOpKeeps(t: Tables, op: Op, env: Env)
    requires Ledger(t) && (op.RetireExpiredQuestions? || op.AnswerQuestion?)
    ensures Keeps(t, Apply(t, op, env))
  {
    hide Keeps;
    match op {
      case RetireExpiredQuestions(_) => RetireExpiredKeeps(t, if op.observedAt.Some? then op.observedAt.value else env.now);
      case AnswerQuestion(h, answer) => AnswerKeeps(t, h, answer, env.now);
    }
  }

  lemma ApplyKeeps(t: Tables, op: Op, env: Env)
    requires Ledger(t) && ArgumentError(op).None?
    ensures Keeps(t, Apply(t, op, env))
  {
    hide Apply, Keeps, LedgerInv;
    if SeedOp(op) {
      SeedOpKeeps(t, op, env);
    } else if SeedOrContractOp(op) {
      ContractOpKeeps(t, op, env);
    } else if OffLedger(op) {
      OffLedgerUntouched(t, op, env);
      UntouchedKeeps(t, Apply(t, op, env));
    } else {
      QuestionOpKeeps(t, op, env);
    }
  }

  lemma UntouchedKeeps(t: Tables, o: Outcome)
    requires Ledger(t) && Untouched(t, o)
    ensures Keeps(t, o)
  {
    EvolvesReflexive(t.seeds, t.contracts);
  }
}
