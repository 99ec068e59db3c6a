/**
  The joint invariant of the seed and contract tables, and what every later state keeps of
  an earlier one. No database constraint enforces either: they hold because of what all
  operations do together.

  Each operation is a composition of the six row-level steps treated here.
  */
module EventLedger {
  import opened Basics
  import opened EventTypes
  import opened EventSpec

  type Seeds = map<RowKey, SeedRow>
  type Contracts = map<string, ContractRow>

  // ----- The invariant --------------------------------------------------------------

  /** Stored rows are what their keys and payloads say. */
  ghost predicate SeedShape(seeds: Seeds) {
    forall k :: k in seeds ==>
      && k.rev >= 1
      && seeds[k].payload.Key() == k
      && seeds[k].hash == Sha256(OfSeed(seeds[k].payload))
      && seeds[k].payload.outline.Complete()
      && (seeds[k].status == SeedRetired <==> seeds[k].retirement.Some?)
  }

  ghost predicate ContractShape(seeds: Seeds, contracts: Contracts) {
    forall c :: c in contracts ==>
      var p := contracts[c].payload;
      && p.id == c
      && p.rev >= 1
      && contracts[c].hash == Sha256(OfContract(p))
      && p.seed in seeds
      && p.context == seeds[p.seed].payload.context
      && (contracts[c].status == Retired <==> contracts[c].retirement.Some?)
      && (contracts[c].status == Proposed ==> contracts[c].lockedAt.None?)
      && (contracts[c].status == Locked ==> contracts[c].lockedAt.Some? && LockError(p) == None)
  }

  /** Revisions of one seed are 1..n, and all but the last are retired. */
  ghost predicate SeedLineage(seeds: Seeds) {
    forall k, r :: k in seeds && 1 <= r < k.rev ==> RetiredSeed(seeds, RowKey(k.id, r))
  }

  ghost predicate RetiredSeed(seeds: Seeds, k: RowKey) { k in seeds && seeds[k].status == SeedRetired }

  /** Live seeds have pairwise distinct places (chain, dependency order). */
  ghost predicate DistinctPlaces(seeds: Seeds) {
    forall j, k :: j in seeds && k in seeds && j != k
      && seeds[j].status != SeedRetired && seeds[k].status != SeedRetired
      ==> !SamePlace(seeds[j].payload, seeds[k].payload)
  }

  ghost predicate SamePlace(p: SeedPayload, q: SeedPayload) { p.context.chain == q.context.chain && p.order == q.order }

  /** A seed in a locked-type status names its one locked contract; a seeded seed names none. */
  ghost predicate SeedBound(seeds: Seeds, contracts: Contracts) {
    forall k :: k in seeds ==>
      var row := seeds[k];
      && (LockedType(row.status) ==>
            && row.contractId.Some? && row.contractId.value in contracts
            && contracts[row.contractId.value].status == Locked
            && contracts[row.contractId.value].payload.seed == k
            && row.contractHash == Some(contracts[row.contractId.value].hash))
      && (row.status == Seeded ==> row.contractId == None && row.contractHash == None)
  }

  /** An active contract agrees with its seed: locked with a locked-type seed, proposed with a seeded one. */
  ghost predicate ContractBound(seeds: Seeds, contracts: Contracts) {
    forall c :: c in contracts && contracts[c].payload.seed in seeds ==>
      var seed := seeds[contracts[c].payload.seed];
      && (contracts[c].status == Locked ==> LockedType(seed.status) && seed.contractId == Some(c))
      && (contracts[c].status == Proposed ==> seed.status == Seeded)
  }

  /** The contracts of one seed have distinct revisions; only the highest can be active. */
  ghost predicate ContractOrder(contracts: Contracts) {
    forall c, d :: c in contracts && d in contracts && c != d
      && contracts[c].payload.seed == contracts[d].payload.seed
      ==> Precedes(contracts[c], contracts[d]) || Precedes(contracts[d], contracts[c])
  }

  ghost predicate Precedes(a: ContractRow, b: ContractRow) { a.payload.rev < b.payload.rev && a.status == Retired }

  /** A contract of revision k >= 2 supersedes the contract of revision k - 1 of the same seed. */
  ghost predicate ContractLineage(contracts: Contracts) {
    forall c :: c in contracts && contracts[c].payload.rev >= 2 ==>
      && contracts[c].supersedes.Some?
      && contracts[c].supersedes.value in contracts
      && contracts[c].supersedes == OptionalId(contracts[c].payload.supersedes)
      && var d := contracts[contracts[c].supersedes.value];
         d.payload.seed == contracts[c].payload.seed && d.payload.rev == contracts[c].payload.rev - 1
  }

  ghost predicate LedgerInv(seeds: Seeds, contracts: Contracts) {
    && SeedShape(seeds)
    && ContractShape(seeds, contracts)
    && SeedLineage(seeds)
    && DistinctPlaces(seeds)
    && SeedBound(seeds, contracts)
    && ContractBound(seeds, contracts)
    && ContractOrder(contracts)
    && ContractLineage(contracts)
  }

  // ----- What every later state keeps ------------------------------------------------

  function Rank(s: SeedStatus): nat {
    match s
    case Seeded => 0
    case ExperienceLocked => 1
    case Expanded => 2
    case Generated => 3
    case SeedRetired => 4
  }

  /** One seed row, earlier and later. From `expanded` on the binding is frozen and the status moves forward. */
  ghost predicate SeedKept(a: SeedRow, b: SeedRow) {
    && b.payload == a.payload && b.hash == a.hash && b.supersedes == a.supersedes
    && (a.status == SeedRetired ==> b == a)
    && (a.status in {Expanded, Generated} ==>
          b.contractId == a.contractId && b.contractHash == a.contractHash && Rank(a.status) <= Rank(b.status))
  }

  /** One contract row, earlier and later: the payload is immutable, the status moves forward. */
  ghost predicate ContractKept(a: ContractRow, b: ContractRow) {
    && b.payload == a.payload && b.hash == a.hash && b.supersedes == a.supersedes
    && (a.status == Retired ==> b == a)
    && (a.status == Locked ==> b.status in {Locked, Retired} && b.lockedAt == a.lockedAt)
  }

  ghost predicate SeedsKept(seeds: Seeds, seeds': Seeds) {
    forall k :: k in seeds ==> k in seeds' && SeedKept(seeds[k], seeds'[k])
  }

  ghost predicate ContractsKept(contracts: Contracts, contracts': Contracts) {
    forall c :: c in contracts ==> c in contracts' && ContractKept(contracts[c], contracts'[c])
  }

  /** The seed revision had contracts and all of them are retired. */
  ghost predicate Closed(contracts: Contracts, k: RowKey) {
    && HasContract(contracts, k)
    && forall c :: c in contracts && contracts[c].payload.seed == k ==> contracts[c].status == Retired
  }

  /** A closed seed revision never gets another contract. */
  ghost predicate ClosedKept(contracts: Contracts, contracts': Contracts) {
    forall k :: Closed(contracts, k) ==> NoneAdded(contracts, contracts', k)
  }

  ghost predicate NoneAdded(contracts: Contracts, contracts': Contracts, k: RowKey) {
    forall c :: c in contracts' && contracts'[c].payload.seed == k ==> c in contracts
  }

  ghost predicate Evolves(seeds: Seeds, contracts: Contracts, seeds': Seeds, contracts': Contracts) {
    SeedsKept(seeds, seeds') && ContractsKept(contracts, contracts') && ClosedKept(contracts, contracts')
  }

  lemma EvolvesReflexive(seeds: Seeds, contracts: Contracts)
    ensures Evolves(seeds, contracts, seeds, contracts)
  {
  }

  /** A closed seed revision stays closed. */
  lemma ClosedStays(contracts: Contracts, contracts': Contracts, k: RowKey)
    requires ContractsKept(contracts, contracts') && ClosedKept(contracts, contracts') && Closed(contracts, k)
    ensures Closed(contracts', k)
  {
    var c :| c in contracts && contracts[c].payload.seed == k;
    assert ContractKept(contracts[c], contracts'[c]);
    forall d | d in contracts' && contracts'[d].payload.seed == k ensures contracts'[d].status == Retired {
      assert NoneAdded(contracts, contracts', k);
      assert ContractKept(contracts[d], contracts'[d]);
    }
  }

  lemma SeedsKeptTransitive(a: Seeds, b: Seeds, c: Seeds)
    requires SeedsKept(a, b) && SeedsKept(b, c)
    ensures SeedsKept(a, c)
  {
    forall k | k in a ensures k in c && SeedKept(a[k], c[k]) {
      assert SeedKept(a[k], b[k]) && SeedKept(b[k], c[k]);
    }
  }

  lemma ContractsKeptTransitive(a: Contracts, b: Contracts, c: Contracts)
    requires ContractsKept(a, b) && ContractsKept(b, c)
    ensures ContractsKept(a, c)
  {
    forall k | k in a ensures k in c && ContractKept(a[k], c[k]) {
      assert ContractKept(a[k], b[k]) && ContractKept(b[k], c[k]);
    }
  }

  lemma EvolvesTransitive(s1: Seeds, c1: Contracts, s2: Seeds, c2: Contracts, s3: Seeds, c3: Contracts)
    requires Evolves(s1, c1, s2, c2) && Evolves(s2, c2, s3, c3)
    ensures Evolves(s1, c1, s3, c3)
  {
    SeedsKeptTransitive(s1, s2, s3);
    ContractsKeptTransitive(c1, c2, c3);
    forall k | Closed(c1, k) ensures NoneAdded(c1, c3, k) {
      ClosedStays(c1, c2, k);
      assert NoneAdded(c1, c2, k) && NoneAdded(c2, c3, k);
      forall c | c in c3 && c3[c].payload.seed == k ensures c in c1 {
        assert c in c2;
        assert ContractKept(c2[c], c3[c]);
      }
    }
  }

  // ----- What the invariant says about active contracts ----------------------------------

  /** An active contract has the highest revision of its seed. */
  lemma ActiveIsLast(contracts: Contracts, c: string, d: string)
    requires ContractOrder(contracts)
    requires c in contracts && d in contracts && c != d && contracts[c].payload.seed == contracts[d].payload.seed
    requires Active(contracts[c].status)
    ensures contracts[d].payload.rev < contracts[c].payload.rev && contracts[d].status == Retired
  {
  }

  // ----- Row-wise changes -------------------------------------------------------------------

  /** No row appears or disappears, payloads stay, retired stays retired. */
  ghost predicate SeedsRestated(seeds: Seeds, seeds': Seeds) {
    && seeds'.Keys == seeds.Keys
    && forall k :: k in seeds ==>
      && seeds'[k].payload == seeds[k].payload && seeds'[k].hash == seeds[k].hash
      && (seeds[k].status == SeedRetired ==> seeds'[k].status == SeedRetired)
      && (seeds'[k].status == SeedRetired <==> seeds'[k].retirement.Some?)
  }

  ghost predicate ContractsRestated(contracts: Contracts, contracts': Contracts) {
    && contracts'.Keys == contracts.Keys
    && forall c :: c in contracts ==>
      && contracts'[c].payload == contracts[c].payload && contracts'[c].hash == contracts[c].hash
      && contracts'[c].supersedes == contracts[c].supersedes
      && (contracts[c].status == Retired ==> contracts'[c].status == Retired)
      && (contracts'[c].status == Retired <==> contracts'[c].retirement.Some?)
      && (contracts'[c].status == Proposed ==> contracts'[c].lockedAt.None?)
      && (contracts'[c].status == Locked ==> contracts'[c].lockedAt.Some? && LockError(contracts[c].payload) == None)
  }

  lemma OneSeedRestated(seeds: Seeds, k: RowKey, row: SeedRow)
    requires SeedShape(seeds) && k in seeds && SeedKept(seeds[k], row)
    requires seeds[k].status != SeedRetired && row.status != SeedRetired && row.retirement == seeds[k].retirement
    ensures SeedsRestated(seeds, seeds[k := row]) && SeedsKept(seeds, seeds[k := row])
  {
  }

  lemma OneContractRestated(seeds: Seeds, contracts: Contracts, c: string, row: ContractRow)
    requires ContractShape(seeds, contracts) && c in contracts && ContractKept(contracts[c], row)
    requires contracts[c].status != Retired && row.retirement == contracts[c].retirement
    requires row.status == Locked && row.lockedAt.Some? && LockError(row.payload) == None
    ensures ContractsRestated(contracts, contracts[c := row])
  {
  }

  lemma SameContractsRestated(seeds: Seeds, contracts: Contracts)
    requires ContractShape(seeds, contracts)
    ensures ContractsRestated(contracts, contracts)
  {
  }

  lemma RestatedSeeds(seeds: Seeds, seeds': Seeds)
    requires SeedShape(seeds) && SeedLineage(seeds) && DistinctPlaces(seeds) && SeedsRestated(seeds, seeds')
    ensures SeedShape(seeds') && SeedLineage(seeds') && DistinctPlaces(seeds')
  {
    forall k, r | k in seeds' && 1 <= r < k.rev ensures RetiredSeed(seeds', RowKey(k.id, r)) {
      assert RetiredSeed(seeds, RowKey(k.id, r));
    }
  }

  lemma RestatedContracts(seeds: Seeds, contracts: Contracts, seeds': Seeds, contracts': Contracts)
    requires ContractShape(seeds, contracts) && ContractOrder(contracts) && ContractLineage(contracts)
    requires SeedsRestated(seeds, seeds') && ContractsRestated(contracts, contracts')
    ensures ContractShape(seeds', contracts') && ContractOrder(contracts') && ContractLineage(contracts')
  {
    RestatedOrder(contracts, contracts');
  }

  lemma RestatedOrder(contracts: Contracts, contracts': Contracts)
    requires ContractOrder(contracts) && ContractsRestated(contracts, contracts')
    ensures ContractOrder(contracts')
  {
    forall c, d | c in contracts' && d in contracts' && c != d && contracts'[c].payload.seed == contracts'[d].payload.seed
      ensures Precedes(contracts'[c], contracts'[d]) || Precedes(contracts'[d], contracts'[c])
    {
      assert Precedes(contracts[c], contracts[d]) || Precedes(contracts[d], contracts[c]);
    }
  }

  /** A row-wise change keeps the invariant when it keeps the two binding halves. */
  lemma RestatedLedger(seeds: Seeds, contracts: Contracts, seeds': Seeds, contracts': Contracts)
    requires LedgerInv(seeds, contracts)
    requires SeedsRestated(seeds, seeds') && ContractsRestated(contracts, contracts')
    requires SeedBound(seeds', contracts') && ContractBound(seeds', contracts')
    ensures LedgerInv(seeds', contracts')
  {
    RestatedSeeds(seeds, seeds');
    RestatedContracts(seeds, contracts, seeds', contracts');
  }

  // ----- Step 1: a new seed revision ------------------------------------------------------

  lemma AddSeed(seeds: Seeds, contracts: Contracts, p: SeedPayload, supersedes: Option<nat>)
    requires LedgerInv(seeds, contracts)
    requires p.Key() !in seeds && p.rev >= 1 && p.outline.Complete()
    requires forall r :: 1 <= r < p.rev ==> RetiredSeed(seeds, RowKey(p.id, r))
    requires !Occupied(seeds, p.context.chain, p.order, None)
    ensures LedgerInv(seeds[p.Key() := NewSeedRow(p, supersedes)], contracts)
    ensures Evolves(seeds, contracts, seeds[p.Key() := NewSeedRow(p, supersedes)], contracts)
  {
    AddSeedLineage(seeds, p, supersedes);
    AddSeedBound(seeds, contracts, p, supersedes);
  }

  lemma AddSeedLineage(seeds: Seeds, p: SeedPayload, supersedes: Option<nat>)
    requires SeedShape(seeds) && SeedLineage(seeds) && DistinctPlaces(seeds)
    requires p.Key() !in seeds && p.rev >= 1 && p.outline.Complete()
    requires forall r :: 1 <= r < p.rev ==> RetiredSeed(seeds, RowKey(p.id, r))
    requires !Occupied(seeds, p.context.chain, p.order, None)
    ensures var seeds' := seeds[p.Key() := NewSeedRow(p, supersedes)];
            SeedShape(seeds') && SeedLineage(seeds') && DistinctPlaces(seeds') && SeedsKept(seeds, seeds')
  {
    var seeds' := seeds[p.Key() := NewSeedRow(p, supersedes)];
    forall k, r | k in seeds' && 1 <= r < k.rev ensures RetiredSeed(seeds', RowKey(k.id, r)) {
      assert RetiredSeed(seeds, RowKey(k.id, r));
    }
  }

  lemma AddSeedBound(seeds: Seeds, contracts: Contracts, p: SeedPayload, supersedes: Option<nat>)
    requires ContractShape(seeds, contracts) && SeedBound(seeds, contracts) && ContractBound(seeds, contracts)
    requires p.Key() !in seeds
    ensures var seeds' := seeds[p.Key() := NewSeedRow(p, supersedes)];
            ContractShape(seeds', contracts) && SeedBound(seeds', contracts) && ContractBound(seeds', contracts)
  {
  }

  // ----- Step 2: retiring seeds together with their active contracts -------------------------

  lemma RetireSeeds(seeds: Seeds, contracts: Contracts, ks: set<RowKey>, mark: Retirement)
    requires LedgerInv(seeds, contracts)
    requires forall k :: k in ks && k in seeds ==> seeds[k].status != SeedRetired
    ensures var seeds' := RetireSeedRows(seeds, ks, mark);
            var contracts' := RetireContractRows(contracts, ActiveOn(contracts, ks), mark);
            LedgerInv(seeds', contracts') && Evolves(seeds, contracts, seeds', contracts')
  {
    var cs := ActiveOn(contracts, ks);
    var seeds' := RetireSeedRows(seeds, ks, mark);
    var contracts' := RetireContractRows(contracts, cs, mark);
    RetireSeedsRestated(seeds, ks, mark);
    RetiredRestated(seeds, contracts, cs, mark);
    RetireSeedsBound(seeds, contracts, ks, mark);
    RestatedLedger(seeds, contracts, seeds', contracts');
    RetiringKeepsClosed(contracts, cs, mark);
  }

  lemma RetireSeedsRestated(seeds: Seeds, ks: set<RowKey>, mark: Retirement)
    requires SeedShape(seeds)
    requires forall k :: k in ks && k in seeds ==> seeds[k].status != SeedRetired
    ensures SeedsRestated(seeds, RetireSeedRows(seeds, ks, mark)) && SeedsKept(seeds, RetireSeedRows(seeds, ks, mark))
  {
  }

  lemma RetireSeedsBound(seeds: Seeds, contracts: Contracts, ks: set<RowKey>, mark: Retirement)
    requires ContractShape(seeds, contracts) && SeedBound(seeds, contracts) && ContractBound(seeds, contracts)
    ensures var seeds' := RetireSeedRows(seeds, ks, mark);
            var contracts' := RetireContractRows(contracts, ActiveOn(contracts, ks), mark);
            SeedBound(seeds', contracts') && ContractBound(seeds', contracts')
  {
  }

  lemma RetiringKeepsClosed(contracts: Contracts, cs: set<string>, mark: Retirement)
    requires forall c :: c in cs && c in contracts ==> Active(contracts[c].status)
    ensures ContractsKept(contracts, RetireContractRows(contracts, cs, mark))
    ensures ClosedKept(contracts, RetireContractRows(contracts, cs, mark))
  {
  }

  // ----- Step 3: a new contract -----------------------------------------------------------------

  /** The contract may come next on its seed: the earlier ones are all retired, the last one superseded. */
  ghost predicate ComesNext(contracts: Contracts, p: ContractPayload, supersedes: Option<string>) {
    && p.id !in contracts && p.rev >= 1
    && (forall c :: c in contracts && contracts[c].payload.seed == p.seed ==>
          contracts[c].status == Retired && contracts[c].payload.rev < p.rev)
    && (p.rev >= 2 ==>
          && supersedes.Some? && supersedes == OptionalId(p.supersedes) && supersedes.value in contracts
          && contracts[supersedes.value].payload.seed == p.seed
          && contracts[supersedes.value].payload.rev == p.rev - 1)
  }

  lemma AddContract(seeds: Seeds, contracts: Contracts, p: ContractPayload, supersedes: Option<string>, now: nat)
    requires LedgerInv(seeds, contracts)
    requires p.seed in seeds && seeds[p.seed].status == Seeded && p.context == seeds[p.seed].payload.context
    requires ComesNext(contracts, p, supersedes)
    ensures LedgerInv(seeds, contracts[p.id := NewContractRow(p, Proposed, supersedes, now)])
    ensures ContractsKept(contracts, contracts[p.id := NewContractRow(p, Proposed, supersedes, now)])
  {
    var contracts' := contracts[p.id := NewContractRow(p, Proposed, supersedes, now)];
    AddContractLineage(contracts, p, supersedes, now);
    assert ContractShape(seeds, contracts');
    assert SeedBound(seeds, contracts');
    assert ContractBound(seeds, contracts');
  }

  lemma AddContractLineage(contracts: Contracts, p: ContractPayload, supersedes: Option<string>, now: nat)
    requires ContractOrder(contracts) && ContractLineage(contracts) && ComesNext(contracts, p, supersedes)
    ensures ContractOrder(contracts[p.id := NewContractRow(p, Proposed, supersedes, now)])
    ensures ContractLineage(contracts[p.id := NewContractRow(p, Proposed, supersedes, now)])
  {
    var row := NewContractRow(p, Proposed, supersedes, now);
    var contracts' := contracts[p.id := row];
    forall c, d | c in contracts' && d in contracts' && c != d && contracts'[c].payload.seed == contracts'[d].payload.seed
      ensures Precedes(contracts'[c], contracts'[d]) || Precedes(contracts'[d], contracts'[c])
    {
      if c != p.id && d != p.id {
        assert Precedes(contracts[c], contracts[d]) || Precedes(contracts[d], contracts[c]);
      }
    }
    forall c | c in contracts' && contracts'[c].payload.rev >= 2
      ensures contracts'[c].supersedes.Some? && contracts'[c].supersedes.value in contracts
    {
    }
  }

  // ----- Step 4: locking a proposed contract -------------------------------------------------------

  function LockedRow(row: ContractRow, now: nat): ContractRow { row.(status := Locked, lockedAt := Some(now)) }

  lemma LockStep(seeds: Seeds, contracts: Contracts, c: string, now: nat)
    requires LedgerInv(seeds, contracts)
    requires c in contracts && contracts[c].status == Proposed && LockError(contracts[c].payload) == None
    ensures contracts[c].payload.seed in seeds
    ensures var k := contracts[c].payload.seed;
            var seeds' := seeds[k := BindSeed(seeds[k], c, contracts[c].hash)];
            var contracts' := contracts[c := LockedRow(contracts[c], now)];
            LedgerInv(seeds', contracts') && Evolves(seeds, contracts, seeds', contracts')
  {
    var k := contracts[c].payload.seed;
    var seeds' := seeds[k := BindSeed(seeds[k], c, contracts[c].hash)];
    var contracts' := contracts[c := LockedRow(contracts[c], now)];
    OneSeedRestated(seeds, k, seeds'[k]);
    OneContractRestated(seeds, contracts, c, contracts'[c]);
    LockBound(seeds, contracts, c, now);
    RestatedLedger(seeds, contracts, seeds', contracts');
    UpdateKeepsClosed(contracts, c, LockedRow(contracts[c], now));
  }

  lemma LockBound(seeds: Seeds, contracts: Contracts, c: string, now: nat)
    requires ContractShape(seeds, contracts) && ContractOrder(contracts)
    requires SeedBound(seeds, contracts) && ContractBound(seeds, contracts)
    requires c in contracts && contracts[c].status == Proposed
    ensures var k := contracts[c].payload.seed;
            var seeds' := seeds[k := BindSeed(seeds[k], c, contracts[c].hash)];
            var contracts' := contracts[c := LockedRow(contracts[c], now)];
            SeedBound(seeds', contracts') && ContractBound(seeds', contracts')
  {
    OthersRetired(contracts, c);
  }

  /** Beside an active contract, every contract of the same seed is retired. */
  lemma OthersRetired(contracts: Contracts, c: string)
    requires ContractOrder(contracts) && c in contracts && Active(contracts[c].status)
    ensures forall d :: d in contracts && d != c && contracts[d].payload.seed == contracts[c].payload.seed
              ==> contracts[d].status == Retired && contracts[d].payload.rev < contracts[c].payload.rev
  {
    forall d | d in contracts && d != c && contracts[d].payload.seed == contracts[c].payload.seed
      ensures contracts[d].status == Retired && contracts[d].payload.rev < contracts[c].payload.rev
    {
      ActiveIsLast(contracts, c, d);
    }
  }

  lemma UpdateKeepsClosed(contracts: Contracts, c: string, row: ContractRow)
    requires c in contracts && ContractKept(contracts[c], row)
    ensures ContractsKept(contracts, contracts[c := row]) && ClosedKept(contracts, contracts[c := row])
  {
  }

  // ----- Step 5: retiring one active contract and releasing its seed ------------------------------------

  function Released(seeds: Seeds, k: RowKey): Seeds
    requires k in seeds
  {
    seeds[k := UnbindSeed(seeds[k])]
  }

  lemma RetireContractStep(seeds: Seeds, contracts: Contracts, c: string, mark: Retirement)
    requires LedgerInv(seeds, contracts)
    requires c in contracts && Active(contracts[c].status)
    requires contracts[c].payload.seed in seeds ==> seeds[contracts[c].payload.seed].status !in {Expanded, Generated}
    ensures var k := contracts[c].payload.seed;
            var contracts' := RetireContractRows(contracts, {c}, mark);
            && k in seeds && seeds[k].status in {Seeded, ExperienceLocked}
            && LedgerInv(Released(seeds, k), contracts')
            && Evolves(seeds, contracts, Released(seeds, k), contracts')
            && (seeds[k].contractId != Some(c) ==> Released(seeds, k) == seeds)
  {
    hide SeedLineage, DistinctPlaces, ContractLineage, SeedsRestated, ContractsRestated, Closed;
    var k := contracts[c].payload.seed;
    var seeds' := Released(seeds, k);
    var contracts' := RetireContractRows(contracts, {c}, mark);
    ReleaseBound(seeds, contracts, c, mark);
    OneSeedRestated(seeds, k, seeds'[k]);
    RetiredRestated(seeds, contracts, {c}, mark);
    hide LedgerInv, SeedsRestated, ContractsRestated, SeedBound, ContractBound;
    RestatedLedger(seeds, contracts, seeds', contracts');
    RetiringKeepsClosed(contracts, {c}, mark);
  }

  lemma RetiredRestated(seeds: Seeds, contracts: Contracts, cs: set<string>, mark: Retirement)
    requires ContractShape(seeds, contracts)
    ensures ContractsRestated(contracts, RetireContractRows(contracts, cs, mark))
  {
  }

  lemma ReleaseBound(seeds: Seeds, contracts: Contracts, c: string, mark: Retirement)
    requires ContractShape(seeds, contracts) && ContractOrder(contracts)
    requires SeedBound(seeds, contracts) && ContractBound(seeds, contracts)
    requires c in contracts && Active(contracts[c].status)
    requires seeds[contracts[c].payload.seed].status !in {Expanded, Generated}
    ensures var k := contracts[c].payload.seed;
            var contracts' := RetireContractRows(contracts, {c}, mark);
            && seeds[k].status in {Seeded, ExperienceLocked}
            && SeedBound(Released(seeds, k), contracts') && ContractBound(Released(seeds, k), contracts')
            && (seeds[k].contractId != Some(c) ==> Released(seeds, k) == seeds)
  {
    var k := contracts[c].payload.seed;
    OthersRetired(contracts, c);
    if seeds[k].contractId != Some(c) {
      assert seeds[k].status == Seeded;
      assert UnbindSeed(seeds[k]) == seeds[k];
    }
  }

  // ----- Step 6: advancing a bound seed ----------------------------------------------------------------

  lemma AdvanceStep(seeds: Seeds, contracts: Contracts, k: RowKey, target: SeedStatus)
    requires LedgerInv(seeds, contracts)
    requires k in seeds && AllowedTransition(seeds[k].status, target)
    ensures LedgerInv(seeds[k := seeds[k].(status := target)], contracts)
    ensures Evolves(seeds, contracts, seeds[k := seeds[k].(status := target)], contracts)
  {
    var seeds' := seeds[k := seeds[k].(status := target)];
    OneSeedRestated(seeds, k, seeds'[k]);
    SameContractsRestated(seeds, contracts);
    AdvanceBound(seeds, contracts, k, target);
    RestatedLedger(seeds, contracts, seeds', contracts);
  }

  lemma AdvanceBound(seeds: Seeds, contracts: Contracts, k: RowKey, target: SeedStatus)
    requires SeedBound(seeds, contracts) && ContractBound(seeds, contracts)
    requires k in seeds && AllowedTransition(seeds[k].status, target)
    ensures var seeds' := seeds[k := seeds[k].(status := target)];
            SeedBound(seeds', contracts) && ContractBound(seeds', contracts)
  {
  }
}
