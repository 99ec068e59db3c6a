/**
  The pre-design manifest of locked seeds, and when it can be built.

  Main results: LockedManifestSucceeds (exactly when, and that its defensive checks never
  fire), OrderIndependent, StrictlyOrdered, and SameLockedSameManifest, the step behind
  the soundness of the binding revision.
  */
module Manifest {
  import opened Basics
  import opened EventTypes
  import opened EventSpec
  import opened EventLedger
  import opened LedgerOps

  // ----- Sorting entries -----------------------------------------------------------------

  /** The sort key of a manifest entry. */
  datatype Place = Place(order: nat, key: RowKey)

  predicate StringBefore(a: string, b: string) {
    b != "" && (a == "" || a[0] < b[0] || (a[0] == b[0] && StringBefore(a[1..], b[1..])))
  }

  predicate Before(a: Place, b: Place) {
    || a.order < b.order
    || (a.order == b.order && (StringBefore(a.key.id, b.key.id) || (a.key.id == b.key.id && a.key.rev < b.key.rev)))
  }

  function Insert<T(!new)>(place: T -> Place, x: T, xs: seq<T>): (r: seq<T>)
    ensures |r| == |xs| + 1 && forall y :: y in r <==> y == x || y in xs
  {
    if xs == [] || !Before(place(xs[0]), place(x)) then [x] + xs else [xs[0]] + Insert(place, x, xs[1..])
  }

  function Sort<T(!new)>(place: T -> Place, xs: seq<T>): (r: seq<T>)
    ensures |r| == |xs| && forall y :: y in r <==> y in xs
  {
    if xs == [] then [] else Insert(place, xs[0], Sort(place, xs[1..]))
  }

  ghost predicate Nondecreasing<T>(place: T -> Place, xs: seq<T>) {
    forall i, j :: 0 <= i < j < |xs| ==> place(xs[i]).order <= place(xs[j]).order
  }

  ghost predicate StrictlyIncreasing<T>(place: T -> Place, xs: seq<T>) {
    forall i, j :: 0 <= i < j < |xs| ==> place(xs[i]).order < place(xs[j]).order
  }

  lemma {:induction false} InsertIsNondecreasing<T(!new)>(place: T -> Place, x: T, xs: seq<T>)
    requires Nondecreasing(place, xs)
    ensures Nondecreasing(place, Insert(place, x, xs))
  {
    if xs != [] && Before(place(xs[0]), place(x)) {
      InsertIsNondecreasing(place, x, xs[1..]);
      var r := Insert(place, x, xs[1..]);
      forall j | 0 <= j < |r| ensures place(xs[0]).order <= place(r[j]).order {
        assert r[j] in r;
        if r[j] != x {
          var i :| 0 <= i < |xs[1..]| && xs[1..][i] == r[j];
          assert xs[i + 1] == r[j];
        }
      }
    }
  }

  lemma {:induction false} SortIsNondecreasing<T(!new)>(place: T -> Place, xs: seq<T>)
    ensures Nondecreasing(place, Sort(place, xs))
  {
    if xs != [] {
      SortIsNondecreasing(place, xs[1..]);
      InsertIsNondecreasing(place, xs[0], Sort(place, xs[1..]));
    }
  }

  /** Sorted by distinct orders, a list is determined by its elements. */
  lemma {:induction false} IncreasingIsUnique<T(!new)>(place: T -> Place, a: seq<T>, b: seq<T>)
    requires StrictlyIncreasing(place, a) && StrictlyIncreasing(place, b)
    requires forall x :: x in a <==> x in b
    ensures a == b
  {
    assert a != [] ==> a[0] in b;
    assert b != [] ==> b[0] in a;
    if a != [] {
      assert a[0] == b[0];
      forall x ensures x in a[1..] <==> x in b[1..] {
        assert x in a <==> x == a[0] || x in a[1..];
        assert x in b <==> x == b[0] || x in b[1..];
        assert a[0] !in a[1..] && b[0] !in b[1..];
      }
      IncreasingIsUnique(place, a[1..], b[1..]);
    }
  }

  // ----- Building entries ------------------------------------------------------------------

  function ReferenceError(refs: seq<RowKey>): Option<Error> {
    if refs == [] then Some(ManifestEmpty)
    else if exists i, j :: 0 <= i < j < |refs| && refs[i] == refs[j] then Some(ManifestDuplicate)
    else None
  }

  /** An outline binding enters an entry when its commit is named. */
  function OutlineEntry(o: Outline): Option<Outline> { if o.commit != "" then Some(o) else None }

  function LockedEntryOf(seeds: Seeds, contracts: Contracts, k: RowKey): Result<LockedEntry, Error> {
    if k !in seeds then Err(SeedNotFound)
    else
      var seed := seeds[k];
      if !LockedType(seed.status) then Err(ContractRequired)
      else if seed.contractId.None? || seed.contractId.value !in contracts then Err(ContractBindingInvalid)
      else
        var contract := contracts[seed.contractId.value];
        var p := contract.payload;
        if contract.status != Locked || seed.contractHash != Some(contract.hash) || p.seed != k then Err(ContractBindingInvalid)
        else if LockError(p).Some? then Err(LockError(p).value)
        else
          Ok(LockedEntry(k, seed.hash, seed.payload.order, seed.contractId.value, p.rev, contract.hash,
                         p.context.(chain := seed.payload.context.chain), OutlineEntry(seed.payload.outline), p.intent))
  }

  function LockedEntries(seeds: Seeds, contracts: Contracts, refs: seq<RowKey>): Result<seq<LockedEntry>, Error> {
    if refs == [] then Ok([])
    else
      match LockedEntryOf(seeds, contracts, refs[0])
      case Err(e) => Err(e)
      case Ok(entry) =>
        match LockedEntries(seeds, contracts, refs[1..])
        case Err(e) => Err(e)
        case Ok(rest) => Ok([entry] + rest)
  }

  function SeedEntryOf(seeds: Seeds, k: RowKey): Result<SeedEntry, Error> {
    if k !in seeds then Err(SeedNotFound)
    else if seeds[k].status == SeedRetired then Err(SeedAlreadyRetired)
    else
      var p := seeds[k].payload;
      Ok(SeedEntry(k, seeds[k].hash, p.order, p.context, OutlineEntry(p.outline)))
  }

  function SeedEntries(seeds: Seeds, refs: seq<RowKey>): Result<seq<SeedEntry>, Error> {
    if refs == [] then Ok([])
    else
      match SeedEntryOf(seeds, refs[0])
      case Err(e) => Err(e)
      case Ok(entry) =>
        match SeedEntries(seeds, refs[1..])
        case Err(e) => Err(e)
        case Ok(rest) => Ok([entry] + rest)
  }

  // ----- The shared context -------------------------------------------------------------------

  /** One chain, branch and artifact revision; one outline binding, complete if there is one. */
  function ContextError(contexts: seq<Context>, outlines: seq<Option<Outline>>): Option<Error>
    requires contexts != [] && outlines != []
  {
    if exists i :: 0 <= i < |contexts| && contexts[i] != contexts[0] then Some(ManifestContextMismatch)
    else if exists i :: 0 <= i < |outlines| && outlines[i] != outlines[0] then Some(ManifestOutlineMismatch)
    else if outlines[0].Some? && !outlines[0].value.All() then Some(OutlineBindingIncomplete)
    else None
  }

  function LockedContexts(es: seq<LockedEntry>): seq<Context> { seq(|es|, i requires 0 <= i < |es| => es[i].context) }

  function LockedOutlines(es: seq<LockedEntry>): seq<Option<Outline>> { seq(|es|, i requires 0 <= i < |es| => es[i].outline) }

  function SeedContexts(es: seq<SeedEntry>): seq<Context> { seq(|es|, i requires 0 <= i < |es| => es[i].context) }

  function SeedOutlines(es: seq<SeedEntry>): seq<Option<Outline>> { seq(|es|, i requires 0 <= i < |es| => es[i].outline) }

  function LockedPlace(): LockedEntry -> Place { (e: LockedEntry) => Place(e.order, e.key) }

  function SeedPlace(): SeedEntry -> Place { (e: SeedEntry) => Place(e.order, e.key) }

  /** What follows the collection of the entries: sorting, the context checks, the intent check, the hash. */
  function FinishLocked(es: seq<LockedEntry>, binding: nat): Result<EventTypes.Manifest, Error>
    requires es != []
  {
    var entries := Sort(LockedPlace(), es);
    match ContextError(LockedContexts(entries), LockedOutlines(entries))
    case Some(e) => Err(e)
    case None =>
      if exists i :: 0 <= i < |entries| && entries[i].intent != entries[0].intent then Err(ManifestIntentMismatch)
      else
        var body := ManifestBody(entries[0].context, entries[0].outline, entries[0].intent, entries);
        Ok(EventTypes.Manifest(body, Sha256(OfLockedManifest(body)), binding))
  }

  function LockedManifest(seeds: Seeds, contracts: Contracts, binding: nat, refs: seq<RowKey>): Result<EventTypes.Manifest, Error> {
    match ReferenceError(refs)
    case Some(e) => Err(e)
    case None =>
      match LockedEntries(seeds, contracts, refs)
      case Err(e) => Err(e)
      case Ok(es) => if es == [] then Err(ManifestEmpty) else FinishLocked(es, binding)
  }

  /** The pre-contract manifest that binds a question. */
  function SeedManifestOf(seeds: Seeds, refs: seq<RowKey>): Result<SeedManifest, Error> {
    match ReferenceError(refs)
    case Some(e) => Err(e)
    case None =>
      match SeedEntries(seeds, refs)
      case Err(e) => Err(e)
      case Ok(es) =>
        if es == [] then Err(ManifestEmpty)
        else
          var entries := Sort(SeedPlace(), es);
          match ContextError(SeedContexts(entries), SeedOutlines(entries))
          case Some(e) => Err(e)
          case None => Ok(SeedManifest(entries[0].context, entries[0].outline, entries))
  }

  // ----- When a locked manifest exists ------------------------------------------------------------

  ghost predicate AllLocked(seeds: Seeds, refs: seq<RowKey>) {
    forall k :: k in refs ==> k in seeds && LockedType(seeds[k].status)
  }

  ghost function IntentOf(seeds: Seeds, contracts: Contracts, k: RowKey): Option<Intent> {
    if k in seeds && seeds[k].contractId.Some? && seeds[k].contractId.value in contracts
    then Some(contracts[seeds[k].contractId.value].payload.intent) else None
  }

  /** The seeds agree on chain, branch and artifact revision, on the outline, and on the source intent. */
  ghost predicate Agree(seeds: Seeds, contracts: Contracts, refs: seq<RowKey>)
    requires AllLocked(seeds, refs)
  {
    forall j, k :: j in refs && k in refs ==>
      && seeds[j].payload.context == seeds[k].payload.context
      && seeds[j].payload.outline == seeds[k].payload.outline
      && IntentOf(seeds, contracts, j) == IntentOf(seeds, contracts, k)
  }

  /** The entry of a locked seed, read off the rows. */
  ghost predicate EntryFor(seeds: Seeds, contracts: Contracts, k: RowKey, e: LockedEntry) {
    && k in seeds && e.key == k && e.seedHash == seeds[k].hash && e.order == seeds[k].payload.order
    && e.context == seeds[k].payload.context && e.outline == OutlineEntry(seeds[k].payload.outline)
    && Some(e.intent) == IntentOf(seeds, contracts, k)
    && Some(e.contractId) == seeds[k].contractId && Some(e.contractHash) == seeds[k].contractHash
  }

  /** In a reachable ledger an entry exists exactly for locked-type seeds: the defensive checks never fire. */
  lemma LockedEntryExists(seeds: Seeds, contracts: Contracts, k: RowKey)
    requires LedgerInv(seeds, contracts)
    ensures LockedEntryOf(seeds, contracts, k).Ok? <==> k in seeds && LockedType(seeds[k].status)
    ensures LockedEntryOf(seeds, contracts, k).Ok? ==> EntryFor(seeds, contracts, k, LockedEntryOf(seeds, contracts, k).value)
    ensures LockedEntryOf(seeds, contracts, k).Err? ==> LockedEntryOf(seeds, contracts, k).error in {SeedNotFound, ContractRequired}
  {
  }

  lemma {:induction false} LockedEntriesExist(seeds: Seeds, contracts: Contracts, refs: seq<RowKey>)
    requires LedgerInv(seeds, contracts)
    ensures LockedEntries(seeds, contracts, refs).Ok? <==> AllLocked(seeds, refs)
    ensures LockedEntries(seeds, contracts, refs).Err? ==> LockedEntries(seeds, contracts, refs).error in {SeedNotFound, ContractRequired}
    ensures LockedEntries(seeds, contracts, refs).Ok? ==>
              var es := LockedEntries(seeds, contracts, refs).value;
              && |es| == |refs|
              && forall i :: 0 <= i < |refs| ==>
                   LockedEntryOf(seeds, contracts, refs[i]) == Ok(es[i]) && EntryFor(seeds, contracts, refs[i], es[i])
  {
    hide LedgerInv, LockedEntryOf, EntryFor;
    if refs != [] {
      LockedEntryExists(seeds, contracts, refs[0]);
      LockedEntriesExist(seeds, contracts, refs[1..]);
      assert forall k :: k in refs <==> k == refs[0] || k in refs[1..];
    }
  }

  /** All entries of a nonempty list carry one context, one complete outline, one intent. */
  ghost predicate Uniform(es: seq<LockedEntry>) {
    forall d, e :: d in es && e in es ==> d.context == e.context && d.outline == e.outline && d.intent == e.intent
  }

  lemma FinishSucceeds(es: seq<LockedEntry>, binding: nat)
    requires es != []
    requires forall e :: e in es && e.outline.Some? ==> e.outline.value.All()
    ensures FinishLocked(es, binding).Ok? <==> Uniform(es)
    ensures FinishLocked(es, binding).Err? ==>
              FinishLocked(es, binding).error in {ManifestContextMismatch, ManifestOutlineMismatch, ManifestIntentMismatch}
  {
    var entries := Sort(LockedPlace(), es);
    assert forall i :: 0 <= i < |entries| ==> entries[i] in es;
    assert forall e :: e in es ==> e in entries;
    if FinishLocked(es, binding).Ok? {
      forall e | e in entries
        ensures e.context == entries[0].context && e.outline == entries[0].outline && e.intent == entries[0].intent
      {
        var i :| 0 <= i < |entries| && entries[i] == e;
        assert LockedContexts(entries)[i] == LockedContexts(entries)[0];
        assert LockedOutlines(entries)[i] == LockedOutlines(entries)[0];
      }
    }
  }

  lemma OutlinesDecide(seeds: Seeds, j: RowKey, k: RowKey)
    requires SeedShape(seeds) && j in seeds && k in seeds
    ensures OutlineEntry(seeds[j].payload.outline) == OutlineEntry(seeds[k].payload.outline)
            <==> seeds[j].payload.outline == seeds[k].payload.outline
    ensures OutlineEntry(seeds[j].payload.outline).Some? ==> seeds[j].payload.outline.All()
  {
  }

  /** Two entries coincide in what must be uniform exactly when their seeds agree. */
  lemma EntriesCompare(seeds: Seeds, contracts: Contracts, j: RowKey, k: RowKey, d: LockedEntry, e: LockedEntry)
    requires SeedShape(seeds) && EntryFor(seeds, contracts, j, d) && EntryFor(seeds, contracts, k, e)
    ensures d.context == e.context <==> seeds[j].payload.context == seeds[k].payload.context
    ensures d.outline == e.outline <==> seeds[j].payload.outline == seeds[k].payload.outline
    ensures d.intent == e.intent <==> IntentOf(seeds, contracts, j) == IntentOf(seeds, contracts, k)
    ensures d.outline.Some? ==> d.outline.value.All()
  {
    OutlinesDecide(seeds, j, k);
  }

  lemma UniformIsAgree(seeds: Seeds, contracts: Contracts, refs: seq<RowKey>, es: seq<LockedEntry>)
    requires SeedShape(seeds) && AllLocked(seeds, refs) && |es| == |refs|
    requires forall i :: 0 <= i < |refs| ==> EntryFor(seeds, contracts, refs[i], es[i])
    ensures Uniform(es) <==> Agree(seeds, contracts, refs)
    ensures forall e :: e in es && e.outline.Some? ==> e.outline.value.All()
  {
    forall e | e in es && e.outline.Some? ensures e.outline.value.All() {
      var a :| 0 <= a < |es| && es[a] == e;
      EntriesCompare(seeds, contracts, refs[a], refs[a], e, e);
    }
    if Uniform(es) { UniformAgrees(seeds, contracts, refs, es); }
    if Agree(seeds, contracts, refs) {
      forall d, e | d in es && e in es ensures d.context == e.context && d.outline == e.outline && d.intent == e.intent {
        var a :| 0 <= a < |es| && es[a] == d;
        var b :| 0 <= b < |es| && es[b] == e;
        assert refs[a] in refs && refs[b] in refs;
        EntriesCompare(seeds, contracts, refs[a], refs[b], d, e);
      }
    }
  }

  lemma UniformAgrees(seeds: Seeds, contracts: Contracts, refs: seq<RowKey>, es: seq<LockedEntry>)
    requires SeedShape(seeds) && AllLocked(seeds, refs) && |es| == |refs| && Uniform(es)
    requires forall i :: 0 <= i < |refs| ==> EntryFor(seeds, contracts, refs[i], es[i])
    ensures Agree(seeds, contracts, refs)
  {
    forall j, k | j in refs && k in refs
      ensures && seeds[j].payload.context == seeds[k].payload.context
              && seeds[j].payload.outline == seeds[k].payload.outline
              && IntentOf(seeds, contracts, j) == IntentOf(seeds, contracts, k)
    {
      var a :| 0 <= a < |refs| && refs[a] == j;
      var b :| 0 <= b < |refs| && refs[b] == k;
      assert es[a] in es && es[b] in es;
      EntriesCompare(seeds, contracts, j, k, es[a], es[b]);
    }
  }

  /** At least one reference, and none twice. */
  ghost predicate NonEmptyDistinct(refs: seq<RowKey>) { refs != [] && forall i, j :: 0 <= i < j < |refs| ==> refs[i] != refs[j] }

  /** The errors that only a broken table could cause. */
  ghost predicate Defensive(e: Error) {
    e in {ContractBindingInvalid, ProvenanceIncomplete, ProvenanceInvalid, OutlineBindingIncomplete}
  }

  /**
    For well-formed references, a locked manifest exists exactly when every seed exists in
    a locked-type status and all agree; its defensive checks never fire.
    */
  lemma LockedManifestSucceeds(seeds: Seeds, contracts: Contracts, binding: nat, refs: seq<RowKey>)
    requires LedgerInv(seeds, contracts)
    ensures LockedManifest(seeds, contracts, binding, refs).Ok?
            <==> NonEmptyDistinct(refs) && AllLocked(seeds, refs) && Agree(seeds, contracts, refs)
    ensures LockedManifest(seeds, contracts, binding, refs).Err? ==> !Defensive(LockedManifest(seeds, contracts, binding, refs).error)
  {
    hide SeedShape, ContractShape, SeedLineage, DistinctPlaces, SeedBound, ContractBound, ContractOrder, ContractLineage;
    hide LockedEntryOf, EntryFor;
    LockedEntriesExist(seeds, contracts, refs);
    if ReferenceError(refs).None? && AllLocked(seeds, refs) {
      var es := LockedEntries(seeds, contracts, refs).value;
      UniformIsAgree(seeds, contracts, refs, es);
      hide Uniform, Agree, FinishLocked, LockedEntryOf, EntryFor, LedgerInv;
      FinishSucceeds(es, binding);
    }
  }

  // ----- The order of a locked manifest -------------------------------------------------------------

  /** Distinct seeds that agree on their chain have distinct dependency orders. */
  lemma EntriesHaveDistinctOrders(seeds: Seeds, contracts: Contracts, refs: seq<RowKey>, es: seq<LockedEntry>)
    requires LedgerInv(seeds, contracts) && ReferenceError(refs).None? && |es| == |refs| && Uniform(es)
    requires AllLocked(seeds, refs)
    requires forall i :: 0 <= i < |refs| ==> EntryFor(seeds, contracts, refs[i], es[i])
    ensures forall d, e :: d in es && e in es && d != e ==> d.order != e.order && d.key.id != e.key.id
    ensures forall i, j :: 0 <= i < j < |es| ==> es[i] != es[j]
  {
    hide LedgerInv, EntryFor;
    forall i, j | 0 <= i < |es| && 0 <= j < |es| && i != j
      ensures es[i] != es[j] && es[i].order != es[j].order && es[i].key.id != es[j].key.id
    {
      assert refs[i] != refs[j];
      assert es[i] in es && es[j] in es;
      EntriesDiffer(seeds, contracts, refs[i], refs[j], es[i], es[j]);
    }
  }

  lemma EntriesDiffer(seeds: Seeds, contracts: Contracts, j: RowKey, k: RowKey, d: LockedEntry, e: LockedEntry)
    requires LedgerInv(seeds, contracts) && j != k && EntryFor(seeds, contracts, j, d) && EntryFor(seeds, contracts, k, e)
    requires d.context.chain == e.context.chain && LockedType(seeds[j].status) && LockedType(seeds[k].status)
    ensures d.order != e.order && d.key.id != e.key.id
  {
    assert !SamePlace(seeds[j].payload, seeds[k].payload);
    LiveRevisionIsUnique(seeds, j, k);
  }

  /** A seed identity has at most one live revision. */
  lemma LiveRevisionIsUnique(seeds: Seeds, j: RowKey, k: RowKey)
    requires SeedShape(seeds) && SeedLineage(seeds) && j in seeds && k in seeds && j != k
    requires seeds[j].status != SeedRetired && seeds[k].status != SeedRetired
    ensures j.id != k.id
  {
    assert 1 <= j.rev < k.rev ==> RetiredSeed(seeds, RowKey(k.id, j.rev));
    assert 1 <= k.rev < j.rev ==> RetiredSeed(seeds, RowKey(j.id, k.rev));
  }

  /** What is known about a manifest that was built. */
  lemma ManifestEntries(seeds: Seeds, contracts: Contracts, binding: nat, refs: seq<RowKey>)
    requires LedgerInv(seeds, contracts)
    requires LockedManifest(seeds, contracts, binding, refs).Ok?
    ensures ReferenceError(refs).None? && LockedEntries(seeds, contracts, refs).Ok?
    ensures var es := LockedEntries(seeds, contracts, refs).value;
            && es != [] && LockedManifest(seeds, contracts, binding, refs) == FinishLocked(es, binding)
            && LockedManifest(seeds, contracts, binding, refs).value.body.entries == Sort(LockedPlace(), es)
            && |es| == |refs|
            && (forall i :: 0 <= i < |refs| ==> LockedEntryOf(seeds, contracts, refs[i]) == Ok(es[i]) && es[i].key == refs[i])
            && (forall d, e :: d in es && e in es && d != e ==> d.order != e.order && d.key.id != e.key.id)
            && (forall i, j :: 0 <= i < j < |es| ==> es[i] != es[j])
  {
    LockedManifestSucceeds(seeds, contracts, binding, refs);
    LockedEntriesExist(seeds, contracts, refs);
    var es := LockedEntries(seeds, contracts, refs).value;
    UniformIsAgree(seeds, contracts, refs, es);
    EntriesHaveDistinctOrders(seeds, contracts, refs, es);
  }

  lemma {:induction false} SortKeepsDistinct<T(!new)>(place: T -> Place, xs: seq<T>)
    requires forall i, j :: 0 <= i < j < |xs| ==> xs[i] != xs[j]
    ensures forall i, j :: 0 <= i < j < |Sort(place, xs)| ==> Sort(place, xs)[i] != Sort(place, xs)[j]
  {
    if xs != [] {
      SortKeepsDistinct(place, xs[1..]);
      InsertKeepsDistinct(place, xs[0], Sort(place, xs[1..]));
    }
  }

  lemma {:induction false} InsertKeepsDistinct<T(!new)>(place: T -> Place, x: T, xs: seq<T>)
    requires x !in xs && forall i, j :: 0 <= i < j < |xs| ==> xs[i] != xs[j]
    ensures forall i, j :: 0 <= i < j < |Insert(place, x, xs)| ==> Insert(place, x, xs)[i] != Insert(place, x, xs)[j]
  {
    if xs != [] && Before(place(xs[0]), place(x)) {
      InsertKeepsDistinct(place, x, xs[1..]);
      var r := Insert(place, x, xs[1..]);
      assert xs[0] !in r;
    }
  }

  /** A locked manifest lists distinct seed ids, strictly increasing in dependency order. */
  lemma StrictlyOrdered(seeds: Seeds, contracts: Contracts, binding: nat, refs: seq<RowKey>)
    requires LedgerInv(seeds, contracts)
    requires LockedManifest(seeds, contracts, binding, refs).Ok?
    ensures var entries := LockedManifest(seeds, contracts, binding, refs).value.body.entries;
            && StrictlyIncreasing(LockedPlace(), entries)
            && (forall i, j :: 0 <= i < j < |entries| ==> entries[i].order < entries[j].order && entries[i].key.id != entries[j].key.id)
            && (set e | e in entries :: e.key) == (set k | k in refs)
            && |entries| == |refs|
  {
    ManifestEntries(seeds, contracts, binding, refs);
    SortedByPlace(LockedEntries(seeds, contracts, refs).value, refs);
  }

  lemma SortedByPlace(es: seq<LockedEntry>, refs: seq<RowKey>)
    requires |es| == |refs| && forall i :: 0 <= i < |refs| ==> es[i].key == refs[i]
    requires forall i, j :: 0 <= i < j < |es| ==> es[i] != es[j]
    requires forall d, e :: d in es && e in es && d != e ==> d.order != e.order && d.key.id != e.key.id
    ensures var entries := Sort(LockedPlace(), es);
            && StrictlyIncreasing(LockedPlace(), entries)
            && (forall i, j :: 0 <= i < j < |entries| ==> entries[i].order < entries[j].order && entries[i].key.id != entries[j].key.id)
            && (set e | e in entries :: e.key) == (set k | k in refs)
  {
    var entries := Sort(LockedPlace(), es);
    SortIsNondecreasing(LockedPlace(), es);
    SortKeepsDistinct(LockedPlace(), es);
    forall i, j | 0 <= i < j < |entries|
      ensures LockedPlace()(entries[i]).order < LockedPlace()(entries[j]).order && entries[i].key.id != entries[j].key.id
    {
      assert entries[i] in es && entries[j] in es && entries[i] != entries[j];
    }
    forall k | k in refs ensures k in set e | e in entries :: e.key {
      var i :| 0 <= i < |refs| && refs[i] == k;
      assert es[i] in es && es[i] in entries && es[i].key == k;
    }
  }

  // ----- What a locked manifest says ------------------------------------------------------------------

  /** This is the one locked contract on the seed. */
  ghost predicate OneLocked(contracts: Contracts, k: RowKey, c: string) {
    && c in contracts && contracts[c].payload.seed == k && contracts[c].status == Locked
    && forall d :: d in contracts && contracts[d].payload.seed == k && contracts[d].status == Locked ==> d == c
  }

  /** The entry says of its seed what the seed's row says, and of the one locked contract on it what that contract's row says. */
  ghost predicate EntryAsStored(seeds: Seeds, contracts: Contracts, e: LockedEntry) {
    && e.key in seeds && OneLocked(contracts, e.key, e.contractId)
    && var seed, contract := seeds[e.key], contracts[e.contractId];
       && e.seedHash == seed.hash && e.order == seed.payload.order && e.context == seed.payload.context
       && e.outline == (if seed.payload.outline.commit == "" then None else Some(seed.payload.outline))
       && e.contractRev == contract.payload.rev && e.contractHash == contract.hash && e.intent == contract.payload.intent
  }

  /** One entry for every reference, each as stored; what the manifest says of all is what each of them says; and it is stamped. */
  ghost predicate ManifestAsStored(seeds: Seeds, contracts: Contracts, binding: nat, refs: seq<RowKey>, m: EventTypes.Manifest) {
    && (forall e :: e in m.body.entries ==> e.key in refs && EntryAsStored(seeds, contracts, e))
    && (forall k :: k in refs ==> exists i :: 0 <= i < |m.body.entries| && m.body.entries[i].key == k)
    && (forall i, j :: 0 <= i < j < |m.body.entries| ==> m.body.entries[i].key != m.body.entries[j].key)
    && (forall e :: e in m.body.entries ==> e.context == m.body.context && e.outline == m.body.outline && e.intent == m.body.intent)
    && m.controlRevision == binding && m.hash == Sha256(OfLockedManifest(m.body))
  }

  lemma EntryIsAsStored(seeds: Seeds, contracts: Contracts, k: RowKey)
    requires ContractShape(seeds, contracts) && SeedBound(seeds, contracts) && ContractBound(seeds, contracts)
    ensures LockedEntryOf(seeds, contracts, k).Ok? ==>
              LockedEntryOf(seeds, contracts, k).value.key == k && EntryAsStored(seeds, contracts, LockedEntryOf(seeds, contracts, k).value)
  {
  }

  lemma EntriesAreAsStored(seeds: Seeds, contracts: Contracts, refs: seq<RowKey>, es: seq<LockedEntry>)
    requires ContractShape(seeds, contracts) && SeedBound(seeds, contracts) && ContractBound(seeds, contracts) && |es| == |refs|
    requires forall i :: 0 <= i < |refs| ==> LockedEntryOf(seeds, contracts, refs[i]) == Ok(es[i])
    ensures forall e :: e in es ==> e.key in refs && EntryAsStored(seeds, contracts, e)
  {
    hide ContractShape, SeedBound, ContractBound, LockedEntryOf, EntryAsStored;
    forall e | e in es ensures e.key in refs && EntryAsStored(seeds, contracts, e) {
      var i :| 0 <= i < |es| && es[i] == e;
      EntryIsAsStored(seeds, contracts, refs[i]);
    }
  }

  /** In a reachable ledger a locked manifest says exactly what is stored. */
  lemma ManifestIsAsStored(seeds: Seeds, contracts: Contracts, binding: nat, refs: seq<RowKey>)
    requires LedgerInv(seeds, contracts) && LockedManifest(seeds, contracts, binding, refs).Ok?
    ensures ManifestAsStored(seeds, contracts, binding, refs, LockedManifest(seeds, contracts, binding, refs).value)
  {
    hide SeedShape, ContractShape, SeedLineage, DistinctPlaces, SeedBound, ContractBound, ContractOrder, ContractLineage;
    hide LockedEntryOf, EntryAsStored, LockedManifest, FinishLocked, StrictlyIncreasing, LockedEntries, Sort;
    ManifestEntries(seeds, contracts, binding, refs);
    var es := LockedEntries(seeds, contracts, refs).value;
    FinishedUniform(es, binding);
    EntriesAreAsStored(seeds, contracts, refs, es);
    EveryReferenceHasOne(Sort(LockedPlace(), es), refs, es);
    IdsAreDistinct(seeds, contracts, binding, refs);
  }

  lemma IdsAreDistinct(seeds: Seeds, contracts: Contracts, binding: nat, refs: seq<RowKey>)
    requires LedgerInv(seeds, contracts) && LockedManifest(seeds, contracts, binding, refs).Ok?
    ensures var entries := LockedManifest(seeds, contracts, binding, refs).value.body.entries;
            forall i, j :: 0 <= i < j < |entries| ==> entries[i].key != entries[j].key
  {
    hide LedgerInv, LockedManifest, StrictlyIncreasing;
    StrictlyOrdered(seeds, contracts, binding, refs);
  }

  lemma EveryReferenceHasOne(entries: seq<LockedEntry>, refs: seq<RowKey>, es: seq<LockedEntry>)
    requires |es| == |refs| && forall i :: 0 <= i < |refs| ==> es[i].key == refs[i]
    requires forall e :: e in es ==> e in entries
    ensures forall k :: k in refs ==> exists i :: 0 <= i < |entries| && entries[i].key == k
  {
    forall k | k in refs ensures exists i :: 0 <= i < |entries| && entries[i].key == k {
      var j :| 0 <= j < |refs| && refs[j] == k;
      assert es[j] in entries;
    }
  }

  lemma FinishedUniform(es: seq<LockedEntry>, binding: nat)
    requires es != [] && FinishLocked(es, binding).Ok?
    ensures var m := FinishLocked(es, binding).value;
            && m.body.entries == Sort(LockedPlace(), es) && m.controlRevision == binding && m.hash == Sha256(OfLockedManifest(m.body))
            && forall e :: e in m.body.entries ==> e.context == m.body.context && e.outline == m.body.outline && e.intent == m.body.intent
  {
    var entries := Sort(LockedPlace(), es);
    forall e | e in entries
      ensures e.context == entries[0].context && e.outline == entries[0].outline && e.intent == entries[0].intent
    {
      var i :| 0 <= i < |entries| && entries[i] == e;
      assert LockedContexts(entries)[i] == LockedContexts(entries)[0];
      assert LockedOutlines(entries)[i] == LockedOutlines(entries)[0];
    }
  }

  /** A locked manifest does not depend on the order of the references. */
  lemma OrderIndependent(seeds: Seeds, contracts: Contracts, binding: nat, refs: seq<RowKey>, refs': seq<RowKey>)
    requires LedgerInv(seeds, contracts)
    requires forall k :: k in refs <==> k in refs'
    requires ReferenceError(refs).None? && ReferenceError(refs').None?
    ensures LockedManifest(seeds, contracts, binding, refs).Ok? <==> LockedManifest(seeds, contracts, binding, refs').Ok?
    ensures LockedManifest(seeds, contracts, binding, refs).Ok? ==>
              LockedManifest(seeds, contracts, binding, refs) == LockedManifest(seeds, contracts, binding, refs')
  {
    if LockedManifest(seeds, contracts, binding, refs).Ok? {
      SuccessCarriesOver(seeds, contracts, binding, refs, refs');
      SameReferencesSameManifest(seeds, contracts, binding, refs, refs');
    }
    if LockedManifest(seeds, contracts, binding, refs').Ok? {
      SuccessCarriesOver(seeds, contracts, binding, refs', refs);
    }
  }

  lemma SuccessCarriesOver(seeds: Seeds, contracts: Contracts, binding: nat, refs: seq<RowKey>, refs': seq<RowKey>)
    requires LedgerInv(seeds, contracts)
    requires forall k :: k in refs' ==> k in refs
    requires LockedManifest(seeds, contracts, binding, refs).Ok? && ReferenceError(refs').None?
    ensures LockedManifest(seeds, contracts, binding, refs').Ok?
  {
    LockedManifestSucceeds(seeds, contracts, binding, refs);
    AgreeOnFewer(seeds, contracts, refs, refs');
    LockedManifestSucceeds(seeds, contracts, binding, refs');
  }

  lemma AgreeOnFewer(seeds: Seeds, contracts: Contracts, refs: seq<RowKey>, refs': seq<RowKey>)
    requires AllLocked(seeds, refs) && Agree(seeds, contracts, refs) && forall k :: k in refs' ==> k in refs
    ensures AllLocked(seeds, refs') && Agree(seeds, contracts, refs')
  {
  }

  lemma SameReferencesSameManifest(seeds: Seeds, contracts: Contracts, binding: nat, refs: seq<RowKey>, refs': seq<RowKey>)
    requires LedgerInv(seeds, contracts) && forall k :: k in refs <==> k in refs'
    requires LockedManifest(seeds, contracts, binding, refs).Ok? && LockedManifest(seeds, contracts, binding, refs').Ok?
    ensures LockedManifest(seeds, contracts, binding, refs) == LockedManifest(seeds, contracts, binding, refs')
  {
    var m, m' := LockedManifest(seeds, contracts, binding, refs).value, LockedManifest(seeds, contracts, binding, refs').value;
    StrictlyOrdered(seeds, contracts, binding, refs);
    StrictlyOrdered(seeds, contracts, binding, refs');
    SameReferencesSameElements(seeds, contracts, binding, refs, refs');
    IncreasingIsUnique(LockedPlace(), m.body.entries, m'.body.entries);
    FinishedByEntries(seeds, contracts, binding, refs);
    FinishedByEntries(seeds, contracts, binding, refs');
  }

  /** Everything in a manifest is determined by its entries and the binding revision. */
  ghost predicate Finished(m: EventTypes.Manifest, binding: nat) {
    var es := m.body.entries;
    && es != []
    && m.body == ManifestBody(es[0].context, es[0].outline, es[0].intent, es)
    && m.hash == Sha256(OfLockedManifest(m.body)) && m.controlRevision == binding
  }

  lemma SameReferencesSameElements(seeds: Seeds, contracts: Contracts, binding: nat, refs: seq<RowKey>, refs': seq<RowKey>)
    requires LedgerInv(seeds, contracts) && forall k :: k in refs <==> k in refs'
    requires LockedManifest(seeds, contracts, binding, refs).Ok? && LockedManifest(seeds, contracts, binding, refs').Ok?
    ensures forall e :: e in LockedManifest(seeds, contracts, binding, refs).value.body.entries
                   <==> e in LockedManifest(seeds, contracts, binding, refs').value.body.entries
  {
    ManifestEntries(seeds, contracts, binding, refs);
    ManifestEntries(seeds, contracts, binding, refs');
    EntriesFollowReferences(seeds, contracts, refs, refs');
    EntriesFollowReferences(seeds, contracts, refs', refs);
  }

  lemma EntriesFollowReferences(seeds: Seeds, contracts: Contracts, refs: seq<RowKey>, refs': seq<RowKey>)
    requires LedgerInv(seeds, contracts) && forall k :: k in refs ==> k in refs'
    requires LockedEntries(seeds, contracts, refs).Ok? && LockedEntries(seeds, contracts, refs').Ok?
    ensures forall e :: e in LockedEntries(seeds, contracts, refs).value ==> e in LockedEntries(seeds, contracts, refs').value
  {
    LockedEntriesExist(seeds, contracts, refs);
    LockedEntriesExist(seeds, contracts, refs');
    SameEntry(seeds, contracts, refs, refs', LockedEntries(seeds, contracts, refs).value, LockedEntries(seeds, contracts, refs').value);
  }

  lemma SameEntry(seeds: Seeds, contracts: Contracts, refs: seq<RowKey>, refs': seq<RowKey>, es: seq<LockedEntry>, es': seq<LockedEntry>)
    requires |es| == |refs| && forall i :: 0 <= i < |refs| ==> LockedEntryOf(seeds, contracts, refs[i]) == Ok(es[i])
    requires |es'| == |refs'| && forall i :: 0 <= i < |refs'| ==> LockedEntryOf(seeds, contracts, refs'[i]) == Ok(es'[i])
    requires forall k :: k in refs ==> k in refs'
    ensures forall e :: e in es ==> e in es'
  {
    hide LockedEntryOf;
    forall e | e in es ensures e in es' {
      var i :| 0 <= i < |es| && es[i] == e;
      assert refs[i] in refs';
      var j :| 0 <= j < |refs'| && refs'[j] == refs[i];
      assert LockedEntryOf(seeds, contracts, refs'[j]) == Ok(es'[j]);
    }
  }

  lemma FinishedByEntries(seeds: Seeds, contracts: Contracts, binding: nat, refs: seq<RowKey>)
    requires LedgerInv(seeds, contracts) && LockedManifest(seeds, contracts, binding, refs).Ok?
    ensures Finished(LockedManifest(seeds, contracts, binding, refs).value, binding)
  {
    ManifestEntries(seeds, contracts, binding, refs);
  }

  // ----- What a locked manifest reads ------------------------------------------------------------------

  /** The locked-type seeds and the contracts they name are the same in both ledgers. */
  ghost predicate SameLocked(seeds: Seeds, contracts: Contracts, seeds': Seeds, contracts': Contracts) {
    forall k :: SameLockedAt(seeds, contracts, seeds', contracts', k)
  }

  ghost predicate SameLockedAt(seeds: Seeds, contracts: Contracts, seeds': Seeds, contracts': Contracts, k: RowKey) {
    && (LockedIn(seeds, k) <==> LockedIn(seeds', k))
    && (LockedIn(seeds, k) ==>
          && seeds'[k] == seeds[k]
          && seeds[k].contractId.Some?
          && seeds[k].contractId.value in contracts && seeds[k].contractId.value in contracts'
          && contracts'[seeds[k].contractId.value] == contracts[seeds[k].contractId.value])
  }

  ghost predicate LockedIn(seeds: Seeds, k: RowKey) { k in seeds && LockedType(seeds[k].status) }

  lemma SameLockedReflexive(seeds: Seeds, contracts: Contracts)
    requires SeedBound(seeds, contracts)
    ensures SameLocked(seeds, contracts, seeds, contracts)
  {
  }

  lemma SameLockedTransitive(s1: Seeds, c1: Contracts, s2: Seeds, c2: Contracts, s3: Seeds, c3: Contracts)
    requires SameLocked(s1, c1, s2, c2) && SameLocked(s2, c2, s3, c3)
    ensures SameLocked(s1, c1, s3, c3)
  {
    forall k ensures SameLockedAt(s1, c1, s3, c3, k) {
      assert SameLockedAt(s1, c1, s2, c2, k) && SameLockedAt(s2, c2, s3, c3, k);
    }
  }

  lemma {:induction false} SameLockedSameEntries(s1: Seeds, c1: Contracts, s2: Seeds, c2: Contracts, refs: seq<RowKey>)
    requires LedgerInv(s1, c1) && LedgerInv(s2, c2) && SameLocked(s1, c1, s2, c2)
    ensures LockedEntries(s1, c1, refs).Ok? <==> LockedEntries(s2, c2, refs).Ok?
    ensures LockedEntries(s1, c1, refs).Ok? ==> LockedEntries(s1, c1, refs) == LockedEntries(s2, c2, refs)
  {
    if refs != [] {
      LockedEntryExists(s1, c1, refs[0]);
      LockedEntryExists(s2, c2, refs[0]);
      assert SameLockedAt(s1, c1, s2, c2, refs[0]);
      SameLockedSameEntries(s1, c1, s2, c2, refs[1..]);
    }
  }

  /** Where the locked part of the ledger is the same, so is every locked manifest that can be built. */
  lemma SameLockedSameManifest(s1: Seeds, c1: Contracts, s2: Seeds, c2: Contracts, binding: nat, refs: seq<RowKey>)
    requires LedgerInv(s1, c1) && LedgerInv(s2, c2) && SameLocked(s1, c1, s2, c2)
    ensures LockedManifest(s1, c1, binding, refs).Ok? <==> LockedManifest(s2, c2, binding, refs).Ok?
    ensures LockedManifest(s1, c1, binding, refs).Ok? ==> LockedManifest(s1, c1, binding, refs) == LockedManifest(s2, c2, binding, refs)
  {
    SameLockedSameEntries(s1, c1, s2, c2, refs);
  }

  // ----- Operations that do not advance the binding revision ----------------------------------------------

  /** Retiring seeded candidates leaves the locked part of the ledger alone. */
  lemma CleanupSameLocked(t: Tables, bindings: set<SeedBinding>, mark: Retirement)
    requires Ledger(t)
    ensures SameLocked(t.seeds, t.contracts, Cleanup(t, bindings, mark).seeds, Cleanup(t, bindings, mark).contracts)
  {
    CandidatesSameLocked(t, OpenCandidates(t, bindings), mark);
  }

  lemma CandidatesSameLocked(t: Tables, ks: set<RowKey>, mark: Retirement)
    requires SeedBound(t.seeds, t.contracts) && ContractBound(t.seeds, t.contracts)
    requires forall k :: k in ks ==> k in t.seeds && t.seeds[k].status == Seeded
    ensures SameLocked(t.seeds, t.contracts, RetireSeedRows(t.seeds, ks, mark), RetireContractRows(t.contracts, ProposedOn(t.contracts, ks), mark))
  {
  }

  lemma AnswerSameLocked(t: Tables, h: Digest, answer: string, now: nat)
    requires Ledger(t)
    ensures AnswerSpec(t, h, answer, now).Ok? ==>
              var u := AnswerSpec(t, h, answer, now).value.tables;
              SameLocked(t.seeds, t.contracts, u.seeds, u.contracts)
  {
    AnswerShape(t, h, answer, now);
    SameLockedReflexive(t.seeds, t.contracts);
    if h in t.questions {
      var bindings := AsSet(t.questions[h].payload.bindings);
      CleanupSameLocked(CloseQuestion(t, h), bindings, Retirement(now, TTL_EXPIRED));
      CleanupSameLocked(CloseQuestion(t, h), bindings, Retirement(now, CANCELLED));
    }
  }

  lemma NothingExpiredSameLedger(t: Tables, observed: nat)
    requires ExpiredAt(t.questions, observed) == {}
    ensures RetireExpiredSpec(t, observed).value.tables.seeds == t.seeds
    ensures RetireExpiredSpec(t, observed).value.tables.contracts == t.contracts
  {
    assert OpenCandidates(t.(questions := CloseQuestions(t.questions, {})), BoundBy(t.questions, {})) == {};
  }

  /** A transaction that does not advance the binding revision leaves the locked part of the ledger alone. */
  lemma UnboundSameLocked(t: Tables, op: Op, env: Env)
    requires Ledger(t) && ArgumentError(op).None?
    requires Apply(t, op, env).Ok? && !Apply(t, op, env).value.bind
    ensures var u := Apply(t, op, env).value.tables;
            SameLocked(t.seeds, t.contracts, u.seeds, u.contracts)
  {
    hide Apply, LedgerInv, SameLocked;
    ReflexiveLocked(t);
    if op.AnswerQuestion? {
      AnswerLeavesLocked(t, op, env);
    } else if op.RetireExpiredQuestions? {
      UnboundExpiryLeavesLocked(t, op, env);
    } else if OffLedger(op) {
      OffLedgerUntouched(t, op, env);
    } else {
      Frame(t, op, env);
    }
  }

  lemma ReflexiveLocked(t: Tables)
    requires Ledger(t)
    ensures SameLocked(t.seeds, t.contracts, t.seeds, t.contracts)
  {
    SameLockedReflexive(t.seeds, t.contracts);
  }

  ghost predicate LeavesLocked(t: Tables, o: Outcome) {
    o.Ok? ==> SameLocked(t.seeds, t.contracts, o.value.tables.seeds, o.value.tables.contracts)
  }

  lemma AnswerLeavesLocked(t: Tables, op: Op, env: Env)
    requires Ledger(t) && op.AnswerQuestion?
    ensures LeavesLocked(t, Apply(t, op, env))
  {
    hide LedgerInv, SameLocked, AnswerSpec;
    AnswerSameLocked(t, op.manifestHash, op.answer, env.now);
  }

  lemma UnboundExpiryLeavesLocked(t: Tables, op: Op, env: Env)
    requires Ledger(t) && op.RetireExpiredQuestions?
    ensures Apply(t, op, env).Ok? && !Apply(t, op, env).value.bind ==> LeavesLocked(t, Apply(t, op, env))
  {
    hide LedgerInv, SameLocked, Cleanup;
    ReflexiveLocked(t);
    var observed := if op.observedAt.Some? then op.observedAt.value else env.now;
    if ExpiredAt(t.questions, observed) == {} { NothingExpiredSameLedger(t, observed); }
  }
}
