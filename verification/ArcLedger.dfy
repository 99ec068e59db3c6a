/**
  Invariants of the arc table.

  One arc per context is checked by create_arc alone. ArcsStayUnique gives the exact
  condition under which superseding an arc keeps it; every other operation keeps it.
  */
module ArcLedger {
  import opened Basics
  import opened EventTypes
  import opened EventSpec
  import opened EventLedger
  import opened LedgerOps
  import opened QuestionMachine

  // ----- Arcs ----------------------------------------------------------------------------

  ghost predicate ArcShape(arcs: Arcs) {
    forall k :: k in arcs ==>
      && k.rev >= 1 && arcs[k].payload.Key() == k
      && arcs[k].hash == Sha256(OfArc(arcs[k].payload, arcs[k].bindings))
      && BindingsFollow(arcs[k].bindings, arcs[k].payload.seedIds)
  }

  ghost predicate BindingsFollow(bindings: seq<SeedBinding>, ids: seq<string>) {
    |bindings| == |ids| && forall i :: 0 <= i < |ids| ==> bindings[i].key.id == ids[i]
  }

  ghost predicate RetiredArc(arcs: Arcs, k: RowKey) { k in arcs && arcs[k].status == Retired }

  /** Revisions of one arc are 1..n, and all but the last are retired. */
  ghost predicate ArcLineage(arcs: Arcs) {
    forall k, r :: k in arcs && 1 <= r < k.rev ==> RetiredArc(arcs, RowKey(k.id, r))
  }

  ghost predicate ArcInv(arcs: Arcs) { ArcShape(arcs) && ArcLineage(arcs) }

  ghost predicate ArcKept(a: ArcRow, b: ArcRow) {
    && b.payload == a.payload && b.hash == a.hash && b.bindings == a.bindings
    && (a.status == Retired ==> b == a)
    && (a.status == Locked ==> b.status in {Locked, Retired})
  }

  ghost predicate ArcsKept(arcs: Arcs, arcs': Arcs) {
    forall k :: k in arcs ==> k in arcs' && ArcKept(arcs[k], arcs'[k])
  }

  ghost predicate ArcsGo(t: Tables, o: Outcome) {
    o.Ok? ==> ArcInv(o.value.tables.arcs) && ArcsKept(t.arcs, o.value.tables.arcs)
  }

  lemma {:induction false} BoundInOrder(seeds: Seeds, ids: seq<string>, context: Context)
    ensures BindArcSeeds(seeds, ids, context).Ok? ==> BindingsFollow(BindArcSeeds(seeds, ids, context).value, ids)
  {
    if ids != [] { BoundInOrder(seeds, ids[1..], context); }
  }

  /** Locking an arc can only fail because a bound seed moved on: the binding list itself is never at fault. */
  lemma {:induction false} OnlyStaleBindings(seeds: Seeds, ids: seq<string>, bindings: seq<SeedBinding>, chain: string)
    requires BindingsFollow(bindings, ids)
    ensures ArcBindingError(seeds, ids, bindings, chain) in {None, Some(ArcBindingStale)}
    ensures ArcBindingError(seeds, ids, bindings, chain) == None
            <==> forall b :: b in bindings ==> BindingFresh(seeds, b, chain)
  {
    if bindings != [] {
      assert BindingsFollow(bindings[1..], ids[1..]);
      OnlyStaleBindings(seeds, ids[1..], bindings[1..], chain);
      assert bindings[0].key.id == ids[0];
      assert (forall b :: b in bindings ==> BindingFresh(seeds, b, chain))
          <==> BindingFresh(seeds, bindings[0], chain) && forall b :: b in bindings[1..] ==> BindingFresh(seeds, b, chain);
    }
  }

  ghost predicate BindingFresh(seeds: Seeds, b: SeedBinding, chain: string) {
    && b.key in seeds && seeds[b.key].status != SeedRetired && seeds[b.key].hash == b.hash
    && seeds[b.key].payload.context.chain == chain
  }

  lemma AddArc(arcs: Arcs, row: ArcRow)
    requires ArcInv(arcs)
    requires row.payload.rev >= 1 && row.payload.Key() !in arcs && row.hash == Sha256(OfArc(row.payload, row.bindings))
    requires BindingsFollow(row.bindings, row.payload.seedIds)
    requires forall r :: 1 <= r < row.payload.rev ==> RetiredArc(arcs, RowKey(row.payload.id, r))
    ensures ArcInv(arcs[row.payload.Key() := row]) && ArcsKept(arcs, arcs[row.payload.Key() := row])
  {
    var arcs' := arcs[row.payload.Key() := row];
    forall k, r | k in arcs' && 1 <= r < k.rev ensures RetiredArc(arcs', RowKey(k.id, r)) {
      assert RetiredArc(arcs, RowKey(k.id, r));
    }
  }

  lemma RestateArcs(arcs: Arcs, arcs': Arcs)
    requires ArcInv(arcs) && arcs'.Keys == arcs.Keys && ArcsKept(arcs, arcs')
    ensures ArcInv(arcs')
  {
    forall k, r | k in arcs' && 1 <= r < k.rev ensures RetiredArc(arcs', RowKey(k.id, r)) {
      assert RetiredArc(arcs, RowKey(k.id, r));
    }
  }

  lemma ArcsKeptTransitive(a: Arcs, b: Arcs, c: Arcs)
    requires ArcsKept(a, b) && ArcsKept(b, c)
    ensures ArcsKept(a, c)
  {
    forall k | k in a ensures k in c && ArcKept(a[k], c[k]) {
      assert ArcKept(a[k], b[k]) && ArcKept(b[k], c[k]);
    }
  }

  lemma RetireArcRowsGoes(arcs: Arcs, ks: set<RowKey>, mark: Retirement)
    requires ArcInv(arcs) && forall k :: k in ks && k in arcs ==> Active(arcs[k].status)
    ensures ArcInv(RetireArcRows(arcs, ks, mark)) && ArcsKept(arcs, RetireArcRows(arcs, ks, mark))
  {
    RestateArcs(arcs, RetireArcRows(arcs, ks, mark));
  }

  lemma CreateArcGoes(t: Tables, p: ArcPayload)
    requires ArcInv(t.arcs) && p.rev == 1
    ensures ArcsGo(t, CreateArcSpec(t, p))
  {
    BoundInOrder(t.seeds, p.seedIds, p.context);
    if CreateArcSpec(t, p).Ok? { AddArc(t.arcs, CreateArcSpec(t, p).value.body.arc); }
  }

  lemma LockArcGoes(t: Tables, key: RowKey, expected: Option<Digest>, now: nat)
    requires ArcInv(t.arcs)
    ensures ArcsGo(t, LockArcSpec(t, key, expected, now))
    ensures LockArcSpec(t, key, expected, now).Err? ==> LockArcSpec(t, key, expected, now).error !in {ArcBindingMissing, ArcBindingInvalid}
  {
    if key in t.arcs {
      var row := t.arcs[key];
      assert BindingsFollow(row.bindings, row.payload.seedIds);
      hide ArcInv, ArcsKept, ArcBindingError;
      OnlyStaleBindings(t.seeds, row.payload.seedIds, row.bindings, row.payload.context.chain);
      OneArcLocked(t.arcs, key, now);
    }
  }

  lemma OneArcLocked(arcs: Arcs, key: RowKey, now: nat)
    requires ArcInv(arcs) && key in arcs
    ensures var arcs' := arcs[key := arcs[key].(status := Locked, lockedAt := Some(now))];
            arcs[key].status == Proposed ==> ArcInv(arcs') && ArcsKept(arcs, arcs')
  {
    if arcs[key].status == Proposed { RestateArcs(arcs, arcs[key := arcs[key].(status := Locked, lockedAt := Some(now))]); }
  }

  lemma RetireArcGoes(t: Tables, key: RowKey, reason: string, now: nat)
    requires ArcInv(t.arcs)
    ensures ArcsGo(t, RetireArcSpec(t, key, reason, now))
  {
    if RetireArcSpec(t, key, reason, now).Ok? { RetireArcRowsGoes(t.arcs, {key}, Retirement(now, reason)); }
  }

  lemma SupersedeArcGoes(t: Tables, id: string, input: ArcInput, reason: string, lock: bool, now: nat)
    requires ArcInv(t.arcs)
    ensures ArcsGo(t, SupersedeArcSpec(t, id, input, reason, lock, now))
  {
    var o := SupersedeArcSpec(t, id, input, reason, lock, now);
    BoundInOrder(t.seeds, input.seedIds, input.context);
    if o.Ok? {
      var key := RowKey(id, Latest(t.arcs.Keys, id).value);
      SupersedeLatestArc(t.arcs, key, o.value.body.arc, Retirement(now, reason));
    }
  }

  lemma SupersedeLatestArc(arcs: Arcs, key: RowKey, row: ArcRow, mark: Retirement)
    requires ArcInv(arcs) && IsLatest(arcs.Keys, key.id, key.rev) && Active(arcs[key].status)
    requires row.payload.Key() == RowKey(key.id, key.rev + 1) && row.hash == Sha256(OfArc(row.payload, row.bindings))
    requires BindingsFollow(row.bindings, row.payload.seedIds)
    ensures var arcs' := RetireArcRows(arcs, {key}, mark)[row.payload.Key() := row];
            ArcInv(arcs') && ArcsKept(arcs, arcs')
  {
    var arcs1 := RetireArcRows(arcs, {key}, mark);
    RetireArcRowsGoes(arcs, {key}, mark);
    forall r | 1 <= r < row.payload.rev ensures RetiredArc(arcs1, RowKey(row.payload.id, r)) {
      if r < key.rev { assert RetiredArc(arcs, RowKey(key.id, r)); }
    }
    AddArc(arcs1, row);
    ArcsKeptTransitive(arcs, arcs1, arcs1[row.payload.Key() := row]);
  }

  lemma CleanupArcs(t: Tables, bindings: set<SeedBinding>, mark: Retirement)
    requires ArcInv(t.arcs)
    ensures ArcInv(Cleanup(t, bindings, mark).arcs) && ArcsKept(t.arcs, Cleanup(t, bindings, mark).arcs)
  {
    RetireArcRowsGoes(t.arcs, ProposedArcsOver(t.arcs, OpenCandidates(t, bindings)), mark);
  }

  lemma AnswerArcs(t: Tables, h: Digest, answer: string, now: nat)
    requires ArcInv(t.arcs)
    ensures ArcsGo(t, AnswerSpec(t, h, answer, now))
  {
    AnswerShape(t, h, answer, now);
    ArcsKeptReflexive(t.arcs);
    hide ArcInv, ArcsKept, AnswerSpec, Cleanup, CleanupCounts;
    if h in t.questions {
      var bindings := AsSet(t.questions[h].payload.bindings);
      CleanupArcs(CloseQuestion(t, h), bindings, Retirement(now, TTL_EXPIRED));
      CleanupArcs(CloseQuestion(t, h), bindings, Retirement(now, CANCELLED));
    }
  }

  lemma RetireExpiredArcs(t: Tables, observed: nat)
    requires ArcInv(t.arcs)
    ensures ArcsGo(t, RetireExpiredSpec(t, observed))
  {
    var hs := ExpiredAt(t.questions, observed);
    CleanupArcs(t.(questions := CloseQuestions(t.questions, hs)), BoundBy(t.questions, hs), Retirement(observed, TTL_EXPIRED));
  }

  lemma ArcsKeptReflexive(arcs: Arcs)
    ensures ArcsKept(arcs, arcs)
  {
  }

  ghost predicate OffArcs(op: Op) {
    !op.CreateArc? && !op.LockArc? && !op.SupersedeArc? && !op.RetireArc? && !op.RetireExpiredQuestions? && !op.AnswerQuestion?
  }

  ghost predicate ArcsUntouched(t: Tables, o: Outcome) { o.Ok? ==> o.value.tables.arcs == t.arcs }

  lemma OffArcsUntouched(t: Tables, op: Op, env: Env)
    requires OffArcs(op) && ArgumentError(op).None?
    ensures ArcsUntouched(t, Apply(t, op, env))
  {
    Frame(t, op, env);
    hide Apply;
  }

  lemma ArcOpGoes(t: Tables, op: Op, env: Env)
    requires ArcInv(t.arcs) && ArcOp(op) && ArgumentError(op).None?
    ensures ArcsGo(t, Apply(t, op, env))
  {
    hide ArcInv, ArcsGo;
    match op {
      case CreateArc(p) => CreateArcGoes(t, p);
      case LockArc(key, expected) => LockArcGoes(t, key, expected, env.now);
      case SupersedeArc(id, input, reason, lock) => SupersedeArcGoes(t, id, input, reason, lock, env.now);
      case RetireArc(key, reason) => RetireArcGoes(t, key, reason, env.now);
    }
  }

  lemma QuestionOpGoes(t: Tables, op: Op, env: Env)
    requires ArcInv(t.arcs) && (op.RetireExpiredQuestions? || op.AnswerQuestion?)
    ensures ArcsGo(t, Apply(t, op, env))
  {
    hide ArcInv, ArcsGo;
    match op {
      case AnswerQuestion(h, answer) => AnswerArcs(t, h, answer, env.now);
      case RetireExpiredQuestions(_) => RetireExpiredArcs(t, if op.observedAt.Some? then op.observedAt.value else env.now);
    }
  }

  lemma ApplyKeepsArcs(t: Tables, op: Op, env: Env)
    requires ArcInv(t.arcs) && ArgumentError(op).None?
    ensures ArcsGo(t, Apply(t, op, env))
  {
    hide Apply, ArcInv, ArcsKept;
    ArcsKeptReflexive(t.arcs);
    if ArcOp(op) { ArcOpGoes(t, op, env); }
    else if op.RetireExpiredQuestions? || op.AnswerQuestion? { QuestionOpGoes(t, op, env); }
    else { OffArcsUntouched(t, op, env); }
  }

  // ----- What the bindings of an arc name ---------------------------------------------------------

  /** A live revision of this seed id in this context. */
  ghost predicate LiveIn(seeds: Seeds, k: RowKey, id: string, context: Context) {
    k in seeds && k.id == id && seeds[k].status != SeedRetired && seeds[k].payload.context == context
  }

  ghost predicate HasLive(seeds: Seeds, id: string, context: Context) { exists k :: LiveIn(seeds, k, id, context) }

  ghost predicate AllLive(seeds: Seeds, ids: seq<string>, context: Context) {
    forall i :: 0 <= i < |ids| ==> HasLive(seeds, ids[i], context)
  }

  ghost predicate BoundTo(seeds: Seeds, b: SeedBinding, context: Context) {
    b.key in seeds && seeds[b.key].hash == b.hash && seeds[b.key].payload.context == context
  }

  /** Every binding names a stored seed revision under its hash, in the arc's own context. */
  ghost predicate BoundIn(seeds: Seeds, row: ArcRow) {
    forall i :: 0 <= i < |row.bindings| ==> BoundTo(seeds, row.bindings[i], row.payload.context)
  }

  ghost predicate ArcsBound(seeds: Seeds, arcs: Arcs) { forall k :: k in arcs ==> BoundIn(seeds, arcs[k]) }

  /** Latest among the live revisions is the live revision: there is only one. */
  lemma LiveIsLatest(seeds: Seeds, k: RowKey)
    requires SeedShape(seeds) && SeedLineage(seeds) && k in seeds && seeds[k].status != SeedRetired
    ensures Latest(LiveSeeds(seeds), k.id) == Some(k.rev)
  {
    assert k in LiveSeeds(seeds);
    var rev := Latest(LiveSeeds(seeds), k.id).value;
    assert RowKey(k.id, rev) in LiveSeeds(seeds);
    assert 1 <= k.rev < rev ==> RetiredSeed(seeds, RowKey(k.id, k.rev));
  }

  /** Seeds are bound exactly when each has a live revision in the arc's context, and then to that revision. */
  lemma {:induction false} BindsLiveSeeds(seeds: Seeds, ids: seq<string>, context: Context)
    requires SeedShape(seeds) && SeedLineage(seeds)
    ensures BindArcSeeds(seeds, ids, context).Ok? <==> AllLive(seeds, ids, context)
    ensures BindArcSeeds(seeds, ids, context).Ok? ==>
              var bs := BindArcSeeds(seeds, ids, context).value;
              && |bs| == |ids|
              && forall i :: 0 <= i < |ids| ==> LiveIn(seeds, bs[i].key, ids[i], context) && BoundTo(seeds, bs[i], context)
  {
    if ids != [] {
      BindsLiveSeeds(seeds, ids[1..], context);
      BindsFirst(seeds, ids, context);
      assert forall i :: 1 <= i < |ids| ==> ids[i] == ids[1..][i - 1];
      assert forall i :: 0 <= i < |ids[1..]| ==> ids[1..][i] == ids[i + 1];
    }
  }

  lemma BindsFirst(seeds: Seeds, ids: seq<string>, context: Context)
    requires SeedShape(seeds) && SeedLineage(seeds) && ids != []
    ensures BindArcSeeds(seeds, ids, context).Ok? <==>
              HasLive(seeds, ids[0], context) && BindArcSeeds(seeds, ids[1..], context).Ok?
    ensures BindArcSeeds(seeds, ids, context).Ok? ==>
              var bs := BindArcSeeds(seeds, ids, context).value;
              && bs != [] && bs[1..] == BindArcSeeds(seeds, ids[1..], context).value
              && LiveIn(seeds, bs[0].key, ids[0], context) && BoundTo(seeds, bs[0], context)
  {
    var latest := Latest(LiveSeeds(seeds), ids[0]);
    if k :| LiveIn(seeds, k, ids[0], context) { LiveIsLatest(seeds, k); }
    if latest.Some? {
      assert RowKey(ids[0], latest.value) in LiveSeeds(seeds);
      assert seeds[RowKey(ids[0], latest.value)].payload.context == context ==> LiveIn(seeds, RowKey(ids[0], latest.value), ids[0], context);
    }
  }

  lemma BoundStays(seeds: Seeds, seeds': Seeds, row: ArcRow)
    requires BoundIn(seeds, row) && SeedsKept(seeds, seeds')
    ensures BoundIn(seeds', row)
  {
    forall i | 0 <= i < |row.bindings| ensures BoundTo(seeds', row.bindings[i], row.payload.context) {
      assert BoundTo(seeds, row.bindings[i], row.payload.context);
      assert SeedKept(seeds[row.bindings[i].key], seeds'[row.bindings[i].key]);
    }
  }

  ghost predicate NewOnesBound(t: Tables, o: Outcome) {
    o.Ok? ==> forall k :: k in o.value.tables.arcs && k !in t.arcs ==> BoundIn(t.seeds, o.value.tables.arcs[k])
  }

  lemma CreatesBound(t: Tables, p: ArcPayload)
    requires Ledger(t)
    ensures NewOnesBound(t, CreateArcSpec(t, p))
  {
    BindsLiveSeeds(t.seeds, p.seedIds, p.context);
    hide BindArcSeeds;
  }

  lemma SupersedesBound(t: Tables, id: string, input: ArcInput, reason: string, lock: bool, now: nat)
    requires Ledger(t)
    ensures NewOnesBound(t, SupersedeArcSpec(t, id, input, reason, lock, now))
  {
    BindsLiveSeeds(t.seeds, input.seedIds, input.context);
    hide LedgerInv, Latest, BindArcSeeds, ArcInputError, BoundTo;
  }

  lemma NoOthersBound(t: Tables, op: Op, env: Env)
    requires ArgumentError(op).None? && !op.CreateArc? && !op.SupersedeArc?
    ensures NewOnesBound(t, Apply(t, op, env))
  {
    StatusOnly(t, op, env);
    hide Apply;
  }

  /** Every operation keeps what the bindings of arcs name. */
  lemma ApplyKeepsBindings(t: Tables, op: Op, env: Env)
    requires Ledger(t) && ArcInv(t.arcs) && ArcsBound(t.seeds, t.arcs) && ArgumentError(op).None?
    ensures Apply(t, op, env).Ok? ==> ArcsBound(Apply(t, op, env).value.tables.seeds, Apply(t, op, env).value.tables.arcs)
  {
    ApplyKeeps(t, op, env);
    ApplyKeepsArcs(t, op, env);
    hide ArcInv, NewOnesBound, LedgerInv, ContractsKept, ClosedKept, ArcsBound, BoundIn;
    match op {
      case CreateArc(p) => CreatesBound(t, p);
      case SupersedeArc(id, input, reason, lock) => SupersedesBound(t, id, input, reason, lock, env.now);
      case _ => NoOthersBound(t, op, env);
    }
    if Apply(t, op, env).Ok? { BindingsFollowSeeds(t, Apply(t, op, env)); }
  }

  lemma BindingsFollowSeeds(t: Tables, o: Outcome)
    requires o.Ok? && ArcsBound(t.seeds, t.arcs) && NewOnesBound(t, o)
    requires SeedsKept(t.seeds, o.value.tables.seeds) && ArcsKept(t.arcs, o.value.tables.arcs)
    ensures ArcsBound(o.value.tables.seeds, o.value.tables.arcs)
  {
    var u := o.value.tables;
    forall k | k in u.arcs ensures BoundIn(u.seeds, u.arcs[k]) {
      if k in t.arcs { assert ArcKept(t.arcs[k], u.arcs[k]) && BoundIn(t.seeds, t.arcs[k]); }
      assert BoundIn(t.seeds, u.arcs[k]);
      BoundStays(t.seeds, u.seeds, u.arcs[k]);
    }
  }

  // ----- One active arc per context -------------------------------------------------------------

  ghost predicate ArcsUnique(arcs: Arcs) {
    forall j, k :: j in arcs && k in arcs && j != k && Active(arcs[j].status) && Active(arcs[k].status)
      ==> arcs[j].payload.context != arcs[k].payload.context
  }

  /** Another arc is active in this context. */
  ghost predicate ContextTaken(arcs: Arcs, id: string, context: Context) {
    exists k :: k in arcs && Active(arcs[k].status) && k.id != id && arcs[k].payload.context == context
  }

  /** create_arc keeps one active arc per context. */
  lemma CreateArcStaysUnique(t: Tables, p: ArcPayload)
    requires ArcsUnique(t.arcs)
    ensures CreateArcSpec(t, p).Ok? ==> ArcsUnique(CreateArcSpec(t, p).value.tables.arcs)
  {
  }

  /** supersede_arc keeps it exactly when no other arc is active in the context it moves to. */
  lemma ArcsStayUnique(t: Tables, id: string, input: ArcInput, reason: string, lock: bool, now: nat)
    requires ArcInv(t.arcs) && ArcsUnique(t.arcs)
    requires SupersedeArcSpec(t, id, input, reason, lock, now).Ok?
    ensures ArcsUnique(SupersedeArcSpec(t, id, input, reason, lock, now).value.tables.arcs)
            <==> !ContextTaken(t.arcs, id, input.context)
  {
    var key := RowKey(id, Latest(t.arcs.Keys, id).value);
    var row := SupersedeArcSpec(t, id, input, reason, lock, now).value.body.arc;
    UniqueAfterSuperseding(t.arcs, key, row, Retirement(now, reason));
  }

  lemma UniqueAfterSuperseding(arcs: Arcs, key: RowKey, row: ArcRow, mark: Retirement)
    requires ArcInv(arcs) && ArcsUnique(arcs) && IsLatest(arcs.Keys, key.id, key.rev)
    requires row.payload.Key() == RowKey(key.id, key.rev + 1) && Active(row.status)
    ensures ArcsUnique(RetireArcRows(arcs, {key}, mark)[row.payload.Key() := row])
            <==> !ContextTaken(arcs, key.id, row.payload.context)
  {
    var added := row.payload.Key();
    var arcs' := RetireArcRows(arcs, {key}, mark)[added := row];
    forall k | k in arcs && k.id == key.id && k != key ensures arcs[k].status == Retired {
      assert RetiredArc(arcs, RowKey(key.id, k.rev));
    }
    assert added in arcs' && arcs'[added] == row;
    if ContextTaken(arcs, key.id, row.payload.context) {
      var k :| k in arcs && Active(arcs[k].status) && k.id != key.id && arcs[k].payload.context == row.payload.context;
      assert k in arcs' && arcs'[k] == arcs[k] && k != added;
      assert arcs'[added].payload.context == arcs'[k].payload.context;
    }
  }

  /** Arcs that only changed in status, and none back to an active one. */
  ghost predicate NoneActivated(arcs: Arcs, arcs': Arcs) {
    && arcs'.Keys == arcs.Keys
    && forall k :: k in arcs ==> arcs'[k].payload == arcs[k].payload && (Active(arcs'[k].status) ==> Active(arcs[k].status))
  }

  lemma NoneActivatedStaysUnique(arcs: Arcs, arcs': Arcs)
    requires ArcsUnique(arcs) && NoneActivated(arcs, arcs')
    ensures ArcsUnique(arcs')
  {
    forall j, k | j in arcs' && k in arcs' && j != k && Active(arcs'[j].status) && Active(arcs'[k].status)
      ensures arcs'[j].payload.context != arcs'[k].payload.context
    {
      assert arcs[j].payload.context != arcs[k].payload.context;
    }
  }

  ghost predicate Deactivates(t: Tables, o: Outcome) { o.Ok? ==> NoneActivated(t.arcs, o.value.tables.arcs) }

  lemma AnswerDeactivates(t: Tables, h: Digest, answer: string, now: nat)
    ensures Deactivates(t, AnswerSpec(t, h, answer, now))
  {
    AnswerShape(t, h, answer, now);
    hide AnswerSpec, OpenCandidates, CandidateCounts;
  }

  lemma ArcOpsDeactivate(t: Tables, key: RowKey, expected: Option<Digest>, reason: string, now: nat)
    ensures Deactivates(t, LockArcSpec(t, key, expected, now))
    ensures Deactivates(t, RetireArcSpec(t, key, reason, now))
  {
    hide ArcBindingError;
  }

  lemma ExpiryDeactivates(t: Tables, observed: nat)
    ensures Deactivates(t, RetireExpiredSpec(t, observed))
  {
    hide OpenCandidates, CandidateCounts, BoundBy, ExpiredAt, CloseQuestions, RetireSeedRows, RetireContractRows, ProposedOn, ProposedArcsOver;
  }

  /** Every operation but supersede_arc keeps one active arc per context. */
  lemma OthersStayUnique(t: Tables, op: Op, env: Env)
    requires ArcsUnique(t.arcs) && !op.SupersedeArc? && ArgumentError(op).None?
    ensures Apply(t, op, env).Ok? ==> ArcsUnique(Apply(t, op, env).value.tables.arcs)
  {
    if op.CreateArc? {
      CreateArcStaysUnique(t, op.arc);
    } else {
      StatusOnly(t, op, env);
      if Apply(t, op, env).Ok? { NoneActivatedStaysUnique(t.arcs, Apply(t, op, env).value.tables.arcs); }
    }
  }

  lemma StatusOnly(t: Tables, op: Op, env: Env)
    requires !op.SupersedeArc? && !op.CreateArc? && ArgumentError(op).None?
    ensures Deactivates(t, Apply(t, op, env))
  {
    hide NoneActivated;
    match op {
      case LockArc(key, expected) => ArcOpsDeactivate(t, key, expected, "", env.now);
      case RetireArc(key, reason) => ArcOpsDeactivate(t, key, None, reason, env.now);
      case RetireExpiredQuestions(_) => ExpiryDeactivates(t, if op.observedAt.Some? then op.observedAt.value else env.now);
      case AnswerQuestion(h, answer) => AnswerDeactivates(t, h, answer, env.now);
      case _ =>
        OffArcsUntouched(t, op, env);
        NoneActivatedReflexive(t.arcs);
    }
  }

  lemma NoneActivatedReflexive(arcs: Arcs)
    ensures NoneActivated(arcs, arcs)
  {
  }
}
