/**
  What a call does, from its arguments to its answer: for every operation, exactly when a
  call under a fresh key at the current revision commits, what it leaves behind and
  answers then, and that otherwise it changes nothing.
  */
module Calls {
  import opened Basics
  import opened EventTypes
  import opened EventSpec
  import opened EventLedger
  import opened LedgerOps
  import opened QuestionMachine
  import opened ArcLedger
  import opened ReviewLedger
  import opened Manifest
  import opened Runs
  import opened Revisions
  import opened Arguments
  import opened Answers
  import opened Effects

  // ----- When a transaction goes through ------------------------------------------------

  ghost predicate AcceptsSeedOp(t: Tables, op: Op)
    requires SeedOp(op)
  {
    match op
    case CreateSeed(p) => !KnownId(t.seeds.Keys, p.id) && PlaceFree(t.seeds, p.context.chain, p.order)
    case SupersedeSeed(id, input, _) => exists k :: LiveSeed(t.seeds, k) && k.id == id && Fits(t.seeds, k, input)
    case AdvanceSeedStatus(k, target, hash) => k in t.seeds && StepForward(t.seeds[k].status, target) && LockedUnder(t.contracts, k, hash)
    case RetireSeed(k, _) => LiveSeed(t.seeds, k)
  }

  ghost predicate AcceptsContractOp(t: Tables, op: Op)
    requires SeedOrContractOp(op) && !SeedOp(op)
  {
    match op
    case ProposeContract(input) => Proposable(t, input)
    case ProposeAndLockContract(input) => Proposable(t, input) && Complete(input.provenance)
    case LockContract(id, expected) =>
      && id in t.contracts && t.contracts[id].status == Proposed
      && expected in {None, Some(t.contracts[id].hash)} && Complete(t.contracts[id].payload.provenance)
    case SupersedeContract(id, input, _, lock) =>
      && id in t.contracts && Active(t.contracts[id].status) && t.contracts[id].payload.seed in t.seeds
      && ContractFits(t, id, input, lock)
    case RetireContract(id, _) =>
      && id in t.contracts && Active(t.contracts[id].status) && t.contracts[id].payload.seed in t.seeds
      && t.seeds[t.contracts[id].payload.seed].status !in {Expanded, Generated}
  }

  ghost predicate AcceptsArcOp(t: Tables, op: Op)
    requires ArcOp(op)
  {
    match op
    case CreateArc(p) =>
      && !KnownId(t.arcs.Keys, p.id) && AllLive(t.seeds, p.seedIds, p.context)
      && forall k :: k in t.arcs && Active(t.arcs[k].status) ==> t.arcs[k].payload.context != p.context
    case LockArc(k, expected) =>
      && k in t.arcs && t.arcs[k].status == Proposed && expected in {None, Some(t.arcs[k].hash)}
      && forall b :: b in t.arcs[k].bindings ==> LiveSeed(t.seeds, b.key)
    case SupersedeArc(id, input, _, _) => exists k :: ActiveArc(t.arcs, k) && k.id == id && ArcFits(t, k, input)
    case RetireArc(k, _) => ActiveArc(t.arcs, k)
  }

  ghost predicate ActiveArc(arcs: Arcs, k: RowKey) { k in arcs && Active(arcs[k].status) }

  ghost predicate AcceptsReviewOp(t: Tables, op: Op, env: Env)
    requires ReviewOp(op)
  {
    match op
    case RecordReview(p, _) => Grounded(t.contracts, p) && InLine(t.reviews, p) && p.id !in t.reviews
    case RetireReview(id, _) => id in t.reviews && t.reviews[id].status == Recorded
    case RecordObservedReview(p, _) => SourceStands(env.source, p) && ObservedInLine(t.observed, p) && p.id !in t.observed
  }

  /** An answer is taken unless its question is unknown, retired, or answered with another option. */
  ghost predicate TakesAnswer(t: Tables, h: Digest, answer: string) {
    && h in t.questions && t.questions[h].status != QuestionRetired
    && (t.questions[h].status == Answered ==>
          forall i :: Picks(t.questions[h].payload, answer, i) ==> Some(t.questions[h].payload.options[i].id) == t.questions[h].selected)
  }

  ghost predicate AcceptsQuestionOp(t: Tables, op: Op)
    requires QuestionOp(op)
  {
    match op
    case OpenQuestion(manifest, _, _) => EntriesAskable(t, manifest.entries) && Sha256(OfSeedManifest(manifest)) !in t.questions
    case AnswerQuestion(h, answer) => TakesAnswer(t, h, answer)
    case RetireExpiredQuestions(_) => true
    case ClaimRuntimeRequest(_) => true
  }

  predicate QuestionOp(op: Op) { op.OpenQuestion? || op.AnswerQuestion? || op.RetireExpiredQuestions? || op.ClaimRuntimeRequest? }

  ghost predicate Accepts(t: Tables, op: Op, env: Env) {
    if SeedOp(op) then AcceptsSeedOp(t, op)
    else if SeedOrContractOp(op) then AcceptsContractOp(t, op)
    else if ArcOp(op) then AcceptsArcOp(t, op)
    else if ReviewOp(op) then AcceptsReviewOp(t, op, env)
    else AcceptsQuestionOp(t, op)
  }

  // ----- What it leaves behind and answers ---------------------------------------------------

  ghost predicate SeedOpDone(t: Tables, op: Op, env: Env, o: Outcome)
    requires SeedOp(op)
  {
    match op
    case CreateSeed(p) => SeedCreated(t, o, p)
    case SupersedeSeed(id, input, reason) =>
      forall k :: LiveSeed(t.seeds, k) && k.id == id ==> SeedReplaced(t, o, k, input, Retirement(env.now, reason))
    case AdvanceSeedStatus(k, target, _) => k in t.seeds && SeedAdvanced(t, o, k, target)
    case RetireSeed(k, reason) => k in t.seeds && SeedIsRetired(t, o, k, Retirement(env.now, reason))
  }

  ghost predicate ContractOpDone(t: Tables, op: Op, env: Env, o: Outcome)
    requires SeedOrContractOp(op) && !SeedOp(op)
  {
    match op
    case ProposeContract(input) => input.seed in t.seeds && ContractProposed(t, o, input)
    case ProposeAndLockContract(input) => input.seed in t.seeds && ContractLockedAtOnce(t, o, input, env.now)
    case LockContract(id, _) => id in t.contracts && ContractIsLocked(t, o, id, env.now)
    case SupersedeContract(id, input, reason, lock) =>
      id in t.contracts && t.contracts[id].payload.seed in t.seeds && ContractReplaced(t, o, id, input, lock, Retirement(env.now, reason))
    case RetireContract(id, reason) =>
      id in t.contracts && t.contracts[id].payload.seed in t.seeds && ContractRetired(t, o, id, Retirement(env.now, reason))
  }

  ghost predicate ArcOpDone(t: Tables, op: Op, env: Env, o: Outcome)
    requires ArcOp(op)
  {
    match op
    case CreateArc(p) => ArcCreated(t, o, p)
    case LockArc(k, _) => k in t.arcs && ArcChanged(t, o, k, t.arcs[k].(status := Locked, lockedAt := Some(env.now)))
    case SupersedeArc(id, input, reason, lock) =>
      forall k :: ActiveArc(t.arcs, k) && k.id == id ==> ArcReplaced(t, o, k, input, lock, Retirement(env.now, reason))
    case RetireArc(k, reason) =>
      k in t.arcs && ArcChanged(t, o, k, t.arcs[k].(status := Retired, retirement := Some(Retirement(env.now, reason))))
  }

  ghost predicate ReviewOpDone(t: Tables, op: Op, env: Env, o: Outcome)
    requires ReviewOp(op)
  {
    match op
    case RecordReview(p, _) => ReviewRecorded(t, o, p)
    case RetireReview(id, reason) => id in t.reviews && ReviewIsRetired(t, o, id, Retirement(env.now, reason))
    case RecordObservedReview(p, _) => ObservedRecorded(t, o, p)
  }

  ghost predicate QuestionOpDone(t: Tables, op: Op, env: Env, o: Outcome)
    requires QuestionOp(op)
  {
    match op
    case OpenQuestion(manifest, q, ttl) => ttl >= 0 && QuestionStored(t, o, manifest, q, env.now + ttl)
    case AnswerQuestion(h, answer) => AnswerDoes(t, h, answer, env.now, o)
    case RetireExpiredQuestions(observedAt) => AllExpiredAndCleanedUp(t, if observedAt.Some? then observedAt.value else env.now, o)
    case ClaimRuntimeRequest(request) => o.Ok? && o.value.tables == t && o.value.body == ClaimBody(Sha256(OfRuntimeRequest(request)))
  }

  ghost predicate Done(t: Tables, op: Op, env: Env, o: Outcome) {
    if SeedOp(op) then SeedOpDone(t, op, env, o)
    else if SeedOrContractOp(op) then ContractOpDone(t, op, env, o)
    else if ArcOp(op) then ArcOpDone(t, op, env, o)
    else if ReviewOp(op) then ReviewOpDone(t, op, env, o)
    else QuestionOpDone(t, op, env, o)
  }

  /** Which counters a commit advances. */
  ghost predicate Counted(op: Op, a: Applied) {
    var both := SeedOrContractOp(op) || ArcOp(op) || op.OpenQuestion? || (op.RetireExpiredQuestions? && a.body.ExpiredBody? && a.body.manifests != {});
    (a.bind <==> both) && (a.advance <==> both || ControlOnly(op, a.body))
  }

  // ----- Every transaction -----------------------------------------------------------------------

  ghost predicate SeedOpGoes(t: Tables, op: Op, env: Env, o: Outcome)
    requires SeedOp(op)
  {
    (o.Ok? <==> AcceptsSeedOp(t, op)) && (o.Ok? ==> SeedOpDone(t, op, env, o))
  }

  lemma SeedOpDecides(t: Tables, op: Op, env: Env)
    requires Ledger(t) && SeedOp(op) && ArgumentsFit(op) && ArgumentError(op).None?
    ensures SeedOpGoes(t, op, env, Apply(t, op, env))
  {
    hide Ledger, LedgerInv, PlaceFree, KnownId, SeedCreated, SeedReplaced, SeedAdvanced, SeedIsRetired, Fits, LockedUnder, ArgumentError;
    hide CreateSeedSpec, SupersedeSeedSpec, AdvanceSeedSpec, RetireSeedSpec;
    match op {
      case CreateSeed(p) => CreateSeedEffect(t, p);
      case SupersedeSeed(id, input, reason) => SupersedeDecides(t, id, input, reason, env.now);
      case AdvanceSeedStatus(k, target, hash) => AdvanceSeedEffect(t, k, target, hash);
      case RetireSeed(k, reason) => RetireSeedEffect(t, k, reason, env.now);
    }
  }

  lemma SupersedeDecides(t: Tables, id: string, input: SeedInput, reason: string, now: nat)
    requires Ledger(t)
    ensures var o := SupersedeSeedSpec(t, id, input, reason, now);
            && (o.Ok? <==> exists k :: LiveSeed(t.seeds, k) && k.id == id && Fits(t.seeds, k, input))
            && (o.Ok? ==> forall k :: LiveSeed(t.seeds, k) && k.id == id ==> SeedReplaced(t, o, k, input, Retirement(now, reason)))
  {
    hide LedgerInv, SupersedeSeedSpec, SeedReplaced, Fits;
    forall k | LiveSeed(t.seeds, k) && k.id == id
      ensures var o := SupersedeSeedSpec(t, id, input, reason, now);
              (o.Ok? <==> Fits(t.seeds, k, input)) && (o.Ok? ==> SeedReplaced(t, o, k, input, Retirement(now, reason)))
    {
      SupersedeSeedEffect(t, k, input, reason, now);
    }
    if forall k :: LiveSeed(t.seeds, k) ==> k.id != id { OnlyLiveSeedsAreSuperseded(t, id, input, reason, now); }
  }

  ghost predicate ContractOpGoes(t: Tables, op: Op, env: Env, o: Outcome)
    requires SeedOrContractOp(op) && !SeedOp(op)
  {
    (o.Ok? <==> AcceptsContractOp(t, op)) && (o.Ok? ==> ContractOpDone(t, op, env, o))
  }

  lemma ContractOpDecides(t: Tables, op: Op, env: Env)
    requires Ledger(t) && SeedOrContractOp(op) && !SeedOp(op) && ArgumentError(op).None?
    ensures ContractOpGoes(t, op, env, Apply(t, op, env))
  {
    hide Ledger, LedgerInv, Complete, ContractFits, ContractProposed, ContractLockedAtOnce, ContractIsLocked, ContractReplaced, ContractRetired;
    hide ProposeContractSpec, ProposeAndLockSpec, LockContractSpec, SupersedeContractSpec, RetireContractSpec, ArgumentError;
    match op {
      case ProposeContract(input) => ProposeContractEffect(t, input, env.now);
      case ProposeAndLockContract(input) => ProposeAndLockEffect(t, input, env.now);
      case LockContract(id, expected) => LockContractEffect(t, id, expected, env.now);
      case SupersedeContract(id, input, reason, lock) => SupersedeContractEffect(t, id, input, reason, lock, env.now);
      case RetireContract(id, reason) => RetireContractEffect(t, id, reason, env.now);
    }
  }

  ghost predicate ArcOpGoes(t: Tables, op: Op, env: Env, o: Outcome)
    requires ArcOp(op)
  {
    (o.Ok? <==> AcceptsArcOp(t, op)) && (o.Ok? ==> ArcOpDone(t, op, env, o))
  }

  lemma ArcOpDecides(t: Tables, op: Op, env: Env)
    requires Ledger(t) && ArcInv(t.arcs) && ArcsBound(t.seeds, t.arcs) && ArcOp(op) && ArgumentsFit(op) && ArgumentError(op).None?
    ensures ArcOpGoes(t, op, env, Apply(t, op, env))
  {
    hide Ledger, LedgerInv, ArcInv, ArcsBound, KnownId, AllLive, LiveSeed, ArcFits, ArcCreated, ArcChanged, ArcReplaced, ArgumentError;
    hide CreateArcSpec, LockArcSpec, SupersedeArcSpec, RetireArcSpec;
    match op {
      case CreateArc(p) => CreateArcEffect(t, p);
      case LockArc(k, expected) => LockArcEffect(t, k, expected, env.now);
      case SupersedeArc(id, input, reason, lock) => SupersedeArcDecides(t, id, input, reason, lock, env.now);
      case RetireArc(k, reason) => RetireArcEffect(t, k, reason, env.now);
    }
  }

  lemma SupersedeArcDecides(t: Tables, id: string, input: ArcInput, reason: string, lock: bool, now: nat)
    requires Ledger(t) && ArcInv(t.arcs)
    ensures var o := SupersedeArcSpec(t, id, input, reason, lock, now);
            && (o.Ok? <==> exists k :: ActiveArc(t.arcs, k) && k.id == id && ArcFits(t, k, input))
            && (o.Ok? ==> forall k :: ActiveArc(t.arcs, k) && k.id == id ==> ArcReplaced(t, o, k, input, lock, Retirement(now, reason)))
  {
    hide LedgerInv, ArcInv, SupersedeArcSpec, ArcReplaced, ArcFits;
    forall k | ActiveArc(t.arcs, k) && k.id == id
      ensures var o := SupersedeArcSpec(t, id, input, reason, lock, now);
              (o.Ok? <==> ArcFits(t, k, input)) && (o.Ok? ==> ArcReplaced(t, o, k, input, lock, Retirement(now, reason)))
    {
      SupersedeArcEffect(t, k, input, reason, lock, now);
    }
    if forall k :: ActiveArc(t.arcs, k) ==> k.id != id { OnlyActiveArcsAreSuperseded(t, id, input, reason, lock, now); }
  }

  lemma OnlyActiveArcsAreSuperseded(t: Tables, id: string, input: ArcInput, reason: string, lock: bool, now: nat)
    requires forall k :: ActiveArc(t.arcs, k) ==> k.id != id
    ensures SupersedeArcSpec(t, id, input, reason, lock, now).Err?
  {
    var latest := Latest(t.arcs.Keys, id);
    if latest.Some? { assert RowKey(id, latest.value) in t.arcs.Keys && !ActiveArc(t.arcs, RowKey(id, latest.value)); }
  }

  ghost predicate ReviewOpGoes(t: Tables, op: Op, env: Env, o: Outcome)
    requires ReviewOp(op)
  {
    (o.Ok? <==> AcceptsReviewOp(t, op, env)) && (o.Ok? ==> ReviewOpDone(t, op, env, o))
  }

  lemma ReviewOpDecides(t: Tables, op: Op, env: Env)
    requires Ledger(t) && ReviewOp(op) && ArgumentError(op).None?
    ensures ReviewOpGoes(t, op, env, Apply(t, op, env))
  {
    hide Ledger, LedgerInv, Grounded, InLine, SourceStands, ObservedInLine, ReviewRecorded, ReviewIsRetired, ObservedRecorded, ArgumentError;
    hide RecordReviewSpec, RetireReviewSpec, RecordObservedSpec;
    match op {
      case RecordReview(p, _) => RecordReviewEffect(t, p);
      case RetireReview(id, reason) => RetireReviewEffect(t, id, reason, env.now);
      case RecordObservedReview(p, _) => RecordObservedEffect(t, p, env.source);
    }
  }

  ghost predicate QuestionOpGoes(t: Tables, op: Op, env: Env, o: Outcome)
    requires QuestionOp(op)
  {
    (o.Ok? <==> AcceptsQuestionOp(t, op)) && (o.Ok? || op.AnswerQuestion? ==> QuestionOpDone(t, op, env, o))
  }

  lemma QuestionOpDecides(t: Tables, op: Op, env: Env)
    requires ContractBound(t.seeds, t.contracts) && QuestionInv(t.seeds, t.questions) && QuestionOp(op) && ArgumentError(op).None?
    ensures QuestionOpGoes(t, op, env, Apply(t, op, env))
  {
    hide QuestionInv, ContractBound, EntriesAskable, QuestionStored, AllExpiredAndCleanedUp, QuestionInputError;
    hide OpenQuestionSpec, AnswerSpec, RetireExpiredSpec, AnswerDoes, TakesAnswer;
    match op {
      case OpenQuestion(manifest, q, ttl) => OpenQuestionDecides(t, manifest, q, ttl, env.now);
      case AnswerQuestion(h, answer) =>
        AnswerDecides(t, h, answer, env.now);
        AnswerIsTaken(t, h, answer, env.now, AnswerSpec(t, h, answer, env.now));
      case RetireExpiredQuestions(observedAt) => RetireExpiredCleansUp(t, if observedAt.Some? then observedAt.value else env.now);
      case ClaimRuntimeRequest(_) =>
    }
  }

  lemma AnswerIsTaken(t: Tables, h: Digest, answer: string, now: nat, o: Outcome)
    requires AnswerDoes(t, h, answer, now, o)
    ensures o.Ok? <==> TakesAnswer(t, h, answer)
  {
    hide Picks, CleanedUp, Due;
    if h in t.questions && t.questions[h].status !in {QuestionRetired, Answered} {
      if i :| Picks(t.questions[h].payload, answer, i) { assert true; }
    }
  }

  lemma TransactionCounts(t: Tables, op: Op, env: Env)
    requires ArgumentError(op).None? && Apply(t, op, env).Ok?
    ensures Counted(op, Apply(t, op, env).value)
  {
    WhichAdvance(t, op, env);
    Frame(t, op, env);
    if op.RetireExpiredQuestions? {
      ExpiryCounts(t, if op.observedAt.Some? then op.observedAt.value else env.now);
      hide RetireExpiredSpec;
    } else {
      hide Apply;
    }
  }

  lemma ExpiryCounts(t: Tables, observed: nat)
    ensures var a := RetireExpiredSpec(t, observed).value; a.body.ExpiredBody? && (a.bind <==> a.body.manifests != {}) && (a.advance <==> a.bind)
  {
    hide Cleanup, CleanupCounts;
  }

  ghost predicate Goes(t: Tables, op: Op, env: Env, o: Outcome) {
    if SeedOp(op) then SeedOpGoes(t, op, env, o)
    else if SeedOrContractOp(op) then ContractOpGoes(t, op, env, o)
    else if ArcOp(op) then ArcOpGoes(t, op, env, o)
    else if ReviewOp(op) then ReviewOpGoes(t, op, env, o)
    else QuestionOpGoes(t, op, env, o)
  }

  lemma TransactionGoes(t: Tables, op: Op, env: Env)
    requires TablesInv(t) && ArgumentsFit(op) && ArgumentError(op).None?
    ensures Goes(t, op, env, Apply(t, op, env))
  {
    TablesParts(t);
    hide TablesInv, LedgerInv, ArcInv, ArcsBound, QuestionInv, ContractBound, Apply, ArgumentsFit, ArgumentError;
    hide SeedOpGoes, ContractOpGoes, ArcOpGoes, ReviewOpGoes, QuestionOpGoes;
    if SeedOp(op) { SeedOpDecides(t, op, env); }
    else if SeedOrContractOp(op) { ContractOpDecides(t, op, env); }
    else if ArcOp(op) { ArcOpDecides(t, op, env); }
    else if ReviewOp(op) { ReviewOpDecides(t, op, env); }
    else { QuestionOpDecides(t, op, env); }
  }

  /** Every transaction goes through exactly when it is acceptable, and then does what it should. */
  lemma TransactionDecides(t: Tables, op: Op, env: Env, o: Outcome)
    requires Goes(t, op, env, o)
    ensures o.Ok? <==> Accepts(t, op, env)
    ensures o.Ok? ==> Done(t, op, env, o)
    ensures op.AnswerQuestion? ==> AnswerDoes(t, op.manifestHash, op.answer, env.now, o)
  {
    hide AcceptsSeedOp, AcceptsContractOp, AcceptsArcOp, AcceptsReviewOp, AcceptsQuestionOp;
    hide SeedOpDone, ContractOpDone, ArcOpDone, ReviewOpDone, AnswerDoes;
  }

  lemma TablesParts(t: Tables)
    requires TablesInv(t)
    ensures Ledger(t) && ArcInv(t.arcs) && ArcsBound(t.seeds, t.arcs) && QuestionInv(t.seeds, t.questions) && ContractBound(t.seeds, t.contracts)
  {
  }

  // ----- Every call ---------------------------------------------------------------------------------

  /** What can be seen of a call: its answer or error, the tables it leaves, and which counters it moved. */
  function Seen(s: State, r: Stepped): Outcome {
    match r.result
    case Err(e) => Err(e)
    case Ok(response) => Ok(Applied(r.state.tables, response.body, r.state.control != s.control, r.state.binding != s.binding))
  }

  /** Each counter stays or moves by one, and the answer carries the new control revision. */
  ghost predicate StepsByOne(s: State, r: Stepped) {
    && r.result.Ok? && r.result.value.controlRevision == r.state.control
    && s.control <= r.state.control <= s.control + 1 && s.binding <= r.state.binding <= s.binding + 1
  }

  /** A call under a fresh key at the current revision commits exactly when its arguments fit and its transaction is acceptable; then it does what it should, and else it changes nothing. */
  lemma FreshCallDecides(s: State, c: Call)
    requires Inv(s) && LogKeyOf(c) !in s.log && c.expected == s.control
    ensures var r := Step(s, c);
            && (r.result.Ok? <==> ArgumentsFit(c.op) && Accepts(s.tables, c.op, c.env))
            && (r.result.Ok? ==>
                  && Done(s.tables, c.op, c.env, Seen(s, r)) && Counted(c.op, Seen(s, r).value) && StepsByOne(s, r))
            && (r.result.Err? ==> r.state == s)
            && (c.op.AnswerQuestion? ==> AnswerDoes(s.tables, c.op.manifestHash, c.op.answer, c.env.now, Seen(s, r)))
  {
    hide Inv, Apply, ArgumentsFit, ArgumentError, Accepts, Done, Counted, Goes, AnswerDoes, Step;
    ArgumentsDecide(c.op);
    if ArgumentsFit(c.op) {
      InvIsTablesInv(s);
      TransactionGoes(s.tables, c.op, c.env);
      TransactionDecides(s.tables, c.op, c.env, Apply(s.tables, c.op, c.env));
      if Apply(s.tables, c.op, c.env).Ok? { TransactionCounts(s.tables, c.op, c.env); }
      SeenIsApplied(s, c);
    } else {
      RefusedBeforehand(s, c);
      AnswersAlwaysFit(c.op);
    }
  }

  lemma InvIsTablesInv(s: State)
    requires Inv(s)
    ensures TablesInv(s.tables)
  {
  }

  lemma AnswersAlwaysFit(op: Op)
    ensures op.AnswerQuestion? ==> ArgumentsFit(op)
  {
  }

  lemma SeenIsApplied(s: State, c: Call)
    requires ArgumentError(c.op).None? && LogKeyOf(c) !in s.log && c.expected == s.control
    ensures Seen(s, Step(s, c)) == Apply(s.tables, c.op, c.env)
    ensures Step(s, c).result.Ok? ==> StepsByOne(s, Step(s, c))
    ensures Step(s, c).result.Err? ==> Step(s, c).state == s
  {
    hide Apply, RequestHash, ArgumentError;
  }

  /** Arguments that do not fit are refused before anything else; a fresh call that expects another revision is refused as stale. Neither changes anything. */
  lemma RefusedBeforehand(s: State, c: Call)
    ensures !ArgumentsFit(c.op) ==> Step(s, c).result.Err? && Step(s, c).state == s
    ensures ArgumentsFit(c.op) && LogKeyOf(c) !in s.log && c.expected != s.control ==> Step(s, c) == Stepped(s, Err(StaleControl))
  {
    hide ArgumentsFit, ArgumentError;
    ArgumentsDecide(c.op);
  }

  /** When open_question, having read this, commits in state s. */
  ghost predicate AskAccepted(read: State, s: State, a: Asking) {
    var m := SeedManifestOf(read.tables.seeds, a.refs);
    && m.Ok? && a.hash == Sha256(OfSeedManifest(m.value)) && QuestionFits(a.question) && 60 <= a.ttl <= 604_800
    && EntriesAskable(s.tables, m.value.entries) && a.hash !in s.tables.questions
  }

  /**
    open_question as a whole, under a fresh key at the current revision: it commits exactly
    when the manifest that was read is the one the caller names, the question fits, and the
    seeds are still askable; then the question is about what was read.
    */
  lemma AskDecides(read: State, s: State, a: Asking)
    requires Inv(s) && LogKey(OpenQuestionOp, a.key) !in s.log && a.expected == s.control
    ensures var r := Ask(read, s, a);
            && (r.result.Ok? <==> AskAccepted(read, s, a))
            && (r.result.Ok? ==>
                  SeedManifestOf(read.tables.seeds, a.refs).Ok? && a.ttl >= 0
                  && QuestionStored(s.tables, Seen(s, r), SeedManifestOf(read.tables.seeds, a.refs).value, a.question, a.env.now + a.ttl))
            && (r.result.Err? ==> r.state == s)
  {
    hide Inv, Step, SeedManifestOf, QuestionFits, EntriesAskable, QuestionStored, Seen;
    if AskRead(read, a).Ok? {
      var c := OpenCall(a, AskRead(read, a).value);
      assert LogKeyOf(c) == LogKey(OpenQuestionOp, a.key);
      FreshCallDecides(s, c);
      hide Counted, StepsByOne;
    }
  }
}
