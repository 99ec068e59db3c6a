/**
  Whole runs of the control plane: what holds in every reachable state, and what every
  later state keeps of an earlier one, whatever calls were made in between.
  */
module Runs {
  import opened Basics
  import opened EventTypes
  import opened EventSpec
  import opened EventLedger
  import opened LedgerOps
  import opened QuestionMachine
  import opened ArcLedger
  import opened ReviewLedger

  ghost predicate TablesInv(t: Tables) {
    && Ledger(t) && QuestionInv(t.seeds, t.questions)
    && ArcInv(t.arcs) && ArcsBound(t.seeds, t.arcs)
    && ReviewInv(t.contracts, t.reviews) && ObservedInv(t.observed)
  }

  ghost predicate TablesKept(t: Tables, u: Tables) {
    && LedgerEvolves(t, u) && QuestionsKept(t.questions, u.questions) && ArcsKept(t.arcs, u.arcs)
    && ReviewsKept(t.reviews, u.reviews) && ObservedKept(t.observed, u.observed)
  }

  ghost predicate Inv(s: State) { TablesInv(s.tables) && s.binding <= s.control }

  ghost predicate LogKept(log: map<LogKey, LogEntry>, log': map<LogKey, LogEntry>) {
    forall k :: k in log ==> k in log' && log'[k] == log[k]
  }

  /** What s' keeps of an earlier s. */
  ghost predicate Later(s: State, s': State) {
    && TablesKept(s.tables, s'.tables)
    && LogKept(s.log, s'.log)
    && s.control <= s'.control && s.binding <= s'.binding
    && s'.binding - s.binding <= s'.control - s.control
  }

  // ----- One transaction ---------------------------------------------------------------

  lemma TransactionKeeps(t: Tables, op: Op, env: Env)
    requires TablesInv(t) && ArgumentError(op).None?
    ensures Apply(t, op, env).Ok? ==> TablesInv(Apply(t, op, env).value.tables) && TablesKept(t, Apply(t, op, env).value.tables)
  {
    ApplyKeeps(t, op, env);
    ApplyKeepsQuestions(t, op, env);
    ApplyKeepsArcs(t, op, env);
    ApplyKeepsBindings(t, op, env);
    hide LedgerInv, Evolves, QuestionInv, QuestionsKept, ArcInv, ArcsKept, ArcsBound, ReviewInv, ReviewsKept, ObservedInv, ObservedKept;
    ApplyKeepsReviews(t, op, env);
    ApplyKeepsObserved(t, op, env);
  }

  /** The binding revision only advances together with the control revision. */
  lemma BindingImpliesAdvance(t: Tables, op: Op, env: Env)
    requires ArgumentError(op).None?
    ensures Apply(t, op, env).Ok? && Apply(t, op, env).value.bind ==> Apply(t, op, env).value.advance
  {
    Frame(t, op, env);
    hide Apply;
  }

  // ----- Reflexivity and transitivity ------------------------------------------------------

  lemma LaterReflexive(s: State)
    ensures Later(s, s)
  {
  }

  lemma TablesKeptTransitive(t: Tables, u: Tables, v: Tables)
    requires TablesKept(t, u) && TablesKept(u, v)
    ensures TablesKept(t, v)
  {
    EvolvesTransitive(t.seeds, t.contracts, u.seeds, u.contracts, v.seeds, v.contracts);
    QuestionsKeptTransitive(t.questions, u.questions, v.questions);
    ArcsKeptTransitive(t.arcs, u.arcs, v.arcs);
    ReviewsKeptTransitive(t.reviews, u.reviews, v.reviews);
    ObservedKeptTransitive(t.observed, u.observed, v.observed);
  }

  lemma LaterTransitive(a: State, b: State, c: State)
    requires Later(a, b) && Later(b, c)
    ensures Later(a, c)
  {
    TablesKeptTransitive(a.tables, b.tables, c.tables);
  }

  // ----- One call, a run --------------------------------------------------------------------

  /** A call that reached its commit. */
  ghost predicate Committed(s: State, c: Call) {
    && ArgumentError(c.op).None?
    && LogKeyOf(c) !in s.log
    && s.control == c.expected
    && Apply(s.tables, c.op, c.env).Ok?
  }

  lemma StepCommits(s: State, c: Call)
    ensures Committed(s, c) ==> Step(s, c) == Commit(s, c, Apply(s.tables, c.op, c.env).value)
    ensures !Committed(s, c) ==> Step(s, c).state == s
  {
  }

  lemma CommitKeeps(s: State, c: Call, a: Applied)
    requires TablesInv(a.tables) && TablesKept(s.tables, a.tables) && s.binding <= s.control
    requires LogKeyOf(c) !in s.log && (a.bind ==> a.advance)
    ensures Inv(Commit(s, c, a).state) && Later(s, Commit(s, c, a).state)
  {
  }

  /** Every call keeps the invariant, and keeps of the state what is permanent. */
  lemma StepKeeps(s: State, c: Call)
    requires Inv(s)
    ensures Inv(Step(s, c).state) && Later(s, Step(s, c).state)
  {
    StepCommits(s, c);
    if Committed(s, c) {
      TransactionKeeps(s.tables, c.op, c.env);
      BindingImpliesAdvance(s.tables, c.op, c.env);
      CommitKeeps(s, c, Apply(s.tables, c.op, c.env).value);
    } else {
      LaterReflexive(s);
    }
  }

  /** Every run keeps the invariant, and keeps of its first state what is permanent. */
  lemma {:induction false} RunKeeps(s: State, calls: seq<Call>)
    requires Inv(s)
    ensures Inv(Run(s, calls)) && Later(s, Run(s, calls))
    decreases |calls|
  {
    if calls == [] {
      LaterReflexive(s);
    } else {
      var next := Step(s, calls[0]).state;
      StepKeeps(s, calls[0]);
      RunKeeps(next, calls[1..]);
      LaterTransitive(s, next, Run(s, calls));
    }
  }

  lemma EmptyInv()
    ensures Inv(EMPTY)
  {
  }

  lemma {:induction false} RunSplits(s: State, first: seq<Call>, second: seq<Call>)
    ensures Run(s, first + second) == Run(Run(s, first), second)
    decreases |first|
  {
    if first == [] {
      assert first + second == second;
    } else {
      assert (first + second)[0] == first[0] && (first + second)[1..] == first[1..] + second;
      hide Step;
      RunSplits(Step(s, first[0]).state, first[1..], second);
    }
  }

  // ----- Seeds and contracts in every reachable state -----------------------------------------------

  function LockedOn(contracts: Contracts, k: RowKey): set<string> {
    set c | c in contracts && contracts[c].payload.seed == k && contracts[c].status == Locked
  }

  /** A seed row and the contracts of its revision. */
  ghost predicate BoundAsStored(seeds: Seeds, contracts: Contracts, k: RowKey)
    requires k in seeds
  {
    var row := seeds[k];
    var active := ActiveOn(contracts, {k});
    && (LockedType(row.status) <==>
          && row.contractId.Some? && LockedOn(contracts, k) == {row.contractId.value}
          && row.contractHash == Some(contracts[row.contractId.value].hash))
    && (row.status == Seeded ==>
          && row.contractId.None? && row.contractHash.None?
          && |active| <= 1 && forall c :: c in active ==> contracts[c].status == Proposed)
    && (row.status == SeedRetired ==> active == {})
  }

  /** In every reachable state the seed statuses and bindings say which contracts exist. */
  lemma SeedsAreBoundAsStored(calls: seq<Call>, k: RowKey)
    requires k in Run(EMPTY, calls).tables.seeds
    ensures BoundAsStored(Run(EMPTY, calls).tables.seeds, Run(EMPTY, calls).tables.contracts, k)
  {
    EmptyInv();
    RunKeeps(EMPTY, calls);
    LedgerBindsAsStored(Run(EMPTY, calls).tables.seeds, Run(EMPTY, calls).tables.contracts, k);
  }

  lemma LedgerBindsAsStored(seeds: Seeds, contracts: Contracts, k: RowKey)
    requires LedgerInv(seeds, contracts) && k in seeds
    ensures BoundAsStored(seeds, contracts, k)
  {
    LockedIsUnique(seeds, contracts, k);
    ActiveAtMostOne(seeds, contracts, k);
  }

  lemma LockedIsUnique(seeds: Seeds, contracts: Contracts, k: RowKey)
    requires SeedBound(seeds, contracts) && ContractBound(seeds, contracts) && k in seeds
    ensures LockedType(seeds[k].status) ==> seeds[k].contractId.Some? && LockedOn(contracts, k) == {seeds[k].contractId.value}
    ensures !LockedType(seeds[k].status) ==> LockedOn(contracts, k) == {}
  {
  }

  lemma ActiveAtMostOne(seeds: Seeds, contracts: Contracts, k: RowKey)
    requires ContractBound(seeds, contracts) && ContractOrder(contracts) && k in seeds
    ensures |ActiveOn(contracts, {k})| <= 1
    ensures seeds[k].status == SeedRetired ==> ActiveOn(contracts, {k}) == {}
    ensures seeds[k].status == Seeded ==> forall c :: c in ActiveOn(contracts, {k}) ==> contracts[c].status == Proposed
  {
    var active := ActiveOn(contracts, {k});
    if active != {} {
      var c :| c in active;
      forall d | d in active ensures d == c { if d != c { ActiveIsLast(contracts, c, d); } }
      assert active == {c};
    }
  }

  /** In every reachable state the revisions of a seed are 1..n, all but the last retired, and live places are distinct. */
  lemma SeedRevisionsAreLinear(calls: seq<Call>, j: RowKey, k: RowKey)
    ensures var seeds := Run(EMPTY, calls).tables.seeds;
            && (k in seeds ==>
                  && k.rev >= 1
                  && forall r :: 1 <= r < k.rev ==> RetiredSeed(seeds, RowKey(k.id, r)))
            && (j in seeds && k in seeds && seeds[j].status != SeedRetired && seeds[k].status != SeedRetired ==>
                  && (SamePlace(seeds[j].payload, seeds[k].payload) ==> j == k)
                  && (j.id == k.id ==> j == k))
  {
    EmptyInv();
    RunKeeps(EMPTY, calls);
    var seeds := Run(EMPTY, calls).tables.seeds;
    if j in seeds && k in seeds {
      assert j.id == k.id && 1 <= j.rev < k.rev ==> RetiredSeed(seeds, RowKey(k.id, j.rev));
      assert j.id == k.id && 1 <= k.rev < j.rev ==> RetiredSeed(seeds, RowKey(j.id, k.rev));
    }
  }

  // ----- What later states keep ----------------------------------------------------------------------

  /** A retired seed revision is never revived: its row never changes again. */
  lemma RetiredSeedsStay(s: State, calls: seq<Call>, k: RowKey)
    requires Inv(s) && k in s.tables.seeds && s.tables.seeds[k].status == SeedRetired
    ensures k in Run(s, calls).tables.seeds && Run(s, calls).tables.seeds[k] == s.tables.seeds[k]
  {
    RunKeeps(s, calls);
    assert SeedKept(s.tables.seeds[k], Run(s, calls).tables.seeds[k]);
  }

  /** The binding is as it was, the status is no earlier, and until the seed retires its contract stays locked. */
  ghost predicate FrozenSince(t: Tables, u: Tables, k: RowKey)
    requires k in t.seeds
  {
    && k in u.seeds && t.seeds[k].contractId.Some?
    && u.seeds[k].contractId == t.seeds[k].contractId && u.seeds[k].contractHash == t.seeds[k].contractHash
    && u.seeds[k].status in {Expanded, Generated, SeedRetired}
    && Rank(t.seeds[k].status) <= Rank(u.seeds[k].status)
    && (u.seeds[k].status != SeedRetired ==>
          t.seeds[k].contractId.value in u.contracts && u.contracts[t.seeds[k].contractId.value].status == Locked)
  }

  /** From `expanded` on the binding of a seed is frozen, even past its retirement, and its status only moves forward. */
  lemma ExpandedIsFrozen(s: State, calls: seq<Call>, k: RowKey)
    requires Inv(s) && k in s.tables.seeds && s.tables.seeds[k].status in {Expanded, Generated}
    ensures FrozenSince(s.tables, Run(s, calls).tables, k)
  {
    RunKeeps(s, calls);
    FrozenBetween(s.tables, Run(s, calls).tables, k);
  }

  lemma FrozenBetween(t: Tables, u: Tables, k: RowKey)
    requires SeedsKept(t.seeds, u.seeds) && SeedBound(t.seeds, t.contracts) && SeedBound(u.seeds, u.contracts)
    requires k in t.seeds && t.seeds[k].status in {Expanded, Generated}
    ensures FrozenSince(t, u, k)
  {
    assert SeedKept(t.seeds[k], u.seeds[k]);
  }

  /** A contract's payload is never edited, and a retired contract never changes at all. */
  lemma ContractsAreImmutable(s: State, calls: seq<Call>, c: string)
    requires Inv(s) && c in s.tables.contracts
    ensures c in Run(s, calls).tables.contracts
    ensures var row, row' := s.tables.contracts[c], Run(s, calls).tables.contracts[c];
            && row'.payload == row.payload && row'.hash == row.hash && row'.hash == Sha256(OfContract(row'.payload))
            && row'.supersedes == row.supersedes
            && (row.status == Retired ==> row' == row)
            && (row.status == Locked ==> row'.status != Proposed)
  {
    RunKeeps(s, calls);
    assert ContractKept(s.tables.contracts[c], Run(s, calls).tables.contracts[c]);
  }

  function ContractsOf(contracts: Contracts, k: RowKey): set<string> {
    set c | c in contracts && contracts[c].payload.seed == k
  }

  /** Once the last contract of a seed revision is retired, it never gets another one and is never locked again. */
  lemma ClosedForGood(s: State, calls: seq<Call>, k: RowKey)
    requires Inv(s) && Closed(s.tables.contracts, k)
    ensures var t, u := s.tables, Run(s, calls).tables;
            && ContractsOf(u.contracts, k) == ContractsOf(t.contracts, k)
            && Closed(u.contracts, k)
            && (k in u.seeds ==> !LockedType(u.seeds[k].status))
  {
    RunKeeps(s, calls);
    var t, u := s.tables, Run(s, calls).tables;
    ClosedBetween(t.contracts, u.contracts, k);
  }

  lemma ClosedBetween(contracts: Contracts, contracts': Contracts, k: RowKey)
    requires ContractsKept(contracts, contracts') && ClosedKept(contracts, contracts') && Closed(contracts, k)
    ensures ContractsOf(contracts', k) == ContractsOf(contracts, k) && Closed(contracts', k)
  {
    ClosedStays(contracts, contracts', k);
    assert NoneAdded(contracts, contracts', k);
    forall c | c in contracts' && c in contracts ensures contracts'[c].payload == contracts[c].payload {
      assert ContractKept(contracts[c], contracts'[c]);
    }
  }

  // ----- The lineage of contracts --------------------------------------------------------------------

  /** The chain of contracts one contract supersedes, back to revision 1, each followed by the one superseding it. */
  ghost predicate LineageOf(contracts: Contracts, k: RowKey, line: seq<string>) {
    && (forall i :: 0 <= i < |line| ==>
          line[i] in contracts && contracts[line[i]].payload.seed == k && contracts[line[i]].payload.rev == i + 1)
    && (forall i :: 1 <= i < |line| ==> contracts[line[i]].supersedes == Some(line[i - 1]))
    && (forall i :: 0 <= i < |line| - 1 ==> contracts[line[i]].status == Retired)
  }

  lemma {:induction false} LineageBackTo1(contracts: Contracts, c: string) returns (line: seq<string>)
    requires ContractLineage(contracts) && ContractOrder(contracts)
    requires forall d :: d in contracts ==> contracts[d].payload.rev >= 1
    requires c in contracts
    ensures |line| == contracts[c].payload.rev && line[|line| - 1] == c
    ensures LineageOf(contracts, contracts[c].payload.seed, line)
    decreases contracts[c].payload.rev
  {
    var row := contracts[c];
    if row.payload.rev == 1 {
      line := [c];
    } else {
      var d := row.supersedes.value;
      var before := LineageBackTo1(contracts, d);
      assert Precedes(contracts[d], row) || Precedes(row, contracts[d]);
      line := before + [c];
    }
  }

  lemma HighestExists(contracts: Contracts, cs: set<string>) returns (c: string)
    requires cs != {} && cs <= contracts.Keys
    ensures c in cs && forall d :: d in cs ==> contracts[d].payload.rev <= contracts[c].payload.rev
  {
    c :| c in cs;
    if cs != {c} {
      var d := HighestExists(contracts, cs - {c});
      if contracts[c].payload.rev < contracts[d].payload.rev { c := d; }
    }
  }

  /** In every reachable state the contracts of a seed revision are one line: revisions 1..n, each superseding the one before. */
  lemma ContractsAreOneLine(calls: seq<Call>, k: RowKey) returns (line: seq<string>)
    ensures var contracts := Run(EMPTY, calls).tables.contracts;
            && LineageOf(contracts, k, line)
            && (set i | 0 <= i < |line| :: line[i]) == ContractsOf(contracts, k)
  {
    EmptyInv();
    RunKeeps(EMPTY, calls);
    line := LineOfSeed(Run(EMPTY, calls).tables.seeds, Run(EMPTY, calls).tables.contracts, k);
  }

  lemma OneContractPerRevision(contracts: Contracts, c: string, d: string)
    requires ContractOrder(contracts) && c in contracts && d in contracts
    requires contracts[c].payload.seed == contracts[d].payload.seed && contracts[c].payload.rev == contracts[d].payload.rev
    ensures c == d
  {
  }

  lemma LineOfSeed(seeds: Seeds, contracts: Contracts, k: RowKey) returns (line: seq<string>)
    requires ContractShape(seeds, contracts) && ContractLineage(contracts) && ContractOrder(contracts)
    ensures LineageOf(contracts, k, line)
    ensures (set i | 0 <= i < |line| :: line[i]) == ContractsOf(contracts, k)
  {
    if ContractsOf(contracts, k) == {} {
      line := [];
    } else {
      var c := HighestExists(contracts, ContractsOf(contracts, k));
      line := LineageBackTo1(contracts, c);
      forall d | d in ContractsOf(contracts, k) ensures exists i :: 0 <= i < |line| && line[i] == d {
        OneContractPerRevision(contracts, d, line[contracts[d].payload.rev - 1]);
      }
    }
  }

  // ----- Questions over runs ------------------------------------------------------------------------------

  /** In every reachable state each question is a well-formed one in a well-formed interaction state, filed under its own manifest hash. */
  lemma QuestionsAreWellFormed(calls: seq<Call>, h: Digest)
    requires h in Run(EMPTY, calls).tables.questions
    ensures var row := Run(EMPTY, calls).tables.questions[h];
            && row.payload.manifest == h
            && row.attempts <= 2
            && (Open(row.status) ==> (row.status == AwaitingEventExperience <==> row.attempts == 2))
            && (row.selected.Some? <==> row.status == Answered)
            && (row.selected.Some? ==> exists o :: o in row.payload.options && o.id == row.selected.value)
  {
    EmptyInv();
    RunKeeps(EMPTY, calls);
    var row := Run(EMPTY, calls).tables.questions[h];
    assert GoodState(row);
  }

  /** An answered or retired question never changes again. */
  lemma ClosedQuestionsStay(s: State, calls: seq<Call>, h: Digest)
    requires Inv(s) && h in s.tables.questions && !Open(s.tables.questions[h].status)
    ensures h in Run(s, calls).tables.questions && Run(s, calls).tables.questions[h] == s.tables.questions[h]
  {
    RunKeeps(s, calls);
    assert QuestionKept(s.tables.questions[h], Run(s, calls).tables.questions[h]);
  }

  /** In a reachable state, cancelling or expiring a question through an answer cleans up after it. */
  lemma AnswerCleansUpInARun(s: State, h: Digest, answer: string, now: nat)
    requires Inv(s) && h in s.tables.questions && Open(s.tables.questions[h].status)
    requires s.tables.questions[h].expiresAt <= now || answer in CANCEL_ANSWERS
    ensures ClosedAndCleanedUp(s.tables, h, now, AnswerSpec(s.tables, h, answer, now))
  {
    AnswerCleansUp(s.tables, h, answer, now);
  }

  /** In a reachable state, so does expiring all due questions, once for all of them. */
  lemma RetireExpiredCleansUpInARun(s: State, observed: nat)
    requires Inv(s)
    ensures AllExpiredAndCleanedUp(s.tables, observed, RetireExpiredSpec(s.tables, observed))
  {
    RetireExpiredCleansUp(s.tables, observed);
  }

  /** On any run a review keeps its payload and hash, and stays as it is once it is no longer recorded. */
  lemma ReviewsAreImmutable(s: State, calls: seq<Call>, r: string)
    requires Inv(s) && r in s.tables.reviews
    ensures r in Run(s, calls).tables.reviews && ReviewKept(s.tables.reviews[r], Run(s, calls).tables.reviews[r])
  {
    RunKeeps(s, calls);
  }

  lemma ObservedReviewsAreImmutable(s: State, calls: seq<Call>, r: string)
    requires Inv(s) && r in s.tables.observed
    ensures r in Run(s, calls).tables.observed && ObservedRowKept(s.tables.observed[r], Run(s, calls).tables.observed[r])
  {
    RunKeeps(s, calls);
  }

  // ----- Arcs over runs -------------------------------------------------------------------------------------

  /** A supersede_arc that commits and moves its arc into a context where another is active. */
  ghost predicate MovesIntoTaken(s: State, c: Call) {
    Committed(s, c) && c.op.SupersedeArc? && ContextTaken(s.tables.arcs, c.op.arcId, c.op.newArc.context)
  }

  ghost predicate NeverMovesIntoTaken(s: State, calls: seq<Call>)
    decreases |calls|
  {
    calls == [] || (!MovesIntoTaken(s, calls[0]) && NeverMovesIntoTaken(Step(s, calls[0]).state, calls[1..]))
  }

  /** One active arc per context, in every state of the run. */
  ghost predicate AlwaysUnique(s: State, calls: seq<Call>)
    decreases |calls|
  {
    ArcsUnique(s.tables.arcs) && (calls == [] || AlwaysUnique(Step(s, calls[0]).state, calls[1..]))
  }

  lemma StepUnique(s: State, c: Call)
    requires Inv(s) && ArcsUnique(s.tables.arcs)
    ensures ArcsUnique(Step(s, c).state.tables.arcs) <==> !MovesIntoTaken(s, c)
  {
    StepCommits(s, c);
    if Committed(s, c) {
      if c.op.SupersedeArc? {
        ArcsStayUnique(s.tables, c.op.arcId, c.op.newArc, c.op.reason, c.op.lock, c.env.now);
      } else {
        OthersStayUnique(s.tables, c.op, c.env);
      }
    }
  }

  /** One active arc per context holds throughout a run exactly when no supersede_arc of the run moved into a taken context. */
  lemma {:induction false} UniqueUnlessMoved(s: State, calls: seq<Call>)
    requires Inv(s) && ArcsUnique(s.tables.arcs)
    ensures AlwaysUnique(s, calls) <==> NeverMovesIntoTaken(s, calls)
    decreases |calls|
  {
    hide Inv, ArcsUnique, MovesIntoTaken, Step;
    if calls != [] {
      StepUnique(s, calls[0]);
      StepKeeps(s, calls[0]);
      if !MovesIntoTaken(s, calls[0]) { UniqueUnlessMoved(Step(s, calls[0]).state, calls[1..]); }
      else { BrokenAtOnce(Step(s, calls[0]).state, calls[1..]); }
    }
  }

  lemma BrokenAtOnce(s: State, calls: seq<Call>)
    requires !ArcsUnique(s.tables.arcs)
    ensures !AlwaysUnique(s, calls)
  {
  }

  /** From the empty state on. */
  lemma ArcsUniqueUnlessMoved(calls: seq<Call>)
    ensures AlwaysUnique(EMPTY, calls) <==> NeverMovesIntoTaken(EMPTY, calls)
  {
    EmptyInv();
    UniqueUnlessMoved(EMPTY, calls);
  }

  /** The answer settled the question on this option. */
  ghost predicate SettledOn(o: Outcome, h: Digest, id: string) {
    && o.Ok? && o.value.body.AnswerBody? && o.value.body.action == Selected
    && h in o.value.tables.questions
    && o.value.tables.questions[h].status == Answered && o.value.tables.questions[h].selected == Some(id)
  }

  /** In a reachable state an answer that delegates the choice to an open question selects the recommended option. */
  lemma DelegationInARun(s: State, h: Digest, answer: string, now: nat)
    requires Inv(s) && h in s.tables.questions && Open(s.tables.questions[h].status)
    requires now < s.tables.questions[h].expiresAt && answer in RECOMMENDED_ANSWERS
    ensures SettledOn(AnswerSpec(s.tables, h, answer, now), h, s.tables.questions[h].payload.recommended)
  {
    assert GoodQuestion(s.tables.questions[h].payload);
    hide Inv;
    DelegationSettles(s.tables, h, answer, now);
  }

  lemma DelegationSettles(t: Tables, h: Digest, answer: string, now: nat)
    requires h in t.questions && Open(t.questions[h].status) && GoodQuestion(t.questions[h].payload)
    requires now < t.questions[h].expiresAt && answer in RECOMMENDED_ANSWERS
    ensures SettledOn(AnswerSpec(t, h, answer, now), h, t.questions[h].payload.recommended)
  {
    var p := t.questions[h].payload;
    var o :| o in p.options && o.id == p.recommended;
    var i :| 0 <= i < |p.options| && p.options[i] == o;
    DelegationSelectsRecommended(CaseFold, p, i, answer);
    DelegationIsNoCancel(answer);
    hide SelectOption, GoodQuestion;
    assert AnswerSpec(t, h, answer, now) == SelectSpec(t, h, t.questions[h], answer, p.options[i], now);
  }

  lemma DelegationIsNoCancel(answer: string)
    requires answer in RECOMMENDED_ANSWERS
    ensures answer !in CANCEL_ANSWERS
  {
    assert |answer| >= 3;
    assert answer[0] in {'按', '采', '用', '你', '模'};
  }
}
