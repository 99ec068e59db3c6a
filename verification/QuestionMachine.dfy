/**
  The bounded question of a manifest: its invariant, what stays of it, how an answer
  selects an option, and what cancelling or expiring a question does to the candidates
  it was about.
  */
module QuestionMachine {
  import opened Basics
  import opened EventTypes
  import opened EventSpec
  import opened EventLedger
  import opened LedgerOps

  type Questions = map<Digest, QuestionRow>

  // ----- Selecting an option ----------------------------------------------------------

  ghost predicate Offered(p: QuestionPayload, id: string) { id in Ids(p.options) }

  lemma {:induction false} ByIdFinds(fold: string -> string, options: seq<QuestionOption>, wanted: string)
    ensures ById(fold, options, wanted).Some? ==>
              ById(fold, options, wanted).value in options && fold(ById(fold, options, wanted).value.id) == fold(wanted)
    ensures ById(fold, options, wanted).None? ==> forall o :: o in options ==> fold(o.id) != fold(wanted)
  {
    if options != [] { ByIdFinds(fold, options[..|options| - 1], wanted); }
  }

  lemma {:induction false} WithLabelFinds(fold: string -> string, options: seq<QuestionOption>, wanted: string)
    ensures forall o :: o in WithLabel(fold, options, wanted) ==> o in options && fold(o.labelText) == fold(wanted)
  {
    if options != [] { WithLabelFinds(fold, options[1..], wanted); }
  }

  /** A selection is always one of the offered options. */
  lemma SelectsOffered(fold: string -> string, p: QuestionPayload, answer: string)
    requires SelectOption(fold, p, answer).Some?
    ensures SelectOption(fold, p, answer).value in p.options
  {
    ByIdFinds(fold, p.options, if answer in RECOMMENDED_ANSWERS then p.recommended else answer);
    WithLabelFinds(fold, p.options, answer);
  }

  lemma UniqueIds(fold: string -> string, options: seq<QuestionOption>, i: nat, j: nat)
    requires !HasDuplicates(FoldedIds(fold, options))
    requires i < |options| && j < |options| && fold(options[i].id) == fold(options[j].id)
    ensures i == j
  {
    var ids := FoldedIds(fold, options);
    assert ids[i] == ids[j];
  }

  /** An answer that names an offered id, up to case folding, selects that option and no other. */
  lemma IdSelectsItsOption(fold: string -> string, options: seq<QuestionOption>, i: nat, wanted: string)
    requires !HasDuplicates(FoldedIds(fold, options))
    requires i < |options| && fold(options[i].id) == fold(wanted)
    ensures ById(fold, options, wanted) == Some(options[i])
  {
    ByIdFinds(fold, options, wanted);
    assert options[i] in options;
    var found := ById(fold, options, wanted).value;
    var j :| 0 <= j < |options| && options[j] == found;
    UniqueIds(fold, options, i, j);
  }

  /** Delegating the choice always selects the recommended option, whatever the fold tables are. */
  lemma DelegationSelectsRecommended(fold: string -> string, p: QuestionPayload, i: nat, answer: string)
    requires !HasDuplicates(FoldedIds(fold, p.options))
    requires i < |p.options| && p.options[i].id == p.recommended
    requires answer in RECOMMENDED_ANSWERS
    ensures SelectOption(fold, p, answer) == Some(p.options[i])
  {
    IdSelectsItsOption(fold, p.options, i, p.recommended);
  }

  /** Short of a delegation, an answer that names an offered id, up to case folding, selects that option. */
  lemma NamedIdIsSelected(fold: string -> string, p: QuestionPayload, i: nat, answer: string)
    requires !HasDuplicates(FoldedIds(fold, p.options)) && answer !in RECOMMENDED_ANSWERS
    requires i < |p.options| && fold(p.options[i].id) == fold(answer)
    ensures SelectOption(fold, p, answer) == Some(p.options[i])
  {
    IdSelectsItsOption(fold, p.options, i, answer);
  }

  ghost predicate NamesNoId(fold: string -> string, p: QuestionPayload, answer: string) {
    forall i :: 0 <= i < |p.options| ==> fold(p.options[i].id) != fold(answer)
  }

  /** The label of option i reads as the answer does, and no other label. */
  ghost predicate OnlyLabel(fold: string -> string, options: seq<QuestionOption>, answer: string, i: int) {
    && 0 <= i < |options| && fold(options[i].labelText) == fold(answer)
    && forall j :: 0 <= j < |options| && j != i ==> fold(options[j].labelText) != fold(answer)
  }

  /** Otherwise a single letter selects by position, and any other text the one option with that label, if there is one. */
  lemma LetterOrLabelIsSelected(fold: string -> string, p: QuestionPayload, answer: string)
    requires answer !in RECOMMENDED_ANSWERS && NamesNoId(fold, p, answer)
    ensures var letter := LetterIndex(answer);
            if letter.Some? && letter.value < |p.options| then SelectOption(fold, p, answer) == Some(p.options[letter.value])
            else
              && (SelectOption(fold, p, answer).Some? <==> exists i :: OnlyLabel(fold, p.options, answer, i))
              && forall i :: OnlyLabel(fold, p.options, answer, i) ==> SelectOption(fold, p, answer) == Some(p.options[i])
  {
    ByIdFinds(fold, p.options, answer);
    LabelsDecide(fold, p.options, answer);
  }

  lemma {:induction false} LabelsDecide(fold: string -> string, options: seq<QuestionOption>, answer: string)
    ensures |WithLabel(fold, options, answer)| == 1 ==> exists i :: OnlyLabel(fold, options, answer, i)
    ensures forall i :: OnlyLabel(fold, options, answer, i) ==> WithLabel(fold, options, answer) == [options[i]]
    ensures WithLabel(fold, options, answer) == [] <==> forall j :: 0 <= j < |options| ==> fold(options[j].labelText) != fold(answer)
  {
    if options != [] {
      var rest := options[1..];
      LabelsDecide(fold, rest, answer);
      assert forall j :: 1 <= j < |options| ==> options[j] == rest[j - 1];
      assert forall j :: 0 <= j < |rest| ==> rest[j] == options[j + 1];
      if fold(options[0].labelText) == fold(answer) {
        if WithLabel(fold, rest, answer) == [] { assert OnlyLabel(fold, options, answer, 0); }
      } else {
        if i :| OnlyLabel(fold, rest, answer, i) { assert OnlyLabel(fold, options, answer, i + 1); }
        forall i | OnlyLabel(fold, options, answer, i) ensures WithLabel(fold, options, answer) == [options[i]] {
          assert OnlyLabel(fold, rest, answer, i - 1);
        }
      }
    }
  }

  /** An answer spelled as a cancellation cancels an open question: it never selects, not even an option of that id. */
  lemma CancelNeverSelects(t: Tables, h: Digest, answer: string, now: nat)
    requires h in t.questions && Open(t.questions[h].status) && answer in CANCEL_ANSWERS
    ensures var o := AnswerSpec(t, h, answer, now);
            o.Ok? && o.value.tables.questions[h].status == QuestionRetired && o.value.tables.questions[h].selected == t.questions[h].selected
  {
  }

  function Ids(options: seq<QuestionOption>): set<string> { set o | o in options :: o.id }

  lemma {:induction false} MatchingIsOffered(fold: string -> string, options: seq<QuestionOption>, wanted: string)
    ensures forall id :: id in Matching(fold, options, wanted) ==> id in Ids(options)
  {
    if options != [] {
      MatchingIsOffered(fold, options[1..], wanted);
    }
  }

  // ----- The question invariant ----------------------------------------------------------

  ghost predicate GoodQuestion(p: QuestionPayload) {
    && 2 <= |p.options| <= 5
    && !HasDuplicates(FoldedIds(CaseFold, p.options))
    && Offered(p, p.recommended)
  }

  /** The interaction state of one question. */
  ghost predicate GoodState(row: QuestionRow) {
    && row.attempts <= 2
    && (Open(row.status) ==> (row.status == AwaitingEventExperience <==> row.attempts == 2))
    && (row.selected.Some? <==> row.status == Answered)
    && (row.selectedAt.Some? <==> row.status == Answered)
    && (row.selected.Some? ==> Offered(row.payload, row.selected.value))
  }

  ghost predicate BoundSeedsExist(seeds: Seeds, bindings: seq<SeedBinding>) {
    forall b :: b in bindings ==> b.key in seeds && seeds[b.key].hash == b.hash
  }

  ghost predicate QuestionInv(seeds: Seeds, questions: Questions) {
    forall h :: h in questions ==>
      && questions[h].payload.manifest == h
      && questions[h].hash == Sha256(OfQuestion(questions[h].payload))
      && GoodQuestion(questions[h].payload)
      && GoodState(questions[h])
      && BoundSeedsExist(seeds, questions[h].payload.bindings)
  }

  /** One question, earlier and later: the question itself is fixed, and so is everything once it is closed. */
  ghost predicate QuestionKept(a: QuestionRow, b: QuestionRow) {
    && b.payload == a.payload && b.hash == a.hash && b.expiresAt == a.expiresAt
    && a.attempts <= b.attempts
    && (!Open(a.status) ==> b == a)
  }

  ghost predicate QuestionsKept(questions: Questions, questions': Questions) {
    forall h :: h in questions ==> h in questions' && QuestionKept(questions[h], questions'[h])
  }

  lemma QuestionsKeptTransitive(a: Questions, b: Questions, c: Questions)
    requires QuestionsKept(a, b) && QuestionsKept(b, c)
    ensures QuestionsKept(a, c)
  {
    forall h | h in a ensures h in c && QuestionKept(a[h], c[h]) {
      assert QuestionKept(a[h], b[h]) && QuestionKept(b[h], c[h]);
    }
  }

  lemma QuestionsKeptReflexive(questions: Questions)
    ensures QuestionsKept(questions, questions)
  {
  }

  lemma SeedsMayEvolve(seeds: Seeds, seeds': Seeds, questions: Questions)
    requires QuestionInv(seeds, questions) && SeedsKept(seeds, seeds')
    ensures QuestionInv(seeds', questions)
  {
    forall h | h in questions ensures BoundSeedsExist(seeds', questions[h].payload.bindings) {
      assert BoundSeedsExist(seeds, questions[h].payload.bindings);
      forall b | b in questions[h].payload.bindings ensures b.key in seeds' && seeds'[b.key].hash == b.hash {
        assert SeedKept(seeds[b.key], seeds'[b.key]);
      }
    }
  }

  /** Replacing one row by a later form of it. */
  lemma OneQuestion(seeds: Seeds, questions: Questions, h: Digest, row: QuestionRow)
    requires QuestionInv(seeds, questions) && h in questions && QuestionKept(questions[h], row) && GoodState(row)
    ensures QuestionInv(seeds, questions[h := row]) && QuestionsKept(questions, questions[h := row])
  {
  }

  ghost predicate QuestionsGo(t: Tables, o: Outcome) {
    o.Ok? ==> QuestionInv(t.seeds, o.value.tables.questions) && QuestionsKept(t.questions, o.value.tables.questions)
  }

  lemma {:induction false} BindingErrorSound(t: Tables, bindings: seq<SeedBinding>)
    requires QuestionBindingError(t, bindings).None?
    ensures BoundSeedsExist(t.seeds, bindings)
    ensures forall b :: b in bindings ==> t.seeds[b.key].status == Seeded && ActiveOn(t.contracts, {b.key}) == {}
  {
    if bindings != [] { BindingErrorSound(t, bindings[1..]); }
  }

  lemma OpenQuestionGoes(t: Tables, manifest: SeedManifest, q: QuestionInput, ttl: nat, now: nat)
    requires QuestionInv(t.seeds, t.questions) && QuestionInputError(CaseFold, q).None?
    ensures QuestionsGo(t, OpenQuestionSpec(t, manifest, q, ttl, now))
  {
    hide QuestionInv, QuestionsKept, QuestionBindingError, QuestionInputError;
    var p := QuestionPayloadOf(manifest, q, RecommendedId(CaseFold, q));
    ValidIsGood(manifest, q);
    if QuestionBindingError(t, p.bindings).None? && p.manifest !in t.questions {
      BindingErrorSound(t, p.bindings);
      AddQuestion(t.seeds, t.questions, QuestionRow(p, Sha256(OfQuestion(p)), AwaitingAnswer, 0, None, None, now + ttl));
    }
  }

  lemma ValidIsGood(manifest: SeedManifest, q: QuestionInput)
    requires QuestionInputError(CaseFold, q).None?
    ensures GoodQuestion(QuestionPayloadOf(manifest, q, RecommendedId(CaseFold, q)))
  {
    MatchingIsOffered(CaseFold, q.options, q.recommended);
    assert Matching(CaseFold, q.options, q.recommended)[0] in Matching(CaseFold, q.options, q.recommended);
  }

  lemma AddQuestion(seeds: Seeds, questions: Questions, row: QuestionRow)
    requires QuestionInv(seeds, questions) && row.payload.manifest !in questions
    requires GoodQuestion(row.payload) && GoodState(row) && BoundSeedsExist(seeds, row.payload.bindings)
    requires row.hash == Sha256(OfQuestion(row.payload))
    ensures var questions' := questions[row.payload.manifest := row]; QuestionInv(seeds, questions') && QuestionsKept(questions, questions')
  {
  }

  lemma CloseGoes(t: Tables, h: Digest, action: Action, why: Reason, mark: Retirement)
    requires QuestionInv(t.seeds, t.questions) && h in t.questions && Open(t.questions[h].status)
    ensures QuestionsGo(t, CloseSpec(t, h, action, why, mark))
  {
    assert GoodState(t.questions[h]);
    hide QuestionInv, QuestionsKept, CleanupCounts, OpenCandidates, RetireSeedRows, RetireContractRows, RetireArcRows;
    OneQuestion(t.seeds, t.questions, h, t.questions[h].(status := QuestionRetired));
  }

  lemma SelectGoes(t: Tables, h: Digest, answer: string, option: QuestionOption, now: nat)
    requires QuestionInv(t.seeds, t.questions) && h in t.questions && Open(t.questions[h].status)
    requires option in t.questions[h].payload.options
    ensures QuestionsGo(t, SelectSpec(t, h, t.questions[h], answer, option, now))
  {
    var row := t.questions[h];
    OneQuestion(t.seeds, t.questions, h, row.(status := Answered, selected := Some(option.id), selectedAt := Some(now)));
  }

  lemma InvalidGoes(t: Tables, h: Digest)
    requires QuestionInv(t.seeds, t.questions) && h in t.questions && Open(t.questions[h].status)
    ensures QuestionsGo(t, InvalidAnswerSpec(t, h, t.questions[h]))
  {
    var o := InvalidAnswerSpec(t, h, t.questions[h]);
    OneQuestion(t.seeds, t.questions, h, o.value.tables.questions[h]);
  }

  lemma AnswerGoes(t: Tables, h: Digest, answer: string, now: nat)
    requires QuestionInv(t.seeds, t.questions)
    ensures QuestionsGo(t, AnswerSpec(t, h, answer, now))
  {
    if h in t.questions && Open(t.questions[h].status) { OpenAnswerGoes(t, h, answer, now); }
  }

  lemma OpenAnswerGoes(t: Tables, h: Digest, answer: string, now: nat)
    requires QuestionInv(t.seeds, t.questions) && h in t.questions && Open(t.questions[h].status)
    ensures QuestionsGo(t, AnswerSpec(t, h, answer, now))
  {
    if t.questions[h].expiresAt <= now {
      CloseGoes(t, h, Expired, TtlExpired, Retirement(now, TTL_EXPIRED));
    } else if answer in CANCEL_ANSWERS {
      CloseGoes(t, h, Cancelled, ExplicitCancel, Retirement(now, CANCELLED));
    } else {
      InvalidGoes(t, h);
      var chosen := SelectOption(CaseFold, t.questions[h].payload, answer);
      if chosen.Some? {
        SelectsOffered(CaseFold, t.questions[h].payload, answer);
        SelectGoes(t, h, answer, chosen.value, now);
      }
    }
  }

  lemma RetireExpiredGoes(t: Tables, observed: nat)
    requires QuestionInv(t.seeds, t.questions)
    ensures QuestionsGo(t, RetireExpiredSpec(t, observed))
  {
    CloseManyGoes(t.seeds, t.questions, ExpiredAt(t.questions, observed));
  }

  lemma CloseManyGoes(seeds: Seeds, questions: Questions, hs: set<Digest>)
    requires QuestionInv(seeds, questions)
    requires forall h :: h in hs && h in questions ==> Open(questions[h].status)
    ensures QuestionInv(seeds, CloseQuestions(questions, hs)) && QuestionsKept(questions, CloseQuestions(questions, hs))
  {
  }

  ghost predicate OffQuestions(op: Op) {
    !op.OpenQuestion? && !op.RetireExpiredQuestions? && !op.AnswerQuestion?
  }

  lemma OffQuestionsUntouched(t: Tables, op: Op, env: Env)
    requires OffQuestions(op) && ArgumentError(op).None?
    ensures Apply(t, op, env).Ok? ==> Apply(t, op, env).value.tables.questions == t.questions
  {
    Frame(t, op, env);
    hide Apply;
  }

  /** Every operation keeps the questions' invariant and what is fixed about them. */
  lemma ApplyKeepsQuestions(t: Tables, op: Op, env: Env)
    requires Ledger(t) && QuestionInv(t.seeds, t.questions) && ArgumentError(op).None?
    ensures Apply(t, op, env).Ok? ==>
              && QuestionInv(Apply(t, op, env).value.tables.seeds, Apply(t, op, env).value.tables.questions)
              && QuestionsKept(t.questions, Apply(t, op, env).value.tables.questions)
  {
    hide Apply, QuestionInv, QuestionsKept, LedgerInv, SeedsKept, ContractsKept, ClosedKept;
    QuestionsKeptReflexive(t.questions);
    ApplyKeeps(t, op, env);
    if OffQuestions(op) { OffQuestionsUntouched(t, op, env); } else { QuestionOpGoes(t, op, env); }
    if Apply(t, op, env).Ok? {
      SeedsMayEvolve(t.seeds, Apply(t, op, env).value.tables.seeds, Apply(t, op, env).value.tables.questions);
    }
  }

  lemma QuestionOpGoes(t: Tables, op: Op, env: Env)
    requires QuestionInv(t.seeds, t.questions) && !OffQuestions(op) && ArgumentError(op).None?
    ensures QuestionsGo(t, Apply(t, op, env))
  {
    hide QuestionInv, QuestionsGo;
    match op {
      case OpenQuestion(manifest, q, ttl) => OpenQuestionGoes(t, manifest, q, ttl, env.now);
      case RetireExpiredQuestions(_) => RetireExpiredGoes(t, if op.observedAt.Some? then op.observedAt.value else env.now);
      case AnswerQuestion(h, answer) => AnswerGoes(t, h, answer, env.now);
    }
  }

  lemma {:induction false} SelectedOptionFinds(options: seq<QuestionOption>, id: string)
    ensures SelectedOption(options, id).Some? <==> id in Ids(options)
    ensures SelectedOption(options, id).Some? ==> SelectedOption(options, id).value in options && SelectedOption(options, id).value.id == id
  {
    if options != [] {
      SelectedOptionFinds(options[1..], id);
      assert options == [options[0]] + options[1..];
    }
  }

  /** An answered question always finds the option it is bound to, so a repeated answer is refused exactly when it selects another. */
  lemma RepeatedAnswers(t: Tables, h: Digest, answer: string, now: nat)
    requires QuestionInv(t.seeds, t.questions) && h in t.questions && t.questions[h].status == Answered
    ensures var row := t.questions[h];
            var chosen := SelectedOption(row.payload.options, row.selected.value);
            var requested := SelectOption(CaseFold, row.payload, answer);
            && row.selected.Some? && chosen.Some? && chosen.value.id == row.selected.value
            && AnswerSpec(t, h, answer, now) ==
                 if requested.Some? && requested.value.id != row.selected.value then Err(QuestionAlreadyAnswered)
                 else Ok(Applied(t, AnswerBody(Selected, AlreadyAnswered, row, chosen, None), false, false))
  {
    assert GoodState(t.questions[h]);
    SelectedOptionFinds(t.questions[h].payload.options, t.questions[h].selected.value);
    hide QuestionInv, SelectOption, SelectedOption;
  }

  // ----- What cancelling and expiring clean up ----------------------------------------------

  type Arcs = map<RowKey, ArcRow>

  function NewlyRetiredSeeds(seeds: Seeds, seeds': Seeds): set<RowKey> {
    set k | k in seeds && k in seeds' && seeds[k].status != SeedRetired && seeds'[k].status == SeedRetired
  }

  function NewlyRetiredContracts(contracts: Contracts, contracts': Contracts): set<string> {
    set c | c in contracts && c in contracts' && Active(contracts[c].status) && !Active(contracts'[c].status)
  }

  function NewlyRetiredArcs(arcs: Arcs, arcs': Arcs): set<RowKey> {
    set k | k in arcs && k in arcs' && Active(arcs[k].status) && !Active(arcs'[k].status)
  }

  /** No bound seed is left `seeded`; what was retired was bound and `seeded`, and nothing else changed. */
  ghost predicate SeedsCleaned(seeds: Seeds, seeds': Seeds, bindings: set<SeedBinding>, mark: Retirement) {
    var ks := NewlyRetiredSeeds(seeds, seeds');
    && seeds'.Keys == seeds.Keys
    && (forall b :: b in bindings ==> b.key in seeds' && seeds'[b.key].status != Seeded)
    && (forall k :: k in ks ==> seeds[k].status == Seeded && exists b :: b in bindings && b.key == k)
    && (forall k :: k in seeds ==>
          seeds'[k] == if k in ks then seeds[k].(status := SeedRetired, retirement := Some(mark)) else seeds[k])
  }

  /** No active contract is left on a retired candidate; contracts of other seeds are as they were. */
  ghost predicate ContractsCleaned(contracts: Contracts, contracts': Contracts, ks: set<RowKey>, mark: Retirement) {
    && contracts'.Keys == contracts.Keys
    && ActiveOn(contracts', ks) == {}
    && (forall c :: c in contracts ==>
          contracts'[c] == if contracts[c].payload.seed in ks && Active(contracts[c].status)
                           then contracts[c].(status := Retired, retirement := Some(mark)) else contracts[c])
  }

  ghost predicate Over(row: ArcRow, ks: set<RowKey>) { exists b :: b in row.bindings && b.key in ks }

  /** No proposed arc is over a retired candidate; all other arcs are as they were. */
  ghost predicate ArcsCleaned(arcs: Arcs, arcs': Arcs, ks: set<RowKey>, mark: Retirement) {
    && arcs'.Keys == arcs.Keys
    && (forall a :: a in arcs' && arcs'[a].status == Proposed ==> !Over(arcs'[a], ks))
    && (forall a :: a in arcs ==>
          arcs'[a] == if arcs[a].status == Proposed && Over(arcs[a], ks)
                      then arcs[a].(status := Retired, retirement := Some(mark)) else arcs[a])
  }

  /** The cleanup between two states, and the counts it reports: the numbers of rows newly retired. */
  ghost predicate CleanedUp(t: Tables, u: Tables, bindings: set<SeedBinding>, mark: Retirement, counts: Counts) {
    && SeedsCleaned(t.seeds, u.seeds, bindings, mark)
    && ContractsCleaned(t.contracts, u.contracts, NewlyRetiredSeeds(t.seeds, u.seeds), mark)
    && ArcsCleaned(t.arcs, u.arcs, NewlyRetiredSeeds(t.seeds, u.seeds), mark)
    && u.reviews == t.reviews && u.observed == t.observed
    && counts.seeds == |NewlyRetiredSeeds(t.seeds, u.seeds)|
    && counts.contracts == |NewlyRetiredContracts(t.contracts, u.contracts)|
    && counts.arcs == |NewlyRetiredArcs(t.arcs, u.arcs)|
  }

  lemma SeedsAreCleaned(t: Tables, bindings: set<SeedBinding>, mark: Retirement)
    requires forall b :: b in bindings ==> b.key in t.seeds && t.seeds[b.key].hash == b.hash
    ensures var seeds' := RetireSeedRows(t.seeds, OpenCandidates(t, bindings), mark);
            && NewlyRetiredSeeds(t.seeds, seeds') == OpenCandidates(t, bindings)
            && SeedsCleaned(t.seeds, seeds', bindings, mark)
  {
    var ks := OpenCandidates(t, bindings);
    var seeds' := RetireSeedRows(t.seeds, ks, mark);
    assert NewlyRetiredSeeds(t.seeds, seeds') == ks;
    forall b | b in bindings ensures b.key in seeds' && seeds'[b.key].status != Seeded {
      if t.seeds[b.key].status == Seeded { assert b.key in ks; }
    }
  }

  lemma ContractsAreCleaned(contracts: Contracts, ks: set<RowKey>, mark: Retirement)
    ensures var contracts' := RetireContractRows(contracts, ActiveOn(contracts, ks), mark);
            && NewlyRetiredContracts(contracts, contracts') == ActiveOn(contracts, ks)
            && ContractsCleaned(contracts, contracts', ks, mark)
  {
  }

  lemma ArcsAreCleaned(arcs: Arcs, ks: set<RowKey>, mark: Retirement)
    ensures var arcs' := RetireArcRows(arcs, ProposedArcsOver(arcs, ks), mark);
            && NewlyRetiredArcs(arcs, arcs') == ProposedArcsOver(arcs, ks)
            && ArcsCleaned(arcs, arcs', ks, mark)
  {
    forall a | a in arcs ensures Mentions(arcs[a], ks) <==> Over(arcs[a], ks) { MentionsOver(arcs[a], ks); }
  }

  lemma MentionsOver(row: ArcRow, ks: set<RowKey>)
    ensures Mentions(row, ks) <==> Over(row, ks)
  {
    if Over(row, ks) {
      var b :| b in row.bindings && b.key in ks;
      var i :| 0 <= i < |row.bindings| && row.bindings[i] == b;
    }
  }

  lemma CleanupCleansUp(t: Tables, bindings: set<SeedBinding>, mark: Retirement)
    requires ContractBound(t.seeds, t.contracts)
    requires forall b :: b in bindings ==> b.key in t.seeds && t.seeds[b.key].hash == b.hash
    ensures CleanedUp(t, Cleanup(t, bindings, mark), bindings, mark, CleanupCounts(t, bindings))
  {
    var ks := OpenCandidates(t, bindings);
    SeedsAreCleaned(t, bindings, mark);
    SeededHasOnlyProposed(t.seeds, t.contracts, ks);
    ContractsAreCleaned(t.contracts, ks, mark);
    ArcsAreCleaned(t.arcs, ks, mark);
  }

  /** Cancelling or expiring a question through an answer. */
  lemma CloseCleansUp(t: Tables, h: Digest, action: Action, why: Reason, mark: Retirement)
    requires ContractBound(t.seeds, t.contracts) && QuestionInv(t.seeds, t.questions) && h in t.questions
    ensures CloseSpec(t, h, action, why, mark).Ok?
    ensures var a := CloseSpec(t, h, action, why, mark).value;
            && a.body.AnswerBody? && a.body.retired.Some?
            && a.body == AnswerBody(action, why, t.questions[h].(status := QuestionRetired), None, a.body.retired)
            && a.tables.questions == t.questions[h := t.questions[h].(status := QuestionRetired)]
            && CleanedUp(t, a.tables, AsSet(t.questions[h].payload.bindings), mark, a.body.retired.value)
  {
    var bindings := AsSet(t.questions[h].payload.bindings);
    assert BoundSeedsExist(t.seeds, t.questions[h].payload.bindings);
    CleanupCleansUp(CloseQuestion(t, h), bindings, mark);
    SameLedgerCleansUp(CloseQuestion(t, h), t, Cleanup(CloseQuestion(t, h), bindings, mark), bindings, mark,
                       CleanupCounts(CloseQuestion(t, h), bindings));
  }

  /** CleanedUp does not look at the questions. */
  lemma SameLedgerCleansUp(t0: Tables, t: Tables, u: Tables, bindings: set<SeedBinding>, mark: Retirement, counts: Counts)
    requires CleanedUp(t0, u, bindings, mark, counts)
    requires t == t0.(questions := t.questions)
    ensures CleanedUp(t, u, bindings, mark, counts)
  {
  }

  /**
    The question is closed, as expired or as cancelled; no other question and no other
    column of it changed; its candidates are cleaned up, and counted.
    */
  ghost predicate ClosedAndCleanedUp(t: Tables, h: Digest, now: nat, o: Outcome)
    requires h in t.questions
  {
    var row := t.questions[h];
    var expired := row.expiresAt <= now;
    var why := if expired then "event experience question TTL expired" else "event experience question explicitly cancelled";
    && o.Ok? && o.value.body.AnswerBody? && o.value.body.retired.Some?
    && o.value.body == AnswerBody(if expired then Expired else Cancelled, if expired then TtlExpired else ExplicitCancel,
                                  row.(status := QuestionRetired), None, o.value.body.retired)
    && o.value.tables.questions == t.questions[h := row.(status := QuestionRetired)]
    && CleanedUp(t, o.value.tables, (set b | b in row.payload.bindings), Retirement(now, why), o.value.body.retired.value)
  }

  /** An open question whose time is up. */
  ghost predicate Due(row: QuestionRow, at: nat) { row.status in {AwaitingAnswer, AwaitingEventExperience} && row.expiresAt <= at }

  ghost function BoundByDue(questions: Questions, at: nat): set<SeedBinding> {
    set h, b | h in questions && Due(questions[h], at) && b in questions[h].payload.bindings :: b
  }

  /** Exactly the due questions are closed, and the candidates of all of them are cleaned up, each row counted once. */
  ghost predicate AllExpiredAndCleanedUp(t: Tables, observed: nat, o: Outcome) {
    && o.Ok? && o.value.body.ExpiredBody? && o.value.body.observedAt == observed
    && (forall h :: h in o.value.body.manifests <==> h in t.questions && Due(t.questions[h], observed))
    && o.value.tables.questions.Keys == t.questions.Keys
    && (forall h :: h in t.questions ==>
          o.value.tables.questions[h] == if Due(t.questions[h], observed) then t.questions[h].(status := QuestionRetired) else t.questions[h])
    && CleanedUp(t, o.value.tables, BoundByDue(t.questions, observed), Retirement(observed, "event experience question TTL expired"),
                 o.value.body.retiredTotals)
  }

  /** Which answers clean up: any answer to an expired open question, and a cancellation of an open one. */
  lemma AnswerCleansUp(t: Tables, h: Digest, answer: string, now: nat)
    requires ContractBound(t.seeds, t.contracts) && QuestionInv(t.seeds, t.questions)
    requires h in t.questions && Open(t.questions[h].status)
    requires t.questions[h].expiresAt <= now || answer in CANCEL_ANSWERS
    ensures ClosedAndCleanedUp(t, h, now, AnswerSpec(t, h, answer, now))
  {
    if t.questions[h].expiresAt <= now {
      CloseCleansUp(t, h, Expired, TtlExpired, Retirement(now, TTL_EXPIRED));
    } else {
      CloseCleansUp(t, h, Cancelled, ExplicitCancel, Retirement(now, CANCELLED));
    }
  }

  /** Expiring any number of questions at once, whatever seeds they share: the totals count each row once. */
  lemma RetireExpiredCleansUp(t: Tables, observed: nat)
    requires ContractBound(t.seeds, t.contracts) && QuestionInv(t.seeds, t.questions)
    ensures AllExpiredAndCleanedUp(t, observed, RetireExpiredSpec(t, observed))
  {
    var hs := ExpiredAt(t.questions, observed);
    var closed := t.(questions := CloseQuestions(t.questions, hs));
    var bindings := BoundBy(t.questions, hs);
    var mark := Retirement(observed, TTL_EXPIRED);
    BoundByExist(t, hs);
    CleanupCleansUp(closed, bindings, mark);
    SameLedgerCleansUp(closed, t, Cleanup(closed, bindings, mark), bindings, mark, CleanupCounts(closed, bindings));
    ExpiredAreDue(t.questions, observed);
  }

  lemma ExpiredAreDue(questions: Questions, at: nat)
    ensures forall h :: h in ExpiredAt(questions, at) <==> h in questions && Due(questions[h], at)
    ensures BoundBy(questions, ExpiredAt(questions, at)) == BoundByDue(questions, at)
  {
  }

  lemma BoundByExist(t: Tables, hs: set<Digest>)
    requires QuestionInv(t.seeds, t.questions) && hs <= t.questions.Keys
    ensures forall b :: b in BoundBy(t.questions, hs) ==> b.key in t.seeds && t.seeds[b.key].hash == b.hash
  {
    forall b | b in BoundBy(t.questions, hs) ensures b.key in t.seeds && t.seeds[b.key].hash == b.hash {
      var h :| h in hs && b in t.questions[h].payload.bindings;
      assert BoundSeedsExist(t.seeds, t.questions[h].payload.bindings);
    }
  }
}
