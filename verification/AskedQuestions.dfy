/**
  What stored questions are about. The transaction that opens a question takes the seed
  manifest its caller read; here every manifest was read from the seeds, at some earlier
  point of the run.

  Main results: QuestionsAreAboutStoredSeeds and, from it, OneQuestionPerSeeds.
  */
module AskedQuestions {
  import opened Basics
  import opened EventTypes
  import opened EventSpec
  import opened EventLedger
  import opened LedgerOps
  import opened QuestionMachine
  import opened Manifest
  import opened Runs
  import opened Revisions

  // ----- Manifests of stored seeds ------------------------------------------------------

  /** An entry says of a seed revision what its row says. */
  ghost predicate EntryStored(seeds: Seeds, e: SeedEntry) {
    && e.key in seeds && e.seedHash == seeds[e.key].hash && e.order == seeds[e.key].payload.order
    && e.context == seeds[e.key].payload.context
    && e.outline == (if seeds[e.key].payload.outline.commit == "" then None else Some(seeds[e.key].payload.outline))
  }

  /** Stored seed revisions of one context and one outline binding, strictly in dependency order, none twice. */
  ghost predicate ManifestStored(seeds: Seeds, m: SeedManifest) {
    && m.entries != [] && StrictlyIncreasing(SeedPlace(), m.entries)
    && (forall i, j :: 0 <= i < j < |m.entries| ==> m.entries[i].key.id != m.entries[j].key.id)
    && forall e :: e in m.entries ==> EntryStored(seeds, e) && e.context == m.context && e.outline == m.outline
  }

  ghost predicate LiveEntry(seeds: Seeds, e: SeedEntry) { EntryStored(seeds, e) && seeds[e.key].status != SeedRetired }

  lemma {:induction false} EntriesAreStored(seeds: Seeds, refs: seq<RowKey>)
    ensures SeedEntries(seeds, refs).Ok? <==> NoneRetired(seeds, refs)
    ensures SeedEntries(seeds, refs).Ok? ==>
              var es := SeedEntries(seeds, refs).value;
              && |es| == |refs|
              && forall i :: 0 <= i < |refs| ==> es[i].key == refs[i] && LiveEntry(seeds, es[i])
  {
    if refs != [] {
      EntriesAreStored(seeds, refs[1..]);
      assert refs == [refs[0]] + refs[1..];
      assert forall k :: k in refs <==> k == refs[0] || k in refs[1..];
    }
  }

  /** Entries of live seeds in one context have distinct orders and distinct ids. */
  lemma DistinctEntries(seeds: Seeds, d: SeedEntry, e: SeedEntry)
    requires SeedShape(seeds) && SeedLineage(seeds) && DistinctPlaces(seeds)
    requires LiveEntry(seeds, d) && LiveEntry(seeds, e) && d != e && d.context == e.context
    ensures d.order != e.order && d.key.id != e.key.id
  {
    assert !SamePlace(seeds[d.key].payload, seeds[e.key].payload);
    LiveRevisionIsUnique(seeds, d.key, e.key);
  }

  /** What is known of a seed manifest that was read. */
  lemma ReadEntries(seeds: Seeds, refs: seq<RowKey>)
    requires SeedManifestOf(seeds, refs).Ok?
    ensures ReferenceError(refs).None? && SeedEntries(seeds, refs).Ok?
    ensures var m := SeedManifestOf(seeds, refs).value;
            && m.entries != [] && m.entries == Sort(SeedPlace(), SeedEntries(seeds, refs).value)
            && forall e :: e in m.entries ==> e.context == m.context && e.outline == m.outline
  {
    var m := SeedManifestOf(seeds, refs).value;
    forall e | e in m.entries ensures e.context == m.context && e.outline == m.outline {
      var j :| 0 <= j < |m.entries| && m.entries[j] == e;
      assert SeedContexts(m.entries)[j] == SeedContexts(m.entries)[0] && SeedOutlines(m.entries)[j] == SeedOutlines(m.entries)[0];
    }
  }

  /** A seed manifest that was read is one of stored seeds. */
  lemma ReadIsStored(seeds: Seeds, refs: seq<RowKey>)
    requires SeedShape(seeds) && SeedLineage(seeds) && DistinctPlaces(seeds) && SeedManifestOf(seeds, refs).Ok?
    ensures ManifestStored(seeds, SeedManifestOf(seeds, refs).value)
  {
    hide SeedShape, SeedLineage, DistinctPlaces, SeedManifestOf, LiveEntry, Sort, ManifestStored, Nondecreasing;
    ReadEntries(seeds, refs);
    EntriesAreStored(seeds, refs);
    SortedAreLive(seeds, refs, SeedEntries(seeds, refs).value);
    LiveAreStored(seeds, SeedManifestOf(seeds, refs).value);
  }

  lemma SortedAreLive(seeds: Seeds, refs: seq<RowKey>, es: seq<SeedEntry>)
    requires ReferenceError(refs).None? && |es| == |refs|
    requires forall i :: 0 <= i < |refs| ==> es[i].key == refs[i] && LiveEntry(seeds, es[i])
    ensures var entries := Sort(SeedPlace(), es);
            && (forall e :: e in entries ==> LiveEntry(seeds, e))
            && Nondecreasing(SeedPlace(), entries) && forall i, j :: 0 <= i < j < |entries| ==> entries[i] != entries[j]
  {
    hide LiveEntry, Sort, Nondecreasing;
    forall i, j | 0 <= i < j < |es| ensures es[i] != es[j] { assert refs[i] != refs[j]; }
    SortIsNondecreasing(SeedPlace(), es);
    SortKeepsDistinct(SeedPlace(), es);
  }

  lemma LiveAreStored(seeds: Seeds, m: SeedManifest)
    requires SeedShape(seeds) && SeedLineage(seeds) && DistinctPlaces(seeds) && m.entries != []
    requires Nondecreasing(SeedPlace(), m.entries) && forall i, j :: 0 <= i < j < |m.entries| ==> m.entries[i] != m.entries[j]
    requires forall e :: e in m.entries ==> LiveEntry(seeds, e)
    requires forall e :: e in m.entries ==> e.context == m.context && e.outline == m.outline
    ensures ManifestStored(seeds, m)
  {
    hide SeedShape, SeedLineage, DistinctPlaces, EntryStored;
    forall i, j | 0 <= i < j < |m.entries|
      ensures SeedPlace()(m.entries[i]).order < SeedPlace()(m.entries[j]).order && m.entries[i].key.id != m.entries[j].key.id
    {
      assert m.entries[i] in m.entries && m.entries[j] in m.entries;
      DistinctEntries(seeds, m.entries[i], m.entries[j]);
    }
  }

  /** The seeds are of one context and one outline binding. */
  ghost predicate Alike(seeds: Seeds, refs: seq<RowKey>)
    requires NoneRetired(seeds, refs)
  {
    forall j, k :: j in refs && k in refs ==>
      seeds[j].payload.context == seeds[k].payload.context && seeds[j].payload.outline == seeds[k].payload.outline
  }

  ghost predicate EntriesAlike(es: seq<SeedEntry>) {
    forall d, e :: d in es && e in es ==> d.context == e.context && d.outline == e.outline
  }

  lemma ContextsDecide(entries: seq<SeedEntry>)
    requires entries != [] && forall e :: e in entries && e.outline.Some? ==> e.outline.value.All()
    ensures ContextError(SeedContexts(entries), SeedOutlines(entries)).None? <==> EntriesAlike(entries)
  {
    if ContextError(SeedContexts(entries), SeedOutlines(entries)).None? {
      forall e | e in entries ensures e.context == entries[0].context && e.outline == entries[0].outline {
        var i :| 0 <= i < |entries| && entries[i] == e;
        assert SeedContexts(entries)[i] == SeedContexts(entries)[0] && SeedOutlines(entries)[i] == SeedOutlines(entries)[0];
      }
    }
  }

  lemma EntriesCompare(seeds: Seeds, d: SeedEntry, e: SeedEntry)
    requires SeedShape(seeds) && EntryStored(seeds, d) && EntryStored(seeds, e)
    ensures d.context == e.context && d.outline == e.outline <==>
              && seeds[d.key].payload.context == seeds[e.key].payload.context
              && seeds[d.key].payload.outline == seeds[e.key].payload.outline
    ensures d.outline.Some? ==> d.outline.value.All()
  {
    OutlinesDecide(seeds, d.key, e.key);
  }

  lemma AlikeDecides(seeds: Seeds, refs: seq<RowKey>, es: seq<SeedEntry>)
    requires SeedShape(seeds) && NoneRetired(seeds, refs) && |es| == |refs|
    requires forall i :: 0 <= i < |refs| ==> es[i].key == refs[i] && EntryStored(seeds, es[i])
    ensures EntriesAlike(es) <==> Alike(seeds, refs)
    ensures forall e :: e in es && e.outline.Some? ==> e.outline.value.All()
  {
    hide SeedShape, EntryStored;
    forall i, j | 0 <= i < |es| && 0 <= j < |es|
      ensures es[i].context == es[j].context && es[i].outline == es[j].outline <==>
                && seeds[refs[i]].payload.context == seeds[refs[j]].payload.context
                && seeds[refs[i]].payload.outline == seeds[refs[j]].payload.outline
      ensures es[i].outline.Some? ==> es[i].outline.value.All()
    {
      EntriesCompare(seeds, es[i], es[j]);
    }
    if EntriesAlike(es) {
      forall j, k | j in refs && k in refs
        ensures seeds[j].payload.context == seeds[k].payload.context && seeds[j].payload.outline == seeds[k].payload.outline
      {
        var a :| 0 <= a < |refs| && refs[a] == j;
        var b :| 0 <= b < |refs| && refs[b] == k;
        assert es[a] in es && es[b] in es;
      }
    }
    if Alike(seeds, refs) {
      forall d, e | d in es && e in es ensures d.context == e.context && d.outline == e.outline {
        var a :| 0 <= a < |es| && es[a] == d;
        var b :| 0 <= b < |es| && es[b] == e;
        assert refs[a] in refs && refs[b] in refs;
      }
    }
  }

  /** A seed manifest can be read exactly of distinct live seeds of one context and one outline binding. */
  lemma SeedManifestSucceeds(seeds: Seeds, refs: seq<RowKey>)
    requires SeedShape(seeds)
    ensures SeedManifestOf(seeds, refs).Ok? <==> NonEmptyDistinct(refs) && NoneRetired(seeds, refs) && Alike(seeds, refs)
  {
    hide SeedShape, EntryStored, Sort, Alike, ContextError, SeedContexts, SeedOutlines;
    EntriesAreStored(seeds, refs);
    if refs != [] && NoneRetired(seeds, refs) {
      var es := SeedEntries(seeds, refs).value;
      AlikeDecides(seeds, refs, es);
      ContextsDecide(Sort(SeedPlace(), es));
    }
  }

  /** What a seed manifest says of its seeds never changes. */
  lemma StoredStays(seeds: Seeds, seeds': Seeds, m: SeedManifest)
    requires ManifestStored(seeds, m) && SeedsKept(seeds, seeds')
    ensures ManifestStored(seeds', m)
  {
    forall e | e in m.entries ensures EntryStored(seeds', e) {
      assert EntryStored(seeds, e) && SeedKept(seeds[e.key], seeds'[e.key]);
    }
  }

  // ----- One transaction ------------------------------------------------------------------

  /** The question filed under h is about the entries of the manifest with that hash. */
  ghost predicate AboutManifest(seeds: Seeds, h: Digest, row: QuestionRow) {
    && h.of.OfSeedManifest? && row.payload.bindings == BindingsOf(h.of.seeds.entries)
    && ManifestStored(seeds, h.of.seeds)
  }

  ghost predicate AllAbout(t: Tables) { forall h :: h in t.questions ==> AboutManifest(t.seeds, h, t.questions[h]) }

  /** The questions a table has beyond those of another. */
  ghost predicate OnlyOpened(t: Tables, u: Tables, op: Op) {
    forall h :: h in u.questions && h !in t.questions ==>
      op.OpenQuestion? && h == Sha256(OfSeedManifest(op.manifest)) && u.questions[h].payload.bindings == BindingsOf(op.manifest.entries)
  }

  /** Only opening a question adds one, under the hash of its manifest and about its entries. */
  lemma OnlyOpeningAdds(t: Tables, op: Op, env: Env)
    requires ArgumentError(op).None?
    ensures Apply(t, op, env).Ok? ==> OnlyOpened(t, Apply(t, op, env).value.tables, op)
  {
    if OffQuestions(op) {
      OffQuestionsUntouched(t, op, env);
      hide Apply;
    } else if op.AnswerQuestion? {
      AnswersAddNone(t, op.manifestHash, op.answer, env.now);
      hide AnswerSpec;
    } else if op.OpenQuestion? {
      OpeningAddsOne(t, op.manifest, op.question, op.ttl, env.now);
      hide OpenQuestionSpec;
    }
  }

  lemma OpeningAddsOne(t: Tables, manifest: SeedManifest, q: QuestionInput, ttl: nat, now: nat)
    requires QuestionInputError(CaseFold, q).None?
    ensures var o := OpenQuestionSpec(t, manifest, q, ttl, now);
            o.Ok? ==> forall h :: h in o.value.tables.questions && h !in t.questions ==>
              h == Sha256(OfSeedManifest(manifest)) && o.value.tables.questions[h].payload.bindings == BindingsOf(manifest.entries)
  {
    hide QuestionBindingError, QuestionInputError, RecommendedId, BindingsOf;
  }

  lemma AnswersAddNone(t: Tables, h: Digest, answer: string, now: nat)
    ensures var o := AnswerSpec(t, h, answer, now); o.Ok? ==> o.value.tables.questions.Keys == t.questions.Keys
  {
    hide SelectOption, SelectedOption, OpenCandidates, CandidateCounts, RetireSeedRows, RetireContractRows, RetireArcRows, CaseFold;
  }

  lemma StepKeepsAbout(s: State, c: Call)
    requires Inv(s) && AllAbout(s.tables) && (c.op.OpenQuestion? ==> ManifestStored(s.tables.seeds, c.op.manifest))
    ensures AllAbout(Step(s, c).state.tables)
  {
    StepKeeps(s, c);
    StepCommits(s, c);
    hide Inv, Step, Apply, ManifestStored;
    if Committed(s, c) {
      OnlyOpeningAdds(s.tables, c.op, c.env);
      LaterIsAbout(s.tables, Step(s, c).state.tables, c.op);
    }
  }

  lemma LaterIsAbout(t: Tables, u: Tables, op: Op)
    requires AllAbout(t) && SeedsKept(t.seeds, u.seeds) && QuestionsKept(t.questions, u.questions) && OnlyOpened(t, u, op)
    requires op.OpenQuestion? ==> ManifestStored(t.seeds, op.manifest)
    ensures AllAbout(u)
  {
    hide ManifestStored, SeedsKept;
    forall h | h in u.questions ensures AboutManifest(u.seeds, h, u.questions[h]) {
      if h in t.questions { assert AboutManifest(t.seeds, h, t.questions[h]) && QuestionKept(t.questions[h], u.questions[h]); }
      StoredStays(t.seeds, u.seeds, h.of.seeds);
    }
  }

  // ----- Runs in which questions are opened by asking -----------------------------------------

  /** The manifest this call carries was read from the seeds when the run was j calls long. */
  ghost predicate ReadAt(calls: seq<Call>, i: nat, j: nat, refs: seq<RowKey>)
    requires i < |calls| && calls[i].op.OpenQuestion?
  {
    j <= i && SeedManifestOf(Run(EMPTY, calls[..j]).tables.seeds, refs) == Ok(calls[i].op.manifest)
  }

  /** Every call that opens a question carries a manifest that was read before it. */
  ghost predicate AskedRun(calls: seq<Call>) {
    forall i :: 0 <= i < |calls| && calls[i].op.OpenQuestion? ==> exists j: nat, refs :: ReadAt(calls, i, j, refs)
  }

  /** Asking after any run, with what was read at any point of it, is one more call of such a run. */
  lemma AskingExtends(calls: seq<Call>, j: nat, a: Asking)
    requires AskedRun(calls) && j <= |calls| && AskRead(Run(EMPTY, calls[..j]), a).Ok?
    ensures var more := calls + [OpenCall(a, AskRead(Run(EMPTY, calls[..j]), a).value)];
            AskedRun(more) && Run(EMPTY, more) == Ask(Run(EMPTY, calls[..j]), Run(EMPTY, calls), a).state
  {
    hide Step, SeedManifestOf, AskedRun;
    var c := OpenCall(a, AskRead(Run(EMPTY, calls[..j]), a).value);
    ReadLast(calls, c, j, a.refs);
    OtherCallsExtend(calls, c);
    RunSplits(EMPTY, calls, [c]);
    RunOne(Run(EMPTY, calls), c);
  }

  lemma RunOne(s: State, c: Call)
    ensures Run(s, [c]) == Step(s, c).state
  {
    hide Step;
    assert [c][1..] == [];
  }

  lemma ReadLast(calls: seq<Call>, c: Call, j: nat, refs: seq<RowKey>)
    requires j <= |calls| && c.op.OpenQuestion? && SeedManifestOf(Run(EMPTY, calls[..j]).tables.seeds, refs) == Ok(c.op.manifest)
    ensures ReadAt(calls + [c], |calls|, j, refs)
  {
    hide Step, SeedManifestOf;
    assert (calls + [c])[..j] == calls[..j];
  }

  /** So is any call that opens no question. */
  lemma OtherCallsExtend(calls: seq<Call>, c: Call)
    requires AskedRun(calls)
    requires c.op.OpenQuestion? ==> exists j: nat, refs :: ReadAt(calls + [c], |calls|, j, refs)
    ensures AskedRun(calls + [c])
  {
    hide Step, SeedManifestOf;
    var more := calls + [c];
    forall i | 0 <= i < |more| && more[i].op.OpenQuestion? ensures exists j: nat, refs :: ReadAt(more, i, j, refs) {
      if i < |calls| {
        var j: nat, refs: seq<RowKey> :| ReadAt(calls, i, j, refs);
        assert more[..j] == calls[..j];
        assert ReadAt(more, i, j, refs);
      }
    }
  }

  lemma PrefixKeeps(calls: seq<Call>, n: nat)
    requires n <= |calls|
    ensures Inv(Run(EMPTY, calls[..n]))
  {
    hide Inv, Step;
    EmptyInv();
    RunKeeps(EMPTY, calls[..n]);
  }

  lemma PrefixSplits(calls: seq<Call>, j: nat, n: nat)
    requires j <= n <= |calls|
    ensures Run(EMPTY, calls[..n]) == Run(Run(EMPTY, calls[..j]), calls[j..n])
  {
    hide Step;
    RunSplits(EMPTY, calls[..j], calls[j..n]);
    assert calls[..j] + calls[j..n] == calls[..n];
  }

  lemma RunKeepsStored(s: State, calls: seq<Call>, m: SeedManifest)
    requires Inv(s) && ManifestStored(s.tables.seeds, m)
    ensures ManifestStored(Run(s, calls).tables.seeds, m)
  {
    hide Inv, Step, TablesKept, ManifestStored, SeedsKept;
    RunKeeps(s, calls);
    LaterKeepsSeeds(s, Run(s, calls));
    StoredStays(s.tables.seeds, Run(s, calls).tables.seeds, m);
  }

  lemma ReadInState(s: State, refs: seq<RowKey>)
    requires Inv(s) && SeedManifestOf(s.tables.seeds, refs).Ok?
    ensures ManifestStored(s.tables.seeds, SeedManifestOf(s.tables.seeds, refs).value)
  {
    hide SeedManifestOf, ManifestStored;
    ReadIsStored(s.tables.seeds, refs);
  }

  /** What was read at one point of a run is of stored seeds at every later one. */
  lemma ReadStaysStored(calls: seq<Call>, j: nat, n: nat, refs: seq<RowKey>)
    requires j <= n <= |calls| && SeedManifestOf(Run(EMPTY, calls[..j]).tables.seeds, refs).Ok?
    ensures ManifestStored(Run(EMPTY, calls[..n]).tables.seeds, SeedManifestOf(Run(EMPTY, calls[..j]).tables.seeds, refs).value)
  {
    hide Inv, Run, Step, SeedManifestOf, ManifestStored;
    var read := Run(EMPTY, calls[..j]);
    PrefixKeeps(calls, j);
    ReadInState(read, refs);
    PrefixSplits(calls, j, n);
    RunKeepsStored(read, calls[j..n], SeedManifestOf(read.tables.seeds, refs).value);
  }

  lemma {:induction false} AboutUpTo(calls: seq<Call>, n: nat)
    requires AskedRun(calls) && n <= |calls|
    ensures AllAbout(Run(EMPTY, calls[..n]).tables)
    decreases n
  {
    hide Run, Step, Inv, AskedRun, AllAbout, ManifestStored, SeedManifestOf;
    if n == 0 {
      NoneAsked(calls);
    } else {
      AboutUpTo(calls, n - 1);
      OpensStored(calls, n - 1);
      PrefixKeeps(calls, n - 1);
      StepKeepsAbout(Run(EMPTY, calls[..n - 1]), calls[n - 1]);
      PrefixSplits(calls, n - 1, n);
      RunOne(Run(EMPTY, calls[..n - 1]), calls[n - 1]);
      assert calls[n - 1..n] == [calls[n - 1]];
    }
  }

  lemma NoneAsked(calls: seq<Call>)
    ensures AllAbout(Run(EMPTY, calls[..0]).tables)
  {
    assert calls[..0] == [];
  }

  lemma OpensStored(calls: seq<Call>, i: nat)
    requires AskedRun(calls) && i < |calls|
    ensures calls[i].op.OpenQuestion? ==> ManifestStored(Run(EMPTY, calls[..i]).tables.seeds, calls[i].op.manifest)
  {
    hide Run, Step, ManifestStored, SeedManifestOf;
    if calls[i].op.OpenQuestion? {
      var j: nat, refs: seq<RowKey> :| ReadAt(calls, i, j, refs);
      ReadStaysStored(calls, j, i, refs);
    }
  }

  /**
    In every state reached by asking, the question filed under h binds exactly the entries
    of the seed manifest with hash h, and these name stored seed revisions as they are.
    */
  lemma QuestionsAreAboutStoredSeeds(calls: seq<Call>, h: Digest)
    requires AskedRun(calls) && h in Run(EMPTY, calls).tables.questions
    ensures AboutManifest(Run(EMPTY, calls).tables.seeds, h, Run(EMPTY, calls).tables.questions[h])
  {
    hide Inv, Step, ManifestStored, AskedRun, BindingsOf;
    AboutUpTo(calls, |calls|);
    assert calls[..|calls|] == calls;
  }

  // ----- One question for the same seeds ---------------------------------------------------------

  function BoundKeys(row: QuestionRow): set<RowKey> { set b | b in row.payload.bindings :: b.key }

  function EntryKeys(entries: seq<SeedEntry>): set<RowKey> { set e | e in entries :: e.key }

  /** A set of seed revisions is asked about once and never again, in whatever order it is named. */
  lemma OneQuestionPerSeeds(calls: seq<Call>, h: Digest, h': Digest)
    requires AskedRun(calls) && h in Run(EMPTY, calls).tables.questions && h' in Run(EMPTY, calls).tables.questions
    requires BoundKeys(Run(EMPTY, calls).tables.questions[h]) == BoundKeys(Run(EMPTY, calls).tables.questions[h'])
    ensures h == h'
  {
    hide Step, AskedRun, ManifestStored, BindingsOf;
    var t := Run(EMPTY, calls).tables;
    QuestionsAreAboutStoredSeeds(calls, h);
    QuestionsAreAboutStoredSeeds(calls, h');
    KeysAreOfEntries(t.questions[h], h.of.seeds.entries);
    KeysAreOfEntries(t.questions[h'], h'.of.seeds.entries);
    KeysDecideManifest(t.seeds, h.of.seeds, h'.of.seeds);
  }

  lemma KeysAreOfEntries(row: QuestionRow, entries: seq<SeedEntry>)
    requires row.payload.bindings == BindingsOf(entries)
    ensures BoundKeys(row) == EntryKeys(entries)
  {
    var bindings := row.payload.bindings;
    forall k | k in EntryKeys(entries) ensures k in BoundKeys(row) {
      var i :| 0 <= i < |entries| && entries[i].key == k;
      assert bindings[i] in bindings && bindings[i].key == k;
    }
    forall k | k in BoundKeys(row) ensures k in EntryKeys(entries) {
      var i :| 0 <= i < |bindings| && bindings[i].key == k;
      assert entries[i] in entries && entries[i].key == k;
    }
  }

  lemma KeysDecideManifest(seeds: Seeds, m: SeedManifest, m': SeedManifest)
    requires ManifestStored(seeds, m) && ManifestStored(seeds, m') && EntryKeys(m.entries) == EntryKeys(m'.entries)
    ensures m == m'
  {
    hide EntryKeys, EntryStored, StrictlyIncreasing;
    EntriesIncluded(seeds, m, m');
    EntriesIncluded(seeds, m', m);
    IncreasingIsUnique(SeedPlace(), m.entries, m'.entries);
    assert m.entries[0] in m.entries && m'.entries[0] in m'.entries;
  }

  lemma EntriesIncluded(seeds: Seeds, m: SeedManifest, m': SeedManifest)
    requires ManifestStored(seeds, m) && ManifestStored(seeds, m') && EntryKeys(m.entries) <= EntryKeys(m'.entries)
    ensures forall e :: e in m.entries ==> e in m'.entries
  {
    hide StrictlyIncreasing;
    forall e | e in m.entries ensures e in m'.entries {
      assert e.key in EntryKeys(m.entries);
      var e' :| e' in m'.entries && e'.key == e.key;
      assert EntryStored(seeds, e) && EntryStored(seeds, e') && e' == e;
    }
  }
}
