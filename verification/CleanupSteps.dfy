/**
  Cleaning up candidates one binding, one arc or one question at a time comes to the same
  as cleaning up all of them at once, rows and counts alike: a row already retired by an
  earlier step is neither touched nor counted again.
  */
module CleanupSteps {
  import opened Basics
  import opened EventTypes
  import opened EventSpec
  import opened EventLedger
  import opened QuestionMachine

  // ----- Rows -----------------------------------------------------------------------

  lemma RetireSeedRowsTwice(seeds: Seeds, ks: set<RowKey>, js: set<RowKey>, mark: Retirement)
    ensures RetireSeedRows(RetireSeedRows(seeds, ks, mark), js, mark) == RetireSeedRows(seeds, ks + js, mark)
  {
  }

  lemma RetireContractRowsTwice(contracts: Contracts, cs: set<string>, ds: set<string>, mark: Retirement)
    ensures RetireContractRows(RetireContractRows(contracts, cs, mark), ds, mark) == RetireContractRows(contracts, cs + ds, mark)
  {
  }

  lemma RetireArcRowsTwice(arcs: Arcs, ks: set<RowKey>, js: set<RowKey>, mark: Retirement)
    ensures RetireArcRows(RetireArcRows(arcs, ks, mark), js, mark) == RetireArcRows(arcs, ks + js, mark)
  {
  }

  lemma RetireNoRows(t: Tables, mark: Retirement)
    ensures RetireSeedRows(t.seeds, {}, mark) == t.seeds
    ensures RetireContractRows(t.contracts, {}, mark) == t.contracts
    ensures RetireArcRows(t.arcs, {}, mark) == t.arcs
  {
  }

  // ----- Which rows -------------------------------------------------------------------

  /** The proposed contracts left on further seeds, once those on `ks` are retired. */
  lemma ProposedLeft(contracts: Contracts, ks: set<RowKey>, js: set<RowKey>, mark: Retirement)
    requires ks !! js
    ensures var contracts' := RetireContractRows(contracts, ProposedOn(contracts, ks), mark);
            && ProposedOn(contracts', js) == ProposedOn(contracts, js)
            && ProposedOn(contracts, ks + js) == ProposedOn(contracts, ks) + ProposedOn(contracts, js)
            && ProposedOn(contracts, ks) !! ProposedOn(contracts, js)
  {
  }

  /** The proposed arcs left over further seeds, once those over `ks` are retired. */
  lemma ArcsLeft(arcs: Arcs, ks: set<RowKey>, js: set<RowKey>, mark: Retirement)
    ensures var arcs' := RetireArcRows(arcs, ProposedArcsOver(arcs, ks), mark);
            && ProposedArcsOver(arcs', js) == ProposedArcsOver(arcs, js) - ProposedArcsOver(arcs, ks)
            && ProposedArcsOver(arcs, ks + js) == ProposedArcsOver(arcs, ks) + ProposedArcsOver(arcs', js)
  {
    var arcs' := RetireArcRows(arcs, ProposedArcsOver(arcs, ks), mark);
    assert forall a :: a in arcs' ==> arcs'[a].bindings == arcs[a].bindings;
    assert ProposedArcsOver(arcs', js) == ProposedArcsOver(arcs, js) - ProposedArcsOver(arcs, ks);
  }

  /** The open candidates left of further bindings, once those of `done` are retired. */
  lemma CandidatesLeft(t: Tables, u: Tables, done: set<SeedBinding>, more: set<SeedBinding>, mark: Retirement)
    requires u.seeds == RetireSeedRows(t.seeds, OpenCandidates(t, done), mark)
    ensures OpenCandidates(u, more) == OpenCandidates(t, more) - OpenCandidates(t, done)
    ensures OpenCandidates(t, done + more) == OpenCandidates(t, done) + OpenCandidates(u, more)
    ensures OpenCandidates(t, done) !! OpenCandidates(u, more)
  {
  }

  // ----- Cleaning up in two goes ---------------------------------------------------------

  function Add(a: Counts, b: Counts): Counts { Counts(a.seeds + b.seeds, a.arcs + b.arcs, a.contracts + b.contracts) }

  /** Two cleanups under one mark equal one cleanup of all the bindings, and their counts add up. */
  lemma CleanupTwice(t: Tables, done: set<SeedBinding>, more: set<SeedBinding>, mark: Retirement)
    ensures Cleanup(Cleanup(t, done, mark), more, mark) == Cleanup(t, done + more, mark)
    ensures Add(CleanupCounts(t, done), CleanupCounts(Cleanup(t, done, mark), more)) == CleanupCounts(t, done + more)
  {
    var u := Cleanup(t, done, mark);
    CandidatesLeft(t, u, done, more, mark);
    hide OpenCandidates, RetireCandidates, CandidateCounts;
    RetireTwice(t, OpenCandidates(t, done), OpenCandidates(u, more), mark);
  }

  lemma RetireTwice(t: Tables, ks: set<RowKey>, js: set<RowKey>, mark: Retirement)
    requires ks !! js
    ensures RetireCandidates(RetireCandidates(t, ks, mark), js, mark) == RetireCandidates(t, ks + js, mark)
    ensures Add(CandidateCounts(t, ks), CandidateCounts(RetireCandidates(t, ks, mark), js)) == CandidateCounts(t, ks + js)
  {
    var u := RetireCandidates(t, ks, mark);
    ProposedLeft(t.contracts, ks, js, mark);
    ArcsLeft(t.arcs, ks, js, mark);
    RetireSeedRowsTwice(t.seeds, ks, js, mark);
    RetireContractRowsTwice(t.contracts, ProposedOn(t.contracts, ks), ProposedOn(u.contracts, js), mark);
    RetireArcRowsTwice(t.arcs, ProposedArcsOver(t.arcs, ks), ProposedArcsOver(u.arcs, js), mark);
    hide ProposedOn, ProposedArcsOver, RetireSeedRows, RetireContractRows, RetireArcRows;
    CountsAddUp(t, u, ks, js);
  }

  lemma CountsAddUp(t: Tables, u: Tables, ks: set<RowKey>, js: set<RowKey>)
    requires ks !! js
    requires ProposedOn(t.contracts, ks) !! ProposedOn(t.contracts, js)
    requires ProposedOn(u.contracts, js) == ProposedOn(t.contracts, js)
    requires ProposedOn(t.contracts, ks + js) == ProposedOn(t.contracts, ks) + ProposedOn(t.contracts, js)
    requires ProposedArcsOver(u.arcs, js) == ProposedArcsOver(t.arcs, js) - ProposedArcsOver(t.arcs, ks)
    requires ProposedArcsOver(t.arcs, ks + js) == ProposedArcsOver(t.arcs, ks) + ProposedArcsOver(u.arcs, js)
    ensures |ks + js| == |ks| + |js|
    ensures |ProposedOn(t.contracts, ks + js)| == |ProposedOn(t.contracts, ks)| + |ProposedOn(u.contracts, js)|
    ensures |ProposedArcsOver(t.arcs, ks + js)| == |ProposedArcsOver(t.arcs, ks)| + |ProposedArcsOver(u.arcs, js)|
  {
  }

  lemma CleanupOfNothing(t: Tables, mark: Retirement)
    ensures Cleanup(t, {}, mark) == t && CleanupCounts(t, {}) == Counts(0, 0, 0)
  {
    assert OpenCandidates(t, {}) == {};
    assert ProposedOn(t.contracts, {}) == {};
    assert ProposedArcsOver(t.arcs, {}) == {};
    RetireNoRows(t, mark);
  }

  // ----- One question of several -------------------------------------------------------------

  lemma BoundByOneMore(questions: Questions, hs: set<Digest>, h: Digest)
    requires hs <= questions.Keys && h in questions
    ensures BoundBy(questions, hs + {h}) == BoundBy(questions, hs) + AsSet(questions[h].payload.bindings)
  {
  }

  lemma BoundByNone(questions: Questions)
    ensures BoundBy(questions, {}) == {}
  {
  }
}
