/**
  Runs from the empty state on which a promise one would like to make does not hold, each
  next to the exact condition under which it does.
  */
module Scenarios {
  import opened Basics
  import opened EventTypes
  import opened EventSpec
  import opened EventLedger
  import opened LedgerOps
  import opened ArcLedger
  import opened Manifest
  import opened Runs
  import opened Revisions
  import opened Effects

  const ENV := Env(0, None)

  /** A call at the current revision, under a key not used before for its operation. */
  ghost predicate Fresh(s: State, c: Call) {
    Inv(s) && ArgumentError(c.op).None? && c.expected == s.control && LogKeyOf(c) !in s.log
  }

  /** A fresh call whose transaction succeeds commits. */
  lemma Commits(s: State, c: Call, o: Outcome)
    requires Fresh(s, c) && Apply(s.tables, c.op, c.env) == o && o.Ok?
    ensures var next := Step(s, c);
            && Committed(s, c) && next.result.Ok? && Inv(next.state)
            && next.state.tables == o.value.tables && next.state.log.Keys == s.log.Keys + {LogKeyOf(c)}
  {
    hide Apply, Inv;
    StepCommits(s, c);
    StepKeeps(s, c);
  }

  lemma InvHolds(s: State)
    requires Inv(s)
    ensures Ledger(s.tables) && ArcInv(s.tables.arcs) && ArcsBound(s.tables.seeds, s.tables.arcs)
  {
  }

  // Which specification a call applies.

  lemma AppliesCreateSeed(t: Tables, p: SeedPayload)
    requires p.rev == 1 && p.outline.Complete()
    ensures ArgumentError(CreateSeed(p)).None? && Apply(t, CreateSeed(p), ENV) == CreateSeedSpec(t, p)
  {
    hide CreateSeedSpec;
  }

  lemma AppliesCreateArc(t: Tables, p: ArcPayload)
    requires p.rev == 1 && ArcInputError(p.seedIds).None?
    ensures ArgumentError(CreateArc(p)).None? && Apply(t, CreateArc(p), ENV) == CreateArcSpec(t, p)
  {
    hide CreateArcSpec, ArcInputError;
  }

  lemma AppliesSupersedeArc(t: Tables, id: string, input: ArcInput, reason: string)
    ensures Apply(t, SupersedeArc(id, input, reason, false), ENV) == SupersedeArcSpec(t, id, input, reason, false, 0)
  {
    hide SupersedeArcSpec;
  }

  lemma AppliesOpenQuestion(t: Tables, manifest: SeedManifest, q: QuestionInput)
    requires QuestionInputError(CaseFold, q).None?
    ensures ArgumentError(OpenQuestion(manifest, q, 3600)).None?
    ensures Apply(t, OpenQuestion(manifest, q, 3600), ENV) == OpenQuestionSpec(t, manifest, q, 3600, 0)
  {
    hide OpenQuestionSpec, QuestionInputError;
  }

  lemma AppliesRetireSeed(t: Tables, k: RowKey, reason: string)
    ensures Apply(t, RetireSeed(k, reason), ENV) == RetireSeedSpec(t, k, reason, 0)
  {
    hide RetireSeedSpec;
  }

  lemma AppliesProposeContract(t: Tables, input: ContractInput)
    ensures Apply(t, ProposeContract(input), ENV) == ProposeContractSpec(t, input, 0)
  {
    hide ProposeContractSpec;
  }

  lemma RunCons(s: State, c: Call, rest: seq<Call>)
    ensures Run(s, [c] + rest) == Run(Step(s, c).state, rest)
  {
    hide Step;
    assert ([c] + rest)[1..] == rest;
  }

  lemma RunOneMore(s: State, calls: seq<Call>, c: Call)
    ensures Run(s, calls + [c]) == Step(Run(s, calls), c).state
  {
    RunSplits(s, calls, [c]);
    hide Step;
    assert Run(Step(Run(s, calls), c).state, [c][1..]) == Step(Run(s, calls), c).state;
  }

  // ----- Seeds to begin with -----------------------------------------------------------

  const NO_OUTLINE := Outline("", "", "", 0, "")

  function PlainSeed(id: string, context: Context, order: nat): SeedPayload {
    SeedPayload(id, 1, context, order, NO_OUTLINE, None, "")
  }

  /** One more plain seed, created under a key of its own. */
  lemma CreatesSeed(s: State, id: string, context: Context, order: nat, key: string) returns (c: Call)
    requires Inv(s) && !KnownId(s.tables.seeds.Keys, id) && LogKey(CreateSeedOp, key) !in s.log
    requires forall k :: LiveSeed(s.tables.seeds, k) ==> !SamePlace(s.tables.seeds[k].payload, PlainSeed(id, context, order))
    ensures c == Call(CreateSeed(PlainSeed(id, context, order)), key, s.control, ENV)
    ensures var u, k := Step(s, c).state, RowKey(id, 1);
            && Inv(u) && u.log.Keys == s.log.Keys + {LogKey(CreateSeedOp, key)}
            && u.tables == s.tables.(seeds := u.tables.seeds) && u.tables.seeds.Keys == s.tables.seeds.Keys + {k}
            && FreshSeed(u.tables.seeds, k, PlainSeed(id, context, order), None)
            && forall j :: j in s.tables.seeds ==> u.tables.seeds[j] == s.tables.seeds[j]
  {
    hide Inv, LedgerInv, ArcInv, ArcsBound, Apply, Step, Committed, CreateSeedSpec;
    InvHolds(s);
    var p := PlainSeed(id, context, order);
    c := Call(CreateSeed(p), key, s.control, ENV);
    AppliesCreateSeed(s.tables, p);
    CreateSeedEffect(s.tables, p);
    Commits(s, c, CreateSeedSpec(s.tables, p));
    assert p.Key() !in s.tables.seeds;
  }

  // ----- Two active arcs in one context ----------------------------------------------------

  /** A plain arc over one live seed in its context. */
  lemma CreatesArc(s: State, id: string, context: Context, seed: RowKey, key: string) returns (c: Call)
    requires Inv(s) && !KnownId(s.tables.arcs.Keys, id) && LogKey(CreateArcOp, key) !in s.log
    requires LiveIn(s.tables.seeds, seed, seed.id, context)
    requires forall k :: k in s.tables.arcs && Active(s.tables.arcs[k].status) ==> s.tables.arcs[k].payload.context != context
    ensures var p := ArcPayload(id, 1, context, [seed.id], None, "");
            && c == Call(CreateArc(p), key, s.control, ENV)
            && var u := Step(s, c).state;
               && Inv(u) && u.log.Keys == s.log.Keys + {LogKey(CreateArcOp, key)}
               && u.tables == s.tables.(arcs := u.tables.arcs) && u.tables.arcs.Keys == s.tables.arcs.Keys + {RowKey(id, 1)}
               && u.tables.arcs[RowKey(id, 1)].payload == p && u.tables.arcs[RowKey(id, 1)].status == Proposed
               && forall j :: j in s.tables.arcs ==> u.tables.arcs[j] == s.tables.arcs[j]
  {
    hide Inv, LedgerInv, ArcInv, ArcsBound, Apply, Step, Committed, CreateArcSpec, AllLive, BoundLive, ArcInputError;
    InvHolds(s);
    var p := ArcPayload(id, 1, context, [seed.id], None, "");
    c := Call(CreateArc(p), key, s.control, ENV);
    OneIsLive(s.tables.seeds, seed, context);
    AppliesCreateArc(s.tables, p);
    CreateArcEffect(s.tables, p);
    Commits(s, c, CreateArcSpec(s.tables, p));
    assert p.Key() !in s.tables.arcs;
  }

  lemma OneIsLive(seeds: Seeds, seed: RowKey, context: Context)
    requires LiveIn(seeds, seed, seed.id, context)
    ensures AllLive(seeds, [seed.id], context) && ArcInputError([seed.id]).None?
  {
  }

  const MAIN := Context("chain", "main", "", 0)
  const SIDE := Context("chain", "side", "", 0)

  /** Two seeds in two branches of one chain, an arc over each; the second is superseded into the branch of the first. */
  lemma TwoActiveArcs() returns (calls: seq<Call>, last: Call)
    ensures var s := Run(EMPTY, calls);
            && ArcsUnique(s.tables.arcs) && MovesIntoTaken(s, last)
            && !ArcsUnique(Run(EMPTY, calls + [last]).tables.arcs)
  {
    var c0, c1 := TwoSeeds();
    var s2 := Step(Step(EMPTY, c0).state, c1).state;
    hide Inv, Step, ArcsUnique, MovesIntoTaken, LiveIn;
    var c2, c3 := TwoArcs(s2);
    var s4 := Step(Step(s2, c2).state, c3).state;
    calls := [c0, c1, c2, c3];
    RunsFour(EMPTY, c0, c1, c2, c3);
    DistinctNames();
    last := MovesIn(s4, RowKey("b", 1), MAIN, RowKey("s", 1), RowKey("a", 1));
    RunOneMore(EMPTY, calls, last);
  }

  lemma TwoSeeds() returns (c0: Call, c1: Call)
    ensures var s := Step(Step(EMPTY, c0).state, c1).state;
            && Inv(s) && s.tables.arcs == map[] && s.log.Keys == {LogKey(CreateSeedOp, "1"), LogKey(CreateSeedOp, "2")}
            && LiveIn(s.tables.seeds, RowKey("s", 1), "s", MAIN) && LiveIn(s.tables.seeds, RowKey("t", 1), "t", SIDE)
  {
    EmptyInv();
    hide Inv, Step;
    DistinctNames();
    c0 := CreatesSeed(EMPTY, "s", MAIN, 0, "1");
    var s1 := Step(EMPTY, c0).state;
    assert s1.tables.seeds.Keys == {RowKey("s", 1)};
    assert s1.tables.seeds[RowKey("s", 1)].payload == PlainSeed("s", MAIN, 0);
    c1 := CreatesSeed(s1, "t", SIDE, 1, "2");
  }

  lemma TwoArcs(s: State) returns (c2: Call, c3: Call)
    requires Inv(s) && s.tables.arcs == map[] && s.log.Keys == {LogKey(CreateSeedOp, "1"), LogKey(CreateSeedOp, "2")}
    requires LiveIn(s.tables.seeds, RowKey("s", 1), "s", MAIN) && LiveIn(s.tables.seeds, RowKey("t", 1), "t", SIDE)
    ensures var u := Step(Step(s, c2).state, c3).state;
            && Inv(u) && u.tables.seeds == s.tables.seeds && LogKey(SupersedeArcOp, "1") !in u.log
            && u.tables.arcs.Keys == {RowKey("b", 1), RowKey("a", 1)}
            && u.tables.arcs[RowKey("a", 1)].status == Proposed && u.tables.arcs[RowKey("a", 1)].payload.context == MAIN
            && u.tables.arcs[RowKey("b", 1)].status == Proposed && u.tables.arcs[RowKey("b", 1)].payload.context == SIDE
  {
    hide Inv, Step, LiveIn;
    DistinctNames();
    c2 := CreatesArc(s, "a", MAIN, RowKey("s", 1), "1");
    var s3 := Step(s, c2).state;
    assert s3.tables.arcs.Keys == {RowKey("a", 1)};
    assert "main"[0] != "side"[0];
    c3 := CreatesArc(s3, "b", SIDE, RowKey("t", 1), "2");
    assert LogKey(SupersedeArcOp, "1") !in Step(s3, c3).state.log.Keys;
  }

  lemma DistinctNames()
    ensures "s" != "t" && "a" != "b" && "1" != "2"
  {
    assert "s"[0] != "t"[0] && "a"[0] != "b"[0] && "1"[0] != "2"[0];
  }

  lemma RunsFour(s: State, c0: Call, c1: Call, c2: Call, c3: Call)
    ensures Run(s, [c0, c1, c2, c3]) == Step(Step(Step(Step(s, c0).state, c1).state, c2).state, c3).state
  {
    hide Step;
    var s1, s2, s3 := Step(s, c0).state, Step(Step(s, c0).state, c1).state, Step(Step(Step(s, c0).state, c1).state, c2).state;
    RunCons(s, c0, [c1, c2, c3]);
    RunCons(s1, c1, [c2, c3]);
    RunCons(s2, c2, [c3]);
    RunCons(s3, c3, []);
    assert [c0] + [c1, c2, c3] == [c0, c1, c2, c3] && [c1] + [c2, c3] == [c1, c2, c3] && [c2] + [c3] == [c2, c3] && [c3] + [] == [c3];
  }

  /** Superseding one of two unique arcs into the context of the other. */
  lemma MovesIn(s: State, moved: RowKey, context: Context, seed: RowKey, there: RowKey) returns (c: Call)
    requires Inv(s) && LogKey(SupersedeArcOp, "1") !in s.log
    requires s.tables.arcs.Keys == {moved, there} && moved.id != there.id
    requires s.tables.arcs[moved].status == Proposed && s.tables.arcs[there].status == Proposed
    requires s.tables.arcs[there].payload.context == context && s.tables.arcs[moved].payload.context != context
    requires s.tables.arcs[moved].payload.context.chain == context.chain
    requires LiveIn(s.tables.seeds, seed, seed.id, context)
    ensures ArcsUnique(s.tables.arcs) && MovesIntoTaken(s, c) && !ArcsUnique(Step(s, c).state.tables.arcs)
  {
    hide Inv, LedgerInv, ArcInv, ArcsBound, Apply, Step, Committed, SupersedeArcSpec, AllLive, ArcInputError, ArcReplaced, ArcsUnique, ContextTaken;
    InvHolds(s);
    var input := ArcInput(context, [seed.id], None, "");
    c := Call(SupersedeArc(moved.id, input, "moved", false), "1", s.control, ENV);
    OneIsLive(s.tables.seeds, seed, context);
    AppliesSupersedeArc(s.tables, moved.id, input, "moved");
    SupersedeArcEffect(s.tables, moved, input, "moved", false, 0);
    Commits(s, c, SupersedeArcSpec(s.tables, moved.id, input, "moved", false, 0));
    TwoAreUnique(s.tables.arcs, moved, there);
    StepUnique(s, c);
  }

  lemma TwoAreUnique(arcs: map<RowKey, ArcRow>, j: RowKey, k: RowKey)
    requires arcs.Keys == {j, k} && j.id != k.id && Active(arcs[k].status)
    requires arcs[j].payload.context != arcs[k].payload.context
    ensures ArcsUnique(arcs) && ContextTaken(arcs, j.id, arcs[k].payload.context)
  {
    assert k in arcs;
  }

  // ----- A retried question whose seed retired ---------------------------------------------------

  function YesOrNo(): QuestionInput {
    QuestionInput("?", [QuestionOption("y", "yes", ""), QuestionOption("n", "no", "")], "y", "")
  }

  lemma YesOrNoIsValid()
    ensures QuestionInputError(CaseFold, YesOrNo()).None?
  {
    var options := YesOrNo().options;
    assert CaseFold("y")[0] == 'y' && CaseFold("n")[0] == 'n';
    assert CaseFold("yes")[0] == 'y' && CaseFold("no")[0] == 'n';
    assert FoldedIds(CaseFold, options)[0] != FoldedIds(CaseFold, options)[1];
    assert FoldedLabels(CaseFold, options)[0] != FoldedLabels(CaseFold, options)[1];
    assert Matching(CaseFold, options[1..][1..], "y") == [];
    assert Matching(CaseFold, options[1..], "y") == [];
    assert Matching(CaseFold, options, "y") == ["y"];
  }

  /** A single live seed without an outline always has a seed manifest. */
  lemma SingleSeedHasAManifest(seeds: Seeds, k: RowKey)
    requires LiveSeed(seeds, k) && seeds[k].payload.outline == NO_OUTLINE
    ensures SeedManifestOf(seeds, [k]).Ok?
  {
    assert SeedEntries(seeds, [k][1..]) == Ok([]);
    var e := SeedEntryOf(seeds, k).value;
    assert [e] + [] == [e] && [k][0] == k;
    assert SeedEntries(seeds, [k]) == Ok([e]);
    assert Sort(SeedPlace(), [e]) == [e] by {
      assert Sort(SeedPlace(), [e][1..]) == [];
    }
  }

  /** A seed is created, a question about it opened, the seed retired: the retry raises instead of replaying. */
  lemma ARetryRaises() returns (calls: seq<Call>, a: Asking, retire: Call)
    ensures var s := Run(EMPTY, calls);
            && Ask(s, s, a).result.Ok?
            && var s' := Run(Ask(s, s, a).state, [retire]);
               Ask(s', s', a) == Stepped(s', Err(SeedAlreadyRetired))
  {
    EmptyInv();
    var c0 := CreatesSeed(EMPTY, "s", MAIN, 0, "1");
    calls := [c0];
    RunOneMore(EMPTY, [], c0);
    assert [] + [c0] == [c0];
    var s := Run(EMPTY, calls);
    a, retire := RetryRaises(s, RowKey("s", 1));
  }

  /** So it goes with any seed that a question can be asked about. */
  lemma RetryRaises(s: State, k: RowKey) returns (a: Asking, retire: Call)
    requires Inv(s) && Askable(s.tables, k) && s.tables.seeds[k].payload.outline == NO_OUTLINE && s.tables.questions == map[]
    requires LogKey(OpenQuestionOp, "1") !in s.log && LogKey(RetireSeedOp, "1") !in s.log
    ensures Ask(s, s, a).result.Ok?
    ensures var s' := Run(Ask(s, s, a).state, [retire]); Ask(s', s', a) == Stepped(s', Err(SeedAlreadyRetired))
  {
    a := Asks(s, k);
    hide Inv, Ask, Askable;
    var asked := Ask(s, s, a).state;
    retire := Retires(asked, k);
    RunCons(asked, retire, []);
    assert [retire] + [] == [retire];
    AskReplaysWhileSeedsLive(s, [], a, Ask(s, s, a).result.value, [retire], a, []);
    assert k in [k] && !NoneRetired(Step(asked, retire).state.tables.seeds, [k]);
  }

  lemma Asks(s: State, k: RowKey) returns (a: Asking)
    requires Inv(s) && Askable(s.tables, k) && s.tables.seeds[k].payload.outline == NO_OUTLINE && s.tables.questions == map[]
    requires LogKey(OpenQuestionOp, "1") !in s.log && LogKey(RetireSeedOp, "1") !in s.log
    ensures a.refs == [k] && Ask(s, s, a).result.Ok?
    ensures var u := Ask(s, s, a).state; Inv(u) && LiveSeed(u.tables.seeds, k) && LogKey(RetireSeedOp, "1") !in u.log
  {
    hide Inv, LedgerInv, Apply, Step, OpenQuestionSpec, Committed, YesOrNo, QuestionInputError, SeedManifestOf, SameBut;
    SingleSeedHasAManifest(s.tables.seeds, k);
    var manifest := SeedManifestOf(s.tables.seeds, [k]).value;
    a := Asking([k], Sha256(OfSeedManifest(manifest)), YesOrNo(), 3600, "1", s.control, ENV);
    YesOrNoIsValid();
    AppliesOpenQuestion(s.tables, manifest, YesOrNo());
    OpenQuestionEffect(s.tables, [k], manifest, YesOrNo(), 3600, 0);
    Commits(s, OpenCall(a, manifest), OpenQuestionSpec(s.tables, manifest, YesOrNo(), 3600, 0));
  }

  lemma Retires(s: State, k: RowKey) returns (c: Call)
    requires Inv(s) && LiveSeed(s.tables.seeds, k) && LogKey(RetireSeedOp, "1") !in s.log
    ensures c.op.RetireSeed?
    ensures var u := Step(s, c).state; Inv(u) && k in u.tables.seeds && u.tables.seeds[k].status == SeedRetired
  {
    hide Inv, LedgerInv, ArcInv, ArcsBound, Apply, Step, Committed, RetireSeedSpec;
    InvHolds(s);
    c := Call(RetireSeed(k, "over"), "1", s.control, ENV);
    AppliesRetireSeed(s.tables, k, "over");
    RetireSeedEffect(s.tables, k, "over", 0);
    Commits(s, c, RetireSeedSpec(s.tables, k, "over", 0));
  }

  // ----- What a first contract may supersede ----------------------------------------------------------

  /** A first contract of a seed may be proposed as superseding anything at all: itself, or a contract that does not exist. */
  lemma AFirstContractSupersedesAnything(other: Id) returns (calls: seq<Call>)
    ensures var contracts := Run(EMPTY, calls).tables.contracts;
            && contracts.Keys == {"c"} && contracts["c"].payload.rev == 1 && contracts["c"].supersedes == Some(other)
            && !NamesPredecessor(contracts, "c")
  {
    EmptyInv();
    hide Inv, Step;
    var c0 := CreatesSeed(EMPTY, "s", MAIN, 0, "1");
    var s := Step(EMPTY, c0).state;
    var c1 := ProposesFirst(s, RowKey("s", 1), other);
    calls := [c0, c1];
    RunCons(EMPTY, c0, [c1]);
    RunCons(s, c1, []);
    assert [c0] + [c1] == [c0, c1] && [c1] + [] == [c1];
    InvHolds(Step(s, c1).state);
    FirstNamesNone(Step(s, c1).state.tables, "c");
  }

  lemma ProposesFirst(s: State, k: RowKey, other: Id) returns (c: Call)
    requires Inv(s) && LiveSeed(s.tables.seeds, k) && s.tables.contracts == map[] && LogKey(ProposeContractOp, "1") !in s.log
    ensures var u := Step(s, c).state;
            && Inv(u) && u.tables.contracts.Keys == {"c"}
            && u.tables.contracts["c"].payload.rev == 1 && u.tables.contracts["c"].supersedes == Some(other)
  {
    hide Inv, LedgerInv, ArcInv, ArcsBound, Apply, Step, Committed, ProposeContractSpec;
    InvHolds(s);
    var input := ContractInput("c", k, None, other, Claims(None, None, None, None, None), Intent("i", 1, Sha256(OfExternal(""))), map[], "");
    c := Call(ProposeContract(input), "1", s.control, ENV);
    AppliesProposeContract(s.tables, input);
    ProposeContractEffect(s.tables, input, 0);
    Commits(s, c, ProposeContractSpec(s.tables, input, 0));
  }

  /** What a supersession says: it names the contract one revision earlier of the same seed. */
  ghost predicate NamesPredecessor(contracts: Contracts, c: string)
    requires c in contracts
  {
    contracts[c].supersedes.Some? ==>
      var d := contracts[c].supersedes.value;
      d in contracts && contracts[d].payload.seed == contracts[c].payload.seed && contracts[d].payload.rev + 1 == contracts[c].payload.rev
  }

  lemma FirstNamesNone(t: Tables, c: string)
    requires Ledger(t) && c in t.contracts
    ensures NamesPredecessor(t.contracts, c) <==> t.contracts[c].payload.rev >= 2 || t.contracts[c].supersedes.None?
  {
    if t.contracts[c].payload.rev < 2 && t.contracts[c].supersedes.Some? && t.contracts[c].supersedes.value in t.contracts {
      assert t.contracts[t.contracts[c].supersedes.value].payload.rev >= 1;
    }
  }

  /** In every reachable state a contract names its predecessor exactly when it is not a first one with a supersession. */
  lemma SupersessionsNamePredecessors(calls: seq<Call>, c: string)
    requires c in Run(EMPTY, calls).tables.contracts
    ensures var contracts := Run(EMPTY, calls).tables.contracts;
            NamesPredecessor(contracts, c) <==> contracts[c].payload.rev >= 2 || contracts[c].supersedes.None?
  {
    EmptyInv();
    RunKeeps(EMPTY, calls);
    FirstNamesNone(Run(EMPTY, calls).tables, c);
  }

  /** A committed propose_contract stores exactly the supersession it was given, for good: none, exactly if none was given. */
  lemma ProposedSupersessionStays(s: State, c: Call, calls: seq<Call>)
    requires Inv(s) && Committed(s, c) && c.op.ProposeContract?
    ensures var contracts, input := Run(Step(s, c).state, calls).tables.contracts, c.op.contract;
            && input.id in contracts && contracts[input.id].payload.rev == 1
            && contracts[input.id].supersedes == OptionalId(input.supersedes)
            && (contracts[input.id].supersedes.None? <==> input.supersedes == "")
            && (NamesPredecessor(contracts, input.id) <==> input.supersedes == "")
  {
    ProposeContractEffect(s.tables, c.op.contract, c.env.now);
    StoredFirst(s, c, c.op.contract.id, calls);
  }

  /** A committed propose_and_lock_contract stores none, for good, whatever it was given. */
  lemma LockedAtOnceSupersedesNothing(s: State, c: Call, calls: seq<Call>)
    requires Inv(s) && Committed(s, c) && c.op.ProposeAndLockContract?
    ensures var contracts, input := Run(Step(s, c).state, calls).tables.contracts, c.op.contract;
            && input.id in contracts && contracts[input.id].payload.rev == 1
            && contracts[input.id].supersedes.None? && NamesPredecessor(contracts, input.id)
  {
    ProposeAndLockEffect(s.tables, c.op.contract, c.env.now);
    StoredFirst(s, c, c.op.contract.id, calls);
  }

  lemma StoredFirst(s: State, c: Call, id: string, calls: seq<Call>)
    requires Inv(s) && Committed(s, c)
    requires var contracts := Apply(s.tables, c.op, c.env).value.tables.contracts;
             id in contracts && contracts[id].payload.rev == 1
    ensures var before := Apply(s.tables, c.op, c.env).value.tables.contracts[id];
            var contracts := Run(Step(s, c).state, calls).tables.contracts;
            && id in contracts && contracts[id].payload == before.payload && contracts[id].supersedes == before.supersedes
            && (NamesPredecessor(contracts, id) <==> before.supersedes.None?)
  {
    StepCommits(s, c);
    StepKeeps(s, c);
    ContractsAreImmutable(Step(s, c).state, calls, id);
    RunKeeps(Step(s, c).state, calls);
    FirstNamesNone(Run(Step(s, c).state, calls).tables, id);
  }
}
