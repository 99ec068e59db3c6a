/**
  The event chain of one profile fixture: built event by event, numbered as it grows.
  Everything an event refers to, an earlier event introduces.
  */
module ProfileChain {
  import opened Basics
  import opened StableIds

  /** The fields of a fixture row that reach the chain. */
  datatype Case = Case(
    profile: string, anchorTypes: seq<string>, moduleKinds: seq<string>, ledgerKinds: seq<string>, contractKinds: seq<string>,
    primaryAnchor: string, primaryModule: string, upgradeModule: string, branchIsolation: bool)

  /** What the profile registry says about the profile. */
  datatype Spec = Spec(anchorTypes: seq<string>, moduleKinds: seq<string>, ledgerKinds: seq<string>, contractKinds: seq<string>)

  datatype Flags = Flags(dimensionLedger: bool, branchProbe: bool)

  datatype Authority = Canon | Planned

  datatype Body =
    | DefineAdvantage(anchorType: string)
    | DefineAnchor(anchorId: string, owned: bool)
    | DefineModule(moduleId: string, authority: Authority, available: bool, anchorIds: seq<string>)
    | DefineSlot(slotModule: string)
    | DefineNarrative
    | Acquire(rewardModule: string)
    | Bind(boundAnchor: string)
    | Activate(branch: string)
    | EnableModule(enabled: string)
    | DefineContract(contractKind: string)
    | Use(usedModule: string, branch: string)
    | RecordFailure(failedModule: string, cause: string)
    | Upgrade(unlocked: seq<string>)
    | Reveal(knowledge: string, misreadOf: Option<string>)
    | RecordDimension(dimensionModule: string, entryKind: string)

  datatype Event = Event(ordinal: nat, id: string, body: Body)

  /** What one event can introduce and another refer to. */
  datatype Ref = AnchorRef(id: string) | ModuleRef(id: string) | EventRef(id: string) | KnowledgeRef(id: string)

  function Introduces(e: Event): set<Ref> {
    {EventRef(e.id)} +
    match e.body
    case DefineAnchor(a, _) => {AnchorRef(a)}
    case DefineModule(m, _, _, _) => {ModuleRef(m)}
    case Reveal(k, _) => {KnowledgeRef(k)}
    case _ => {}
  }

  function Uses(b: Body): set<Ref> {
    match b
    case DefineModule(_, _, _, anchors) => set a | a in anchors :: AnchorRef(a)
    case DefineSlot(m) => {ModuleRef(m)}
    case Acquire(m) => {ModuleRef(m)}
    case Bind(a) => {AnchorRef(a)}
    case EnableModule(m) => {ModuleRef(m)}
    case Use(m, _) => {ModuleRef(m)}
    case RecordFailure(m, cause) => {ModuleRef(m), EventRef(cause)}
    case Upgrade(ms) => set m | m in ms :: ModuleRef(m)
    case Reveal(_, misread) => if misread.Some? then {KnowledgeRef(misread.value)} else {}
    case RecordDimension(m, _) => {ModuleRef(m)}
    case _ => {}
  }

  // ----- The chain that is due ------------------------------------------------------------

  /** The ids the chain keeps referring to. */
  datatype Ids = Ids(advantage: string, anchor: string, primary: string, upgrade: string)

  function AdvantageId(fold: Fold, c: Case): string { "fixture-advantage-" + StableId(fold, c.profile) }

  function ModuleId(fold: Fold, c: Case, kind: string): string { AdvantageId(fold, c) + "-module-" + StableId(fold, kind) }

  function AnchorId(fold: Fold, c: Case, kind: string): string { AdvantageId(fold, c) + "-anchor-" + StableId(fold, kind) }

  function IdsOf(fold: Fold, c: Case): Ids {
    Ids(AdvantageId(fold, c), AnchorId(fold, c, c.primaryAnchor), ModuleId(fold, c, c.primaryModule), ModuleId(fold, c, c.upgradeModule))
  }

  function KnowledgeId(ids: Ids, plane: string): string { ids.advantage + "-knowledge-" + plane }

  predicate Neither(c: Case, kind: string) { kind != c.primaryModule && kind != c.upgradeModule }

  /** The last module kind that is neither the primary nor the upgrade kind. */
  function PlannedKind(c: Case, kinds: seq<string>): Option<string> {
    if kinds == [] then None
    else
      var last := kinds[|kinds| - 1];
      if Neither(c, last) then Some(last) else PlannedKind(c, kinds[..|kinds| - 1])
  }

  function AnchorBody(fold: Fold, c: Case, kind: string): Body { DefineAnchor(AnchorId(fold, c, kind), kind == c.primaryAnchor) }

  function ModuleBody(fold: Fold, c: Case, planned: string, kind: string): Body {
    DefineModule(ModuleId(fold, c, kind), if kind == planned then Planned else Canon, kind == c.primaryModule,
                 [AnchorId(fold, c, c.primaryAnchor)])
  }

  function AnchorBodies(fold: Fold, c: Case): seq<Body> {
    seq(|c.anchorTypes|, i requires 0 <= i < |c.anchorTypes| => AnchorBody(fold, c, c.anchorTypes[i]))
  }

  function ModuleBodies(fold: Fold, c: Case, planned: string): seq<Body> {
    seq(|c.moduleKinds|, i requires 0 <= i < |c.moduleKinds| => ModuleBody(fold, c, planned, c.moduleKinds[i]))
  }

  function SetUpBodies(ids: Ids, contractKind: string): seq<Body> {
    [DefineSlot(ids.primary), DefineNarrative, Acquire(ids.primary), Bind(ids.anchor), Activate("main"),
     EnableModule(ids.primary), DefineContract(contractKind)]
  }

  function UseBodies(ids: Ids, firstUse: string): seq<Body> {
    [Use(ids.primary, "main"), RecordFailure(ids.primary, firstUse), Upgrade([ids.upgrade])]
  }

  function BranchBodies(ids: Ids): seq<Body> { [Activate("fixture-branch"), Use(ids.primary, "fixture-branch")] }

  function RevealBodies(ids: Ids): seq<Body> {
    var objective := KnowledgeId(ids, "objective");
    [Reveal(objective, None), Reveal(KnowledgeId(ids, "owner"), None), Reveal(KnowledgeId(ids, "other"), None),
     Reveal(KnowledgeId(ids, "misread"), Some(objective)), Reveal(KnowledgeId(ids, "public"), None),
     Reveal(KnowledgeId(ids, "reader"), None), Reveal(KnowledgeId(ids, "plan"), None)]
  }

  function DimensionBodies(ids: Ids, kinds: seq<string>): seq<Body> {
    seq(|kinds|, i requires 0 <= i < |kinds| => RecordDimension(ids.primary, kinds[i]))
  }

  /** The anchors and modules. */
  function Definitions(fold: Fold, c: Case, planned: string): seq<Body> {
    [DefineAdvantage(c.primaryAnchor)] + AnchorBodies(fold, c) + ModuleBodies(fold, c, planned)
  }

  /** Up to and including the contract. */
  function Opening(fold: Fold, c: Case, planned: string): seq<Body>
    requires c.contractKinds != []
  {
    Definitions(fold, c, planned) + SetUpBodies(IdsOf(fold, c), c.contractKinds[0])
  }

  function ChainBodies(fold: Fold, c: Case, flags: Flags, planned: string): seq<Body>
    requires c.contractKinds != []
  {
    Lifecycle(IdsOf(fold, c), Opening(fold, c, planned), flags.branchProbe && c.branchIsolation,
              if flags.dimensionLedger then c.ledgerKinds else [])
  }

  /** From the first use on: the failure names that first use as its cause. */
  function Lifecycle(ids: Ids, opening: seq<Body>, probe: bool, dimensions: seq<string>): seq<Body> {
    opening + UseBodies(ids, EventId(ids.advantage, |opening| + 1)) + (if probe then BranchBodies(ids) else [])
    + RevealBodies(ids) + DimensionBodies(ids, dimensions)
  }

  function Numbered(advantage: string, bodies: seq<Body>): seq<Event> {
    seq(|bodies|, i requires 0 <= i < |bodies| => Event(i + 1, EventId(advantage, i + 1), bodies[i]))
  }

  // ----- Building it -----------------------------------------------------------------------

  datatype Failure = NoPlannedKind | NoContractKind

  class ChainBuilder {
    const advantage: string
    var events: seq<Event>
    var eventNo: nat
    ghost var bodies: seq<Body>

    ghost predicate Valid()
      reads this
    {
      events == Numbered(advantage, bodies) && eventNo == |bodies|
    }

    constructor (advantage: string)
      ensures Valid() && bodies == [] && this.advantage == advantage
    {
      this.advantage := advantage;
      events, eventNo, bodies := [], 0, [];
    }

    /** Counts up and appends; returns the id of the new event. */
    method Add(body: Body) returns (id: string)
      requires Valid()
      modifies this
      ensures Valid() && bodies == old(bodies) + [body] && id == EventId(advantage, |bodies|)
    {
      eventNo := eventNo + 1;
      id := EventId(advantage, eventNo);
      events := events + [Event(eventNo, id, body)];
      bodies := bodies + [body];
    }

    method AddAll(more: seq<Body>)
      requires Valid()
      modifies this
      ensures Valid() && bodies == old(bodies) + more
    {
      for i := 0 to |more|
        invariant Valid() && bodies == old(bodies) + more[..i]
      {
        var _ := Add(more[i]);
        assert more[..i + 1] == more[..i] + [more[i]];
      }
      assert more[..|more|] == more;
    }

    method AddAnchors(fold: Fold, c: Case)
      requires Valid()
      modifies this
      ensures Valid() && bodies == old(bodies) + AnchorBodies(fold, c)
    {
      hide AnchorBody, Numbered;
      ghost var due := AnchorBodies(fold, c);
      for i := 0 to |c.anchorTypes|
        invariant Valid() && bodies == old(bodies) + due[..i]
      {
        var _ := Add(AnchorBody(fold, c, c.anchorTypes[i]));
        assert due[..i + 1] == due[..i] + [due[i]];
      }
    }

    method AddModules(fold: Fold, c: Case, planned: string)
      requires Valid()
      modifies this
      ensures Valid() && bodies == old(bodies) + ModuleBodies(fold, c, planned)
    {
      hide ModuleBody, Numbered;
      ghost var due := ModuleBodies(fold, c, planned);
      for i := 0 to |c.moduleKinds|
        invariant Valid() && bodies == old(bodies) + due[..i]
      {
        var _ := Add(ModuleBody(fold, c, planned, c.moduleKinds[i]));
        assert due[..i + 1] == due[..i] + [due[i]];
      }
    }

    method AddDimensions(ids: Ids, kinds: seq<string>)
      requires Valid()
      modifies this
      ensures Valid() && bodies == old(bodies) + DimensionBodies(ids, kinds)
    {
      for i := 0 to |kinds|
        invariant Valid() && bodies == old(bodies) + DimensionBodies(ids, kinds)[..i]
      {
        var _ := Add(RecordDimension(ids.primary, kinds[i]));
      }
    }

    method AddOpening(fold: Fold, c: Case, planned: string)
      requires Valid() && bodies == [] && c.contractKinds != []
      modifies this
      ensures Valid() && bodies == Opening(fold, c, planned)
    {
      hide IdsOf, AnchorBodies, ModuleBodies, Numbered;
      var ids := IdsOf(fold, c);
      var _ := Add(DefineAdvantage(c.primaryAnchor));
      AddAnchors(fold, c);
      AddModules(fold, c, planned);
      AddAll([DefineSlot(ids.primary), DefineNarrative, Acquire(ids.primary), Bind(ids.anchor),
              Activate("main"), EnableModule(ids.primary), DefineContract(c.contractKinds[0])]);
    }

    method AddLifecycle(ids: Ids, probe: bool, dimensions: seq<string>)
      requires Valid() && ids.advantage == advantage
      modifies this
      ensures Valid() && bodies == Lifecycle(ids, old(bodies), probe, dimensions)
    {
      var firstUse := Add(Use(ids.primary, "main"));
      AddAll([RecordFailure(ids.primary, firstUse), Upgrade([ids.upgrade])]);
      assert bodies == old(bodies) + UseBodies(ids, EventId(advantage, |old(bodies)| + 1));
      if probe { AddAll([Activate("fixture-branch"), Use(ids.primary, "fixture-branch")]); }
      AddAll(RevealBodies(ids));
      AddDimensions(ids, dimensions);
    }
  }

  method FindPlannedKind(c: Case) returns (planned: Option<string>)
    ensures planned == PlannedKind(c, c.moduleKinds)
  {
    var kinds := c.moduleKinds;
    var i := |kinds|;
    assert kinds[..i] == kinds;
    while i > 0
      invariant 0 <= i <= |kinds| && PlannedKind(c, c.moduleKinds) == PlannedKind(c, kinds[..i])
    {
      assert kinds[..i][..i - 1] == kinds[..i - 1];
      i := i - 1;
      if Neither(c, kinds[i]) { return Some(kinds[i]); }
    }
    return None;
  }

  method BuildProfileEventChain(fold: Fold, c: Case, flags: Flags) returns (r: Result<seq<Event>, Failure>)
    ensures r == Chain(fold, c, flags)
  {
    var planned := FindPlannedKind(c);
    if planned.None? { return Err(NoPlannedKind); }
    if c.contractKinds == [] { return Err(NoContractKind); }
    var ids := IdsOf(fold, c);
    var chain := new ChainBuilder(ids.advantage);
    chain.AddOpening(fold, c, planned.value);
    chain.AddLifecycle(ids, flags.branchProbe && c.branchIsolation, if flags.dimensionLedger then c.ledgerKinds else []);
    return Ok(chain.events);
  }

  function Chain(fold: Fold, c: Case, flags: Flags): Result<seq<Event>, Failure> {
    match PlannedKind(c, c.moduleKinds)
    case None => Err(NoPlannedKind)
    case Some(planned) =>
      if c.contractKinds == [] then Err(NoContractKind)
      else Ok(Numbered(AdvantageId(fold, c), ChainBodies(fold, c, flags, planned)))
  }

  // ----- When a chain can be built -------------------------------------------------------------

  lemma {:induction false} PlannedKindExists(c: Case, kinds: seq<string>)
    ensures PlannedKind(c, kinds).Some? <==> exists k :: k in kinds && Neither(c, k)
    ensures PlannedKind(c, kinds).Some? ==> PlannedKind(c, kinds).value in kinds && Neither(c, PlannedKind(c, kinds).value)
  {
    if kinds != [] {
      var before, last := kinds[..|kinds| - 1], kinds[|kinds| - 1];
      PlannedKindExists(c, before);
      assert kinds == before + [last];
      assert forall k :: k in kinds <==> k in before || k == last;
    }
  }

  /** Three distinct module kinds are enough. */
  lemma ThreeKindsSuffice(fold: Fold, c: Case, flags: Flags)
    requires |set k | k in c.moduleKinds| >= 3 && c.contractKinds != []
    ensures Chain(fold, c, flags).Ok?
  {
    PlannedKindExists(c, c.moduleKinds);
    var kinds := set k | k in c.moduleKinds;
    if kinds <= {c.primaryModule, c.upgradeModule} { SubsetIsNoLarger(kinds, {c.primaryModule, c.upgradeModule}); }
  }

  lemma SubsetIsNoLarger<T>(a: set<T>, b: set<T>)
    requires a <= b
    ensures |a| <= |b|
  {
    if a != {} {
      var x :| x in a;
      SubsetIsNoLarger(a - {x}, b - {x});
    }
  }

  /** A case the validator accepts: its lists, stripped, are the registry's; so are its primary and upgrade choices. */
  ghost predicate ValidCase(isSpace: Spaces, c: Case, spec: Spec) {
    && StrippedIs(isSpace, c.anchorTypes, spec.anchorTypes)
    && StrippedIs(isSpace, c.moduleKinds, spec.moduleKinds)
    && StrippedIs(isSpace, c.ledgerKinds, spec.ledgerKinds)
    && StrippedIs(isSpace, c.contractKinds, spec.contractKinds)
    && Strip(isSpace, c.primaryAnchor) in spec.anchorTypes
    && Strip(isSpace, c.primaryModule) in spec.moduleKinds
    && Strip(isSpace, c.upgradeModule) in spec.moduleKinds
    && c.primaryModule != c.upgradeModule
  }

  /** A non-empty list of non-empty strings that equals the registry's once each string is stripped. */
  ghost predicate StrippedIs(isSpace: Spaces, raw: seq<string>, expected: seq<string>) {
    && raw != [] && |raw| == |expected|
    && forall i :: 0 <= i < |raw| ==> Strip(isSpace, raw[i]) != "" && Strip(isSpace, raw[i]) == expected[i]
  }

  // ----- Defined before use ----------------------------------------------------------------------

  ghost predicate IntroducedBefore(events: seq<Event>, i: nat, ref: Ref)
    requires i <= |events|
  {
    exists j :: 0 <= j < i && ref in Introduces(events[j])
  }

  ghost predicate DefinedBeforeUse(events: seq<Event>) {
    forall i, ref :: 0 <= i < |events| && ref in Uses(events[i].body) ==> IntroducedBefore(events, i, ref)
  }

  ghost predicate WellNumbered(events: seq<Event>) {
    && (forall i :: 0 <= i < |events| ==> events[i].ordinal == i + 1)
    && (forall i, j :: 0 <= i < j < |events| ==> events[i].id != events[j].id)
  }

  lemma NumberedIsWellNumbered(advantage: string, bodies: seq<Body>)
    ensures WellNumbered(Numbered(advantage, bodies))
  {
    var events := Numbered(advantage, bodies);
    forall i, j | 0 <= i < j < |events| ensures events[i].id != events[j].id {
      if events[i].id == events[j].id { EventIdsDiffer(advantage, i + 1, j + 1); }
    }
  }

  /** The chain up to some point supplies this reference. */
  ghost predicate Supplies(advantage: string, bodies: seq<Body>, ref: Ref) {
    IntroducedBefore(Numbered(advantage, bodies), |bodies|, ref)
  }

  /** Everything used in the chain up to this point was supplied before. */
  ghost predicate Sound(advantage: string, bodies: seq<Body>) { DefinedBeforeUse(Numbered(advantage, bodies)) }

  lemma NumberedPrefix(advantage: string, bodies: seq<Body>, more: seq<Body>)
    ensures Numbered(advantage, bodies + more)[..|bodies|] == Numbered(advantage, bodies)
  {
  }

  lemma StillSupplies(advantage: string, bodies: seq<Body>, more: seq<Body>, ref: Ref)
    requires Supplies(advantage, bodies, ref)
    ensures Supplies(advantage, bodies + more, ref)
  {
    NumberedPrefix(advantage, bodies, more);
    var j :| 0 <= j < |bodies| && ref in Introduces(Numbered(advantage, bodies)[j]);
    assert Numbered(advantage, bodies + more)[j] == Numbered(advantage, bodies)[j];
  }

  /** A further stretch is sound if what it uses was supplied before it began. */
  lemma Extend(advantage: string, bodies: seq<Body>, more: seq<Body>)
    requires Sound(advantage, bodies)
    requires forall b, ref :: b in more && ref in Uses(b) ==> Supplies(advantage, bodies, ref)
    ensures Sound(advantage, bodies + more)
  {
    var before, events := Numbered(advantage, bodies), Numbered(advantage, bodies + more);
    NumberedPrefix(advantage, bodies, more);
    forall i, ref | 0 <= i < |events| && ref in Uses(events[i].body) ensures IntroducedBefore(events, i, ref) {
      if i < |bodies| {
        assert before[i] == events[i];
        assert IntroducedBefore(before, i, ref);
        var j :| 0 <= j < i && ref in Introduces(before[j]);
        assert before[j] == events[j];
      } else {
        assert events[i].body == more[i - |bodies|];
        assert Supplies(advantage, bodies, ref);
        var j :| 0 <= j < |bodies| && ref in Introduces(before[j]);
        assert before[j] == events[j];
      }
    }
  }

  lemma SuppliesAt(advantage: string, bodies: seq<Body>, j: nat, ref: Ref)
    requires j < |bodies| && ref in Introduces(Event(j + 1, EventId(advantage, j + 1), bodies[j]))
    ensures Supplies(advantage, bodies, ref)
  {
    assert ref in Introduces(Numbered(advantage, bodies)[j]);
  }

  // ----- The chain is sound ---------------------------------------------------------------------

  /** The chain so far is sound, and supplies the primary anchor and the two modules. */
  ghost predicate Ready(ids: Ids, bodies: seq<Body>) {
    && Sound(ids.advantage, bodies)
    && forall ref :: ref in Needs(ids) ==> Supplies(ids.advantage, bodies, ref)
  }

  function Needs(ids: Ids): set<Ref> { {AnchorRef(ids.anchor), ModuleRef(ids.primary), ModuleRef(ids.upgrade)} }

  lemma StillReady(ids: Ids, bodies: seq<Body>, more: seq<Body>)
    requires Ready(ids, bodies) && Sound(ids.advantage, bodies + more)
    ensures Ready(ids, bodies + more)
  {
    forall ref | ref in Needs(ids) ensures Supplies(ids.advantage, bodies + more, ref) {
      StillSupplies(ids.advantage, bodies, more, ref);
    }
  }

  ghost predicate UsesOnly(more: seq<Body>, refs: set<Ref>) { forall i :: 0 <= i < |more| ==> Uses(more[i]) <= refs }

  /** A stretch that uses only the primary anchor and the two modules. */
  lemma ReadyExtends(ids: Ids, bodies: seq<Body>, more: seq<Body>)
    requires Ready(ids, bodies) && UsesOnly(more, Needs(ids))
    ensures Ready(ids, bodies + more)
  {
    forall b, ref | b in more && ref in Uses(b) ensures Supplies(ids.advantage, bodies, ref) {
      var i :| 0 <= i < |more| && more[i] == b;
      assert ref in Needs(ids);
    }
    Extend(ids.advantage, bodies, more);
    StillReady(ids, bodies, more);
  }

  /** A stretch that also uses one reference introduced by the chain's last event. */
  lemma ReadyExtendsWith(ids: Ids, bodies: seq<Body>, more: seq<Body>, ref: Ref)
    requires Ready(ids, bodies) && Supplies(ids.advantage, bodies, ref) && UsesOnly(more, Needs(ids) + {ref})
    ensures Ready(ids, bodies + more)
  {
    forall b, r | b in more && r in Uses(b) ensures Supplies(ids.advantage, bodies, r) {
      var i :| 0 <= i < |more| && more[i] == b;
      assert r in Needs(ids) + {ref};
    }
    Extend(ids.advantage, bodies, more);
    StillReady(ids, bodies, more);
  }

  // ----- The definitions supply what the rest needs -------------------------------------------------

  lemma AnchorIsSupplied(fold: Fold, c: Case, kind: string, more: seq<Body>, k: nat)
    requires k < |c.anchorTypes| && StableId(fold, c.anchorTypes[k]) == StableId(fold, kind)
    ensures Supplies(AdvantageId(fold, c), [DefineAdvantage(c.primaryAnchor)] + AnchorBodies(fold, c) + more, AnchorRef(AnchorId(fold, c, kind)))
  {
    var bodies := [DefineAdvantage(c.primaryAnchor)] + AnchorBodies(fold, c) + more;
    assert bodies[k + 1] == AnchorBody(fold, c, c.anchorTypes[k]);
    SuppliesAt(AdvantageId(fold, c), bodies, k + 1, AnchorRef(AnchorId(fold, c, kind)));
  }

  lemma ModuleIsSupplied(fold: Fold, c: Case, planned: string, kind: string, k: nat)
    requires k < |c.moduleKinds| && StableId(fold, c.moduleKinds[k]) == StableId(fold, kind)
    ensures Supplies(AdvantageId(fold, c), Definitions(fold, c, planned), ModuleRef(ModuleId(fold, c, kind)))
  {
    var bodies := Definitions(fold, c, planned);
    var at := 1 + |c.anchorTypes| + k;
    assert bodies[at] == ModuleBody(fold, c, planned, c.moduleKinds[k]);
    SuppliesAt(AdvantageId(fold, c), bodies, at, ModuleRef(ModuleId(fold, c, kind)));
  }

  /** The choices of a validated case are among its own lists, up to outer whitespace. */
  lemma ChoicesAreListed(fold: Fold, isSpace: Spaces, raw: seq<string>, expected: seq<string>, choice: string) returns (k: nat)
    requires FoldsSpaces(fold, isSpace) && StrippedIs(isSpace, raw, expected) && Strip(isSpace, choice) in expected
    ensures k < |raw| && StableId(fold, raw[k]) == StableId(fold, choice)
  {
    k :| 0 <= k < |expected| && expected[k] == Strip(isSpace, choice);
    SameWhenStripped(fold, isSpace, raw[k], choice);
  }

  lemma DefinitionsUse(fold: Fold, c: Case, planned: string)
    ensures UsesOnly([DefineAdvantage(c.primaryAnchor)] + AnchorBodies(fold, c), {})
    ensures UsesOnly(ModuleBodies(fold, c, planned), {AnchorRef(IdsOf(fold, c).anchor)})
  {
  }

  lemma EmptyIsSound(advantage: string, more: seq<Body>)
    requires UsesOnly(more, {})
    ensures Sound(advantage, more)
  {
    Extend(advantage, [], more);
    assert [] + more == more;
  }

  lemma ModulesAreSound(advantage: string, bodies: seq<Body>, more: seq<Body>, anchor: Ref)
    requires Sound(advantage, bodies) && Supplies(advantage, bodies, anchor) && UsesOnly(more, {anchor})
    ensures Sound(advantage, bodies + more)
  {
    forall b, ref | b in more && ref in Uses(b) ensures Supplies(advantage, bodies, ref) {
      var i :| 0 <= i < |more| && more[i] == b;
      assert ref in {anchor};
    }
    Extend(advantage, bodies, more);
  }

  lemma DefinitionsAreReady(fold: Fold, c: Case, planned: string, anchor: nat, primary: nat, upgrade: nat)
    requires anchor < |c.anchorTypes| && StableId(fold, c.anchorTypes[anchor]) == StableId(fold, c.primaryAnchor)
    requires primary < |c.moduleKinds| && StableId(fold, c.moduleKinds[primary]) == StableId(fold, c.primaryModule)
    requires upgrade < |c.moduleKinds| && StableId(fold, c.moduleKinds[upgrade]) == StableId(fold, c.upgradeModule)
    ensures Ready(IdsOf(fold, c), Definitions(fold, c, planned))
  {
    var ids := IdsOf(fold, c);
    var anchors := [DefineAdvantage(c.primaryAnchor)] + AnchorBodies(fold, c);
    DefinitionsUse(fold, c, planned);
    EmptyIsSound(ids.advantage, anchors);
    AnchorIsSupplied(fold, c, c.primaryAnchor, [], anchor);
    assert anchors + [] == anchors;
    ModulesAreSound(ids.advantage, anchors, ModuleBodies(fold, c, planned), AnchorRef(ids.anchor));
    AnchorIsSupplied(fold, c, c.primaryAnchor, ModuleBodies(fold, c, planned), anchor);
    ModuleIsSupplied(fold, c, planned, c.primaryModule, primary);
    ModuleIsSupplied(fold, c, planned, c.upgradeModule, upgrade);
  }

  // ----- The chain is sound -------------------------------------------------------------------------

  lemma UsesAreReady(ids: Ids, bodies: seq<Body>)
    requires Ready(ids, bodies)
    ensures Ready(ids, bodies + UseBodies(ids, EventId(ids.advantage, |bodies| + 1)))
  {
    hide Ready, UsesOnly, Needs, EventId;
    var firstUse := EventId(ids.advantage, |bodies| + 1);
    var first, rest := [Use(ids.primary, "main")], [RecordFailure(ids.primary, firstUse), Upgrade([ids.upgrade])];
    UseBodiesUse(ids, firstUse);
    ReadyExtends(ids, bodies, first);
    SuppliesAt(ids.advantage, bodies + first, |bodies|, EventRef(firstUse));
    ReadyExtendsWith(ids, bodies + first, rest, EventRef(firstUse));
    assert bodies + first + rest == bodies + UseBodies(ids, firstUse);
  }

  lemma UseBodiesUse(ids: Ids, firstUse: string)
    ensures UsesOnly([Use(ids.primary, "main")], Needs(ids))
    ensures UsesOnly([RecordFailure(ids.primary, firstUse), Upgrade([ids.upgrade])], Needs(ids) + {EventRef(firstUse)})
  {
  }

  lemma RevealsAreReady(ids: Ids, bodies: seq<Body>)
    requires Ready(ids, bodies)
    ensures Ready(ids, bodies + RevealBodies(ids))
  {
    var objective := KnowledgeId(ids, "objective");
    hide Ready;
    var first, rest := [Reveal(objective, None)], RevealBodies(ids)[1..];
    ReadyExtends(ids, bodies, first);
    SuppliesAt(ids.advantage, bodies + first, |bodies|, KnowledgeRef(objective));
    RevealsUse(ids);
    ReadyExtendsWith(ids, bodies + first, rest, KnowledgeRef(objective));
    assert bodies + first + rest == bodies + RevealBodies(ids);
  }

  lemma RevealsUse(ids: Ids)
    ensures UsesOnly(RevealBodies(ids)[1..], Needs(ids) + {KnowledgeRef(KnowledgeId(ids, "objective"))})
  {
  }

  lemma LifecycleIsReady(ids: Ids, opening: seq<Body>, probe: bool, dimensions: seq<string>)
    requires Ready(ids, opening)
    ensures Ready(ids, Lifecycle(ids, opening, probe, dimensions))
  {
    var used := opening + UseBodies(ids, EventId(ids.advantage, |opening| + 1));
    var probing := if probe then BranchBodies(ids) else [];
    StretchesUse(ids, dimensions);
    hide Ready, UsesOnly, UseBodies, BranchBodies, RevealBodies, DimensionBodies, Needs;
    UsesAreReady(ids, opening);
    ReadyExtends(ids, used, probing);
    RevealsAreReady(ids, used + probing);
    ReadyExtends(ids, used + probing + RevealBodies(ids), DimensionBodies(ids, dimensions));
  }

  lemma StretchesUse(ids: Ids, dimensions: seq<string>)
    ensures UsesOnly([], Needs(ids)) && UsesOnly(BranchBodies(ids), Needs(ids)) && UsesOnly(DimensionBodies(ids, dimensions), Needs(ids))
  {
  }

  lemma OpeningIsReady(fold: Fold, isSpace: Spaces, c: Case, spec: Spec, planned: string)
    requires FoldsSpaces(fold, isSpace) && ValidCase(isSpace, c, spec)
    ensures Ready(IdsOf(fold, c), Opening(fold, c, planned))
  {
    var anchor := ChoicesAreListed(fold, isSpace, c.anchorTypes, spec.anchorTypes, c.primaryAnchor);
    var primary := ChoicesAreListed(fold, isSpace, c.moduleKinds, spec.moduleKinds, c.primaryModule);
    var upgrade := ChoicesAreListed(fold, isSpace, c.moduleKinds, spec.moduleKinds, c.upgradeModule);
    DefinitionsAreReady(fold, c, planned, anchor, primary, upgrade);
    SetUpIsReady(IdsOf(fold, c), Definitions(fold, c, planned), c.contractKinds[0]);
  }

  lemma SetUpIsReady(ids: Ids, bodies: seq<Body>, contractKind: string)
    requires Ready(ids, bodies)
    ensures Ready(ids, bodies + SetUpBodies(ids, contractKind))
  {
    ReadyExtends(ids, bodies, SetUpBodies(ids, contractKind));
  }

  /**
    For every validated case, either value of both flags and every casefold: a chain is
    built exactly when some module kind is neither primary nor upgrade, and then it is
    numbered 1..n in order with distinct event ids, and every anchor, module, cause or
    misread knowledge it refers to was introduced by an earlier event.
    */
  lemma ChainIsSound(fold: Fold, isSpace: Spaces, c: Case, spec: Spec, flags: Flags)
    requires FoldsSpaces(fold, isSpace) && ValidCase(isSpace, c, spec)
    ensures Chain(fold, c, flags).Ok? <==> exists k :: k in c.moduleKinds && Neither(c, k)
    ensures Chain(fold, c, flags).Ok? ==> WellNumbered(Chain(fold, c, flags).value) && DefinedBeforeUse(Chain(fold, c, flags).value)
  {
    PlannedKindExists(c, c.moduleKinds);
    if Chain(fold, c, flags).Ok? {
      var planned := PlannedKind(c, c.moduleKinds).value;
      OpeningIsReady(fold, isSpace, c, spec, planned);
      LifecycleIsReady(IdsOf(fold, c), Opening(fold, c, planned), flags.branchProbe && c.branchIsolation,
                       if flags.dimensionLedger then c.ledgerKinds else []);
      NumberedIsWellNumbered(AdvantageId(fold, c), ChainBodies(fold, c, flags, planned));
    }
  }
}
