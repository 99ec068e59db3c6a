/** What the events of a profile chain say, one by one in their order. */
module ProfileContents {
  import opened Basics
  import opened StableIds
  import opened ProfileChain

  /** The last listed kind that is neither the primary nor the upgrade kind. */
  ghost predicate IsPlannedKind(c: Case, kind: string) {
    exists i :: 0 <= i < |c.moduleKinds| && LastNeither(c, i) && c.moduleKinds[i] == kind
  }

  ghost predicate LastNeither(c: Case, i: int)
    requires 0 <= i < |c.moduleKinds|
  {
    && c.moduleKinds[i] != c.primaryModule && c.moduleKinds[i] != c.upgradeModule
    && forall j :: i < j < |c.moduleKinds| ==> c.moduleKinds[j] == c.primaryModule || c.moduleKinds[j] == c.upgradeModule
  }

  /** The id of an anchor or a module of the case. */
  function Id(fold: Fold, c: Case, what: string, kind: string): string {
    "fixture-advantage-" + StableId(fold, c.profile) + what + StableId(fold, kind)
  }

  /** An anchor is owned exactly if it is the primary one. */
  ghost predicate AnchorTold(fold: Fold, c: Case, kind: string, b: Body) {
    b == DefineAnchor(Id(fold, c, "-anchor-", kind), kind == c.primaryAnchor)
  }

  /** A module is planned exactly if its kind is the planned one, available exactly if it is the primary one, and hangs on the primary anchor. */
  ghost predicate ModuleTold(fold: Fold, c: Case, kind: string, b: Body) {
    && b.DefineModule? && b.moduleId == Id(fold, c, "-module-", kind)
    && (b.authority == Planned <==> IsPlannedKind(c, kind)) && (b.available <==> kind == c.primaryModule)
    && b.anchorIds == [Id(fold, c, "-anchor-", c.primaryAnchor)]
  }

  /** The primary module is given a slot, acquired, bound, activated and enabled, and the first contract kind is entered into. */
  ghost predicate SetUpTold(fold: Fold, c: Case, bs: seq<Body>) {
    var primary := Id(fold, c, "-module-", c.primaryModule);
    && |bs| == 7 && c.contractKinds != []
    && bs[0] == DefineSlot(primary) && bs[1] == DefineNarrative && bs[2] == Acquire(primary)
    && bs[3] == Bind(Id(fold, c, "-anchor-", c.primaryAnchor)) && bs[4] == Activate("main") && bs[5] == EnableModule(primary)
    && bs[6] == DefineContract(c.contractKinds[0])
  }

  /** The primary module is used, fails because of that use, and the upgrade module alone is unlocked. */
  ghost predicate UseTold(fold: Fold, c: Case, bs: seq<Body>, firstUse: string) {
    var primary := Id(fold, c, "-module-", c.primaryModule);
    && |bs| == 3 && bs[0] == Use(primary, "main") && bs[1] == RecordFailure(primary, firstUse)
    && bs[2] == Upgrade([Id(fold, c, "-module-", c.upgradeModule)])
  }

  /** Seven pieces of knowledge; only the fourth is a misreading, of the first. */
  ghost predicate RevealsTold(fold: Fold, c: Case, bs: seq<Body>) {
    var planes := ["objective", "owner", "other", "misread", "public", "reader", "plan"];
    var prefix := "fixture-advantage-" + StableId(fold, c.profile) + "-knowledge-";
    && |bs| == 7
    && forall i :: 0 <= i < 7 ==> bs[i] == Reveal(prefix + planes[i], if i == 3 then Some(prefix + "objective") else None)
  }

  /** The bodies of a chain in their order, stretch by stretch. */
  ghost predicate BodiesTold(fold: Fold, c: Case, probing: bool, dimensions: seq<string>, bs: seq<Body>, firstUse: string) {
    var defined := 1 + |c.anchorTypes|;
    var listed := defined + |c.moduleKinds|;
    var used := listed + 7;
    var revealed := used + 3 + if probing then 2 else 0;
    && |bs| == revealed + 7 + |dimensions| && bs[0] == DefineAdvantage(c.primaryAnchor)
    && AnchorsTold(fold, c, bs[1..defined]) && ModulesTold(fold, c, bs[defined..listed]) && SetUpTold(fold, c, bs[listed..used])
    && UseTold(fold, c, bs[used..used + 3], firstUse) && ProbeTold(fold, c, bs[used + 3..revealed])
    && RevealsTold(fold, c, bs[revealed..revealed + 7]) && DimensionsTold(fold, c, dimensions, bs[revealed + 7..])
  }

  ghost predicate AnchorsTold(fold: Fold, c: Case, bs: seq<Body>) {
    |bs| == |c.anchorTypes| && forall i :: 0 <= i < |bs| ==> AnchorTold(fold, c, c.anchorTypes[i], bs[i])
  }

  ghost predicate ModulesTold(fold: Fold, c: Case, bs: seq<Body>) {
    |bs| == |c.moduleKinds| && forall i :: 0 <= i < |bs| ==> ModuleTold(fold, c, c.moduleKinds[i], bs[i])
  }

  /** A use of the primary module on a branch of its own, if there is one. */
  ghost predicate ProbeTold(fold: Fold, c: Case, bs: seq<Body>) {
    bs != [] ==> bs == [Activate("fixture-branch"), Use(Id(fold, c, "-module-", c.primaryModule), "fixture-branch")]
  }

  ghost predicate DimensionsTold(fold: Fold, c: Case, dimensions: seq<string>, bs: seq<Body>) {
    |bs| == |dimensions| && forall i :: 0 <= i < |bs| ==> bs[i] == RecordDimension(Id(fold, c, "-module-", c.primaryModule), dimensions[i])
  }

  /** The whole chain: the branch is probed and the dimensions are recorded if the flags say so, and the failure names the first use. */
  ghost predicate ChainTold(fold: Fold, c: Case, flags: Flags, events: seq<Event>) {
    var used := 1 + |c.anchorTypes| + |c.moduleKinds| + 7;
    && used < |events|
    && (forall i :: 0 <= i < |events| ==> events[i].ordinal == i + 1 && events[i].id == EventId("fixture-advantage-" + StableId(fold, c.profile), i + 1))
    && BodiesTold(fold, c, flags.branchProbe && c.branchIsolation, if flags.dimensionLedger then c.ledgerKinds else [],
                  seq(|events|, i requires 0 <= i < |events| => events[i].body), events[used].id)
  }

  lemma {:induction false} PlannedKindIsLast(c: Case, n: nat)
    requires n <= |c.moduleKinds|
    requires forall j :: n <= j < |c.moduleKinds| ==> !Neither(c, c.moduleKinds[j])
    ensures var planned := PlannedKind(c, c.moduleKinds[..n]);
            planned.Some? ==> forall kind :: IsPlannedKind(c, kind) <==> kind == planned.value
  {
    if n > 0 {
      var kinds := c.moduleKinds[..n];
      assert kinds[..n - 1] == c.moduleKinds[..n - 1] && kinds[n - 1] == c.moduleKinds[n - 1];
      if Neither(c, c.moduleKinds[n - 1]) {
        assert LastNeither(c, n - 1);
        assert forall i :: 0 <= i < |c.moduleKinds| && LastNeither(c, i) ==> i == n - 1;
      } else {
        PlannedKindIsLast(c, n - 1);
      }
    }
  }

  lemma ModulesTell(fold: Fold, c: Case, planned: string)
    requires PlannedKind(c, c.moduleKinds) == Some(planned)
    ensures ModulesTold(fold, c, ModuleBodies(fold, c, planned))
  {
    assert c.moduleKinds[..|c.moduleKinds|] == c.moduleKinds;
    PlannedKindIsLast(c, |c.moduleKinds|);
  }

  /** The stretches of a sequence put together from eight. */
  lemma Stretches<T>(b: T, anchors: seq<T>, modules: seq<T>, setUp: seq<T>, uses: seq<T>, probed: seq<T>, told: seq<T>, dimensions: seq<T>)
    ensures var bs := [b] + anchors + modules + setUp + uses + probed + told + dimensions;
            var n1 := 1 + |anchors|;
            var n2 := n1 + |modules|;
            var n3 := n2 + |setUp|;
            var n4 := n3 + |uses|;
            var n5 := n4 + |probed|;
            var n6 := n5 + |told|;
            && |bs| == n6 + |dimensions| && bs[0] == b && bs[1..n1] == anchors && bs[n1..n2] == modules && bs[n2..n3] == setUp
            && bs[n3..n4] == uses && bs[n4..n5] == probed && bs[n5..n6] == told && bs[n6..] == dimensions
  {
  }

  lemma Assembled(fold: Fold, c: Case, probing: bool, dimensions: seq<string>, firstUse: string,
                  anchors: seq<Body>, modules: seq<Body>, setUp: seq<Body>, uses: seq<Body>, probed: seq<Body>, told: seq<Body>, recorded: seq<Body>)
    requires AnchorsTold(fold, c, anchors) && ModulesTold(fold, c, modules) && SetUpTold(fold, c, setUp) && UseTold(fold, c, uses, firstUse)
    requires ProbeTold(fold, c, probed) && RevealsTold(fold, c, told) && DimensionsTold(fold, c, dimensions, recorded)
    requires |anchors| == |c.anchorTypes| && |modules| == |c.moduleKinds| && |setUp| == 7 && |uses| == 3
    requires |probed| == (if probing then 2 else 0) && |told| == 7 && |recorded| == |dimensions|
    ensures BodiesTold(fold, c, probing, dimensions,
                       [DefineAdvantage(c.primaryAnchor)] + anchors + modules + setUp + uses + probed + told + recorded, firstUse)
  {
    hide AnchorsTold, ModulesTold, SetUpTold, UseTold, ProbeTold, RevealsTold, DimensionsTold;
    Stretches(DefineAdvantage(c.primaryAnchor), anchors, modules, setUp, uses, probed, told, recorded);
  }

  lemma BodiesTell(fold: Fold, c: Case, planned: string, probing: bool, dimensions: seq<string>)
    requires PlannedKind(c, c.moduleKinds) == Some(planned) && c.contractKinds != []
    ensures var opening := Opening(fold, c, planned);
            && |opening| == 1 + |c.anchorTypes| + |c.moduleKinds| + 7
            && BodiesTold(fold, c, probing, dimensions, Lifecycle(IdsOf(fold, c), opening, probing, dimensions),
                          EventId(AdvantageId(fold, c), |opening| + 1))
  {
    hide AnchorsTold, ModulesTold, SetUpTold, UseTold, ProbeTold, RevealsTold, DimensionsTold, EventId, BodiesTold, StableId, ModuleId, AnchorId, KnowledgeId;
    var ids := IdsOf(fold, c);
    var opening := Opening(fold, c, planned);
    var firstUse := EventId(ids.advantage, |opening| + 1);
    StretchesTell(fold, c, firstUse, dimensions);
    RevealsTell(fold, c);
    ModulesTell(fold, c, planned);
    Assembled(fold, c, probing, dimensions, firstUse, AnchorBodies(fold, c), ModuleBodies(fold, c, planned), SetUpBodies(ids, c.contractKinds[0]),
              UseBodies(ids, firstUse), if probing then BranchBodies(ids) else [], RevealBodies(ids), DimensionBodies(ids, dimensions));
  }

  lemma StretchesTell(fold: Fold, c: Case, firstUse: string, dimensions: seq<string>)
    requires c.contractKinds != []
    ensures var ids := IdsOf(fold, c);
            && AnchorsTold(fold, c, AnchorBodies(fold, c)) && SetUpTold(fold, c, SetUpBodies(ids, c.contractKinds[0]))
            && UseTold(fold, c, UseBodies(ids, firstUse), firstUse)
            && ProbeTold(fold, c, []) && ProbeTold(fold, c, BranchBodies(ids))
            && DimensionsTold(fold, c, dimensions, DimensionBodies(ids, dimensions))
  {
    hide StableId;
  }

  lemma RevealsTell(fold: Fold, c: Case)
    ensures RevealsTold(fold, c, RevealBodies(IdsOf(fold, c)))
  {
    hide StableId;
  }

  /** A chain that can be built tells its case, in this order. */
  lemma ChainTells(fold: Fold, c: Case, flags: Flags)
    requires Chain(fold, c, flags).Ok?
    ensures ChainTold(fold, c, flags, Chain(fold, c, flags).value)
  {
    hide BodiesTold, StableId, IdsOf, EventId, PlannedKind, Lifecycle, Opening;
    var planned := PlannedKind(c, c.moduleKinds).value;
    var events, bodies := Chain(fold, c, flags).value, ChainBodies(fold, c, flags, planned);
    BodiesTell(fold, c, planned, flags.branchProbe && c.branchIsolation, if flags.dimensionLedger then c.ledgerKinds else []);
    assert seq(|events|, i requires 0 <= i < |events| => events[i].body) == bodies;
    LongerThanOpening(fold, c, planned, flags);
  }

  lemma LongerThanOpening(fold: Fold, c: Case, planned: string, flags: Flags)
    requires c.contractKinds != []
    ensures |ChainBodies(fold, c, flags, planned)| > |Opening(fold, c, planned)|
  {
    hide Opening;
  }
}
