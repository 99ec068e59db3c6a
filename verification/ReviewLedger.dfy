/**
  Invariants of the two review tables, and what every later state keeps of their rows:
  payloads never change, and a row that has left `recorded` never changes again.
  */
module ReviewLedger {
  import opened Basics
  import opened EventTypes
  import opened EventSpec
  import opened EventLedger
  import opened LedgerOps

  type ReviewTable = map<string, ReviewRow>
  type ObservedTable = map<string, ObservedRow>

  // ----- Reviews of contracts ---------------------------------------------------------

  ghost predicate ReviewShape(reviews: ReviewTable) {
    forall r :: r in reviews ==>
      && reviews[r].payload.id == r && reviews[r].hash == Sha256(OfReview(reviews[r].payload))
      && (reviews[r].payload.supersedes == "" ==> reviews[r].payload.rev == 1)
      && (reviews[r].status == ReviewRetired <==> reviews[r].retirement.Some?)
  }

  /** A review is of a contract that was locked, under that contract's hash and artifact revision. */
  ghost predicate ReviewsGrounded(contracts: Contracts, reviews: ReviewTable) {
    forall r :: r in reviews ==> Grounded(contracts, reviews[r].payload)
  }

  ghost predicate Grounded(contracts: Contracts, p: ReviewPayload) {
    && p.contractId in contracts && contracts[p.contractId].lockedAt.Some?
    && contracts[p.contractId].hash == p.contractHash
    && contracts[p.contractId].payload.context.artifactRevision == p.artifactRevision
  }

  /** A superseding review continues a review of the same evidence source, one revision on. */
  ghost predicate ReviewLineage(reviews: ReviewTable) {
    forall r :: r in reviews && reviews[r].payload.supersedes != "" ==>
      reviews[r].payload.supersedes in reviews && Continues(reviews[reviews[r].payload.supersedes], reviews[r].payload)
  }

  ghost predicate Continues(previous: ReviewRow, p: ReviewPayload) {
    && previous.status == Superseded
    && p.rev == previous.payload.rev + 1
    && p.contractId == previous.payload.contractId && p.proposal == previous.payload.proposal
    && p.receipt == previous.payload.receipt && p.assistantHash == previous.payload.assistantHash
    && p.artifactRevision == previous.payload.artifactRevision
  }

  /** No review is superseded twice. */
  ghost predicate SupersededOnce(reviews: ReviewTable) {
    forall q, r :: q in reviews && r in reviews && q != r && reviews[q].payload.supersedes != ""
      ==> reviews[q].payload.supersedes != reviews[r].payload.supersedes
  }

  ghost predicate ReviewInv(contracts: Contracts, reviews: ReviewTable) {
    ReviewShape(reviews) && ReviewsGrounded(contracts, reviews) && ReviewLineage(reviews) && SupersededOnce(reviews)
  }

  ghost predicate ReviewKept(a: ReviewRow, b: ReviewRow) {
    b.payload == a.payload && b.hash == a.hash && (a.status != Recorded ==> b == a)
  }

  ghost predicate ReviewsKept(reviews: ReviewTable, reviews': ReviewTable) {
    forall r :: r in reviews ==> r in reviews' && ReviewKept(reviews[r], reviews'[r])
  }

  ghost predicate ReviewsGo(t: Tables, o: Outcome) {
    o.Ok? ==> ReviewInv(o.value.tables.contracts, o.value.tables.reviews) && ReviewsKept(t.reviews, o.value.tables.reviews)
  }

  lemma ReviewsKeptReflexive(reviews: ReviewTable)
    ensures ReviewsKept(reviews, reviews)
  {
  }

  lemma ReviewsKeptTransitive(a: ReviewTable, b: ReviewTable, c: ReviewTable)
    requires ReviewsKept(a, b) && ReviewsKept(b, c)
    ensures ReviewsKept(a, c)
  {
    forall r | r in a ensures r in c && ReviewKept(a[r], c[r]) {
      assert ReviewKept(a[r], b[r]) && ReviewKept(b[r], c[r]);
    }
  }

  lemma RecordReviewGoes(t: Tables, p: ReviewPayload)
    requires ReviewInv(t.contracts, t.reviews)
    ensures ReviewsGo(t, RecordReviewSpec(t, p))
  {
    if RecordReviewSpec(t, p).Ok? {
      var row := RecordReviewSpec(t, p).value.body.review;
      hide ReviewInv;
      if p.supersedes == "" {
        AddFirstReview(t.contracts, t.reviews, row);
      } else {
        AddNextReview(t.contracts, t.reviews, row);
      }
    }
  }

  /** A fresh row, as it is inserted. */
  ghost predicate Inserted(row: ReviewRow) {
    && row.hash == Sha256(OfReview(row.payload)) && row.status == Recorded && row.retirement.None?
    && (row.payload.supersedes == "" ==> row.payload.rev == 1)
  }

  lemma AddFirstReview(contracts: Contracts, reviews: ReviewTable, row: ReviewRow)
    requires ReviewInv(contracts, reviews) && Grounded(contracts, row.payload) && Inserted(row)
    requires row.payload.id !in reviews && row.payload.supersedes == ""
    ensures ReviewInv(contracts, reviews[row.payload.id := row]) && ReviewsKept(reviews, reviews[row.payload.id := row])
  {
  }

  function WithNext(reviews: ReviewTable, row: ReviewRow): ReviewTable
    requires row.payload.supersedes in reviews
  {
    var previous := row.payload.supersedes;
    reviews[previous := reviews[previous].(status := Superseded)][row.payload.id := row]
  }

  /** The new review continues a recorded one. */
  ghost predicate IsNext(reviews: ReviewTable, row: ReviewRow) {
    var previous := row.payload.supersedes;
    && row.payload.id !in reviews && previous in reviews && reviews[previous].status == Recorded
    && Continues(reviews[previous].(status := Superseded), row.payload)
  }

  lemma AddNextReview(contracts: Contracts, reviews: ReviewTable, row: ReviewRow)
    requires ReviewInv(contracts, reviews) && Grounded(contracts, row.payload) && Inserted(row) && IsNext(reviews, row)
    ensures ReviewInv(contracts, WithNext(reviews, row)) && ReviewsKept(reviews, WithNext(reviews, row))
  {
    NextKeepsShape(contracts, reviews, row);
    NextKeepsLineage(reviews, row);
    NextSupersedesOnce(reviews, row);
  }

  lemma NextKeepsShape(contracts: Contracts, reviews: ReviewTable, row: ReviewRow)
    requires ReviewShape(reviews) && ReviewsGrounded(contracts, reviews)
    requires Grounded(contracts, row.payload) && Inserted(row) && IsNext(reviews, row)
    ensures ReviewShape(WithNext(reviews, row)) && ReviewsGrounded(contracts, WithNext(reviews, row))
    ensures ReviewsKept(reviews, WithNext(reviews, row))
  {
  }

  lemma NextKeepsLineage(reviews: ReviewTable, row: ReviewRow)
    requires ReviewLineage(reviews) && IsNext(reviews, row)
    ensures ReviewLineage(WithNext(reviews, row))
  {
  }

  lemma NextSupersedesOnce(reviews: ReviewTable, row: ReviewRow)
    requires ReviewLineage(reviews) && SupersededOnce(reviews) && IsNext(reviews, row)
    ensures SupersededOnce(WithNext(reviews, row))
  {
  }

  lemma RetireReviewGoes(t: Tables, id: string, reason: string, now: nat)
    requires ReviewInv(t.contracts, t.reviews)
    ensures ReviewsGo(t, RetireReviewSpec(t, id, reason, now))
  {
    hide ReviewInv, ReviewsKept;
    if id in t.reviews { OneRetired(t.contracts, t.reviews, id, Retirement(now, reason)); }
  }

  lemma OneRetired(contracts: Contracts, reviews: ReviewTable, id: string, mark: Retirement)
    requires ReviewInv(contracts, reviews) && id in reviews
    ensures var reviews' := reviews[id := reviews[id].(status := ReviewRetired, retirement := Some(mark))];
            reviews[id].status == Recorded ==> ReviewInv(contracts, reviews') && ReviewsKept(reviews, reviews')
  {
    var reviews' := reviews[id := reviews[id].(status := ReviewRetired, retirement := Some(mark))];
    if reviews[id].status == Recorded {
      assert ReviewShape(reviews') && ReviewsGrounded(contracts, reviews') && ReviewsKept(reviews, reviews');
      assert ReviewLineage(reviews');
      assert SupersededOnce(reviews');
    }
  }

  /** A contract that was locked once stays so marked. */
  lemma GroundsStay(seeds: Seeds, contracts: Contracts, contracts': Contracts, reviews: ReviewTable)
    requires ContractShape(seeds, contracts) && ReviewsGrounded(contracts, reviews) && ContractsKept(contracts, contracts')
    ensures ReviewsGrounded(contracts', reviews)
  {
    forall r | r in reviews ensures Grounded(contracts', reviews[r].payload) {
      assert Grounded(contracts, reviews[r].payload);
      var c := reviews[r].payload.contractId;
      assert ContractKept(contracts[c], contracts'[c]);
    }
  }

  lemma ReviewsMayStay(t: Tables, o: Outcome)
    requires Ledger(t) && ReviewInv(t.contracts, t.reviews) && Keeps(t, o)
    requires o.Ok? ==> o.value.tables.reviews == t.reviews
    ensures ReviewsGo(t, o)
  {
    ReviewsKeptReflexive(t.reviews);
    if o.Ok? { GroundsStay(t.seeds, t.contracts, o.value.tables.contracts, t.reviews); }
  }

  lemma OffReviewsUntouched(t: Tables, op: Op, env: Env)
    requires !op.RecordReview? && !op.RetireReview? && ArgumentError(op).None?
    ensures Apply(t, op, env).Ok? ==> Apply(t, op, env).value.tables.reviews == t.reviews
  {
    if op.RecordObservedReview? {
      assert ReviewOp(op);
    } else {
      Frame(t, op, env);
      hide Apply;
    }
  }

  /** Every operation keeps the reviews' invariant and what is permanent about each review. */
  lemma ApplyKeepsReviews(t: Tables, op: Op, env: Env)
    requires Ledger(t) && ReviewInv(t.contracts, t.reviews) && ArgumentError(op).None?
    ensures ReviewsGo(t, Apply(t, op, env))
  {
    hide ReviewInv, ReviewsKept, LedgerInv, Keeps;
    match op {
      case RecordReview(p, _) => RecordReviewGoes(t, p);
      case RetireReview(id, reason) => RetireReviewGoes(t, id, reason, env.now);
      case _ =>
        ApplyKeeps(t, op, env);
        OffReviewsUntouched(t, op, env);
        ReviewsMayStay(t, Apply(t, op, env));
    }
  }

  // ----- Reviews of accepted sources -------------------------------------------------------

  ghost predicate ObservedShape(observed: ObservedTable) {
    forall r :: r in observed ==>
      && observed[r].payload.id == r && observed[r].hash == Sha256(OfObservedReview(observed[r].payload))
      && (observed[r].payload.supersedes == "" ==> observed[r].payload.rev == 1)
      && observed[r].status in {Recorded, Superseded}
  }

  /** A superseding review continues a review of the same source, one revision on. */
  ghost predicate ObservedLineage(observed: ObservedTable) {
    forall r :: r in observed && observed[r].payload.supersedes != "" ==>
      observed[r].payload.supersedes in observed && ContinuesObserved(observed[observed[r].payload.supersedes], observed[r].payload)
  }

  ghost predicate ContinuesObserved(previous: ObservedRow, p: ObservedPayload) {
    previous.status == Superseded && SameObservedLineage(previous.payload, p)
  }

  ghost predicate ObservedSupersededOnce(observed: ObservedTable) {
    forall q, r :: q in observed && r in observed && q != r && observed[q].payload.supersedes != ""
      ==> observed[q].payload.supersedes != observed[r].payload.supersedes
  }

  ghost predicate ObservedInv(observed: ObservedTable) {
    ObservedShape(observed) && ObservedLineage(observed) && ObservedSupersededOnce(observed)
  }

  ghost predicate ObservedRowKept(a: ObservedRow, b: ObservedRow) {
    b.payload == a.payload && b.hash == a.hash && (a.status != Recorded ==> b == a)
  }

  ghost predicate ObservedKept(observed: ObservedTable, observed': ObservedTable) {
    forall r :: r in observed ==> r in observed' && ObservedRowKept(observed[r], observed'[r])
  }

  ghost predicate ObservedGo(t: Tables, o: Outcome) {
    o.Ok? ==> ObservedInv(o.value.tables.observed) && ObservedKept(t.observed, o.value.tables.observed)
  }

  lemma ObservedKeptReflexive(observed: ObservedTable)
    ensures ObservedKept(observed, observed)
  {
  }

  lemma ObservedKeptTransitive(a: ObservedTable, b: ObservedTable, c: ObservedTable)
    requires ObservedKept(a, b) && ObservedKept(b, c)
    ensures ObservedKept(a, c)
  {
    forall r | r in a ensures r in c && ObservedRowKept(a[r], c[r]) {
      assert ObservedRowKept(a[r], b[r]) && ObservedRowKept(b[r], c[r]);
    }
  }

  lemma RecordObservedGoes(t: Tables, p: ObservedPayload, source: Option<AcceptedSource>)
    requires ObservedInv(t.observed)
    ensures ObservedGo(t, RecordObservedSpec(t, p, source))
  {
    if RecordObservedSpec(t, p, source).Ok? {
      var row := RecordObservedSpec(t, p, source).value.body.observed;
      if p.supersedes == "" {
        AddFirstObserved(t.observed, row);
      } else {
        AddNextObserved(t.observed, row);
      }
    }
  }

  lemma AddFirstObserved(observed: ObservedTable, row: ObservedRow)
    requires ObservedInv(observed) && row == ObservedRow(row.payload, Sha256(OfObservedReview(row.payload)), Recorded)
    requires row.payload.id !in observed && row.payload.supersedes == "" && row.payload.rev == 1
    ensures ObservedInv(observed[row.payload.id := row]) && ObservedKept(observed, observed[row.payload.id := row])
  {
  }

  lemma AddNextObserved(observed: ObservedTable, row: ObservedRow)
    requires ObservedInv(observed) && row == ObservedRow(row.payload, Sha256(OfObservedReview(row.payload)), Recorded)
    requires row.payload.id !in observed && row.payload.supersedes != "" && row.payload.supersedes in observed
    requires observed[row.payload.supersedes].status == Recorded
    requires SameObservedLineage(observed[row.payload.supersedes].payload, row.payload)
    ensures var previous := row.payload.supersedes;
            var observed' := observed[previous := observed[previous].(status := Superseded)][row.payload.id := row];
            ObservedInv(observed') && ObservedKept(observed, observed')
  {
    var previous := row.payload.supersedes;
    var observed' := observed[previous := observed[previous].(status := Superseded)][row.payload.id := row];
    assert ObservedShape(observed') && ObservedKept(observed, observed');
    assert ObservedLineage(observed');
    assert ObservedSupersededOnce(observed');
  }

  lemma OffObservedUntouched(t: Tables, op: Op, env: Env)
    requires !op.RecordObservedReview? && ArgumentError(op).None?
    ensures Apply(t, op, env).Ok? ==> Apply(t, op, env).value.tables.observed == t.observed
  {
    if !ReviewOp(op) {
      Frame(t, op, env);
      hide Apply;
    }
  }

  /** Every operation keeps the observed reviews' invariant and what is permanent about each. */
  lemma ApplyKeepsObserved(t: Tables, op: Op, env: Env)
    requires ObservedInv(t.observed) && ArgumentError(op).None?
    ensures ObservedGo(t, Apply(t, op, env))
  {
    hide ObservedInv, ObservedKept;
    ObservedKeptReflexive(t.observed);
    match op {
      case RecordObservedReview(p, _) => RecordObservedGoes(t, p, env.source);
      case _ => OffObservedUntouched(t, op, env);
    }
  }
}
